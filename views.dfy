/** The request handlers of backend/api/views.py that change or consult the
    stored rows, and the writes of `RecipeCreateSerializer`
    (backend/api/serializers.py), over an in-memory store whose fields are
    the database tables. The requesting user is a parameter; the permission
    classes that authenticate them are outside this model. */
module Views {
  import opened Common
  import opened UserModels
  import opened RecipeModels
  import opened Serializers

  /** The per-viewer flag follows the toggles: after `favorite` or
      `shopping_cart` appends the viewer's row the flag is true, after the
      matching delete removes it the flag is false, and other viewers' flags
      do not change. */
  lemma FlagFollowsToggle(rows: seq<UserRecipe>, user: UserId, other: UserId, recipe: RecipeId)
    requires other != user
    ensures CheckRequest(rows + [UserRecipe(user, recipe)], recipe, Some(user))
    ensures !CheckRequest(Without(rows, UserRecipe(user, recipe)), recipe, Some(user))
    ensures CheckRequest(rows + [UserRecipe(user, recipe)], recipe, Some(other)) == CheckRequest(rows, recipe, Some(other))
    ensures CheckRequest(Without(rows, UserRecipe(user, recipe)), recipe, Some(other)) == CheckRequest(rows, recipe, Some(other))
  {
  }

  class Store {
    const limits: Bounds
    var users: map<UserId, User>
    var follows: seq<Follow>
    var tags: map<TagId, Tag>
    var ingredients: map<IngredientId, Ingredient>
    var recipes: map<RecipeId, Recipe>
    var recipeTags: set<RecipeTag>
    var recipeIngredients: seq<RecipeIngredient>
    var carts: seq<UserRecipe>
    var favorites: seq<UserRecipe>
    /** The next primary keys the database hands out. */
    var nextRecipeId: RecipeId
    var nextIngredientId: IngredientId

    /** The tables as one value. */
    function Tables(): Db
      reads this
    {
      Db(users, follows, tags, ingredients, recipes, recipeTags, recipeIngredients, carts, favorites)
    }

    ghost predicate Valid()
      reads this
    {
      && Consistent(Tables(), limits)
      && (forall id :: id in recipes ==> id < nextRecipeId)
      && (forall id :: id in ingredients ==> id < nextIngredientId)
    }

    /** A store holding the given users and tags and nothing else (users come
        from the authentication library and tags from the admin, both outside
        this model). */
    constructor (limits: Bounds, users: map<UserId, User>, tags: map<TagId, Tag>)
      requires UsersOk(users) && TagsOk(tags)
      ensures Valid()
      ensures this.limits == limits && this.users == users && this.tags == tags
      ensures follows == [] && ingredients == map[] && recipes == map[] && recipeTags == {}
      ensures recipeIngredients == [] && carts == [] && favorites == []
    {
      this.limits := limits;
      this.users := users;
      this.tags := tags;
      follows, ingredients, recipes, recipeTags := [], map[], map[], {};
      recipeIngredients, carts, favorites := [], [], [];
      nextRecipeId, nextIngredientId := 0, 0;
    }

    /** `short_url`: a redirect to the recipe, or 404; it changes nothing. */
    function ShortUrl(pk: RecipeId): (status: Status)
      reads this
      ensures status == NotFound <==> pk !in recipes
      ensures status != NotFound ==> status == Redirect(pk)
    {
      if pk in recipes then Redirect(pk) else NotFound
    }

    /** `favorite` (POST). */
    method Favorite(user: UserId, pk: RecipeId) returns (status: Status)
      requires Valid() && user in users
      modifies this`favorites
      ensures Valid()
      ensures status == NotFound <==> pk !in recipes
      ensures status == BadRequest(AlreadyFavorited) <==> pk in recipes && UserRecipe(user, pk) in old(favorites)
      ensures status == Created <==> pk in recipes && UserRecipe(user, pk) !in old(favorites)
      ensures favorites == if status == Created then old(favorites) + [UserRecipe(user, pk)] else old(favorites)
    {
      if pk !in recipes {
        return NotFound;
      }
      var row := UserRecipe(user, pk);
      if row in favorites {
        return BadRequest(AlreadyFavorited);
      }
      AppendDistinct(favorites, row);
      favorites := favorites + [row];
      status := Created;
    }

    /** `delete_favorite` (DELETE). */
    method DeleteFavorite(user: UserId, pk: RecipeId) returns (status: Status)
      requires Valid() && user in users
      modifies this`favorites
      ensures Valid()
      ensures status == NotFound <==> pk !in recipes
      ensures status == NoContent <==> pk in recipes && UserRecipe(user, pk) in old(favorites)
      ensures status == BadRequest(NotFavorited) <==> pk in recipes && UserRecipe(user, pk) !in old(favorites)
      ensures favorites == if status == NoContent then Without(old(favorites), UserRecipe(user, pk)) else old(favorites)
      ensures UserRecipe(user, pk) !in favorites
    {
      if pk !in recipes {
        return NotFound;
      }
      var row := UserRecipe(user, pk);
      var before := |favorites|;
      WithoutDistinct(favorites, row);
      if row !in favorites {
        WithoutAbsent(favorites, row);
      }
      favorites := Without(favorites, row);
      var deleted := before - |favorites|;
      if deleted > 0 {
        status := NoContent;
      } else {
        status := BadRequest(NotFavorited);
      }
    }

    /** `shopping_cart` (POST). */
    method ShoppingCart(user: UserId, pk: RecipeId) returns (status: Status)
      requires Valid() && user in users
      modifies this`carts
      ensures Valid()
      ensures status == NotFound <==> pk !in recipes
      ensures status == BadRequest(AlreadyInCart) <==> pk in recipes && UserRecipe(user, pk) in old(carts)
      ensures status == Created <==> pk in recipes && UserRecipe(user, pk) !in old(carts)
      ensures carts == if status == Created then old(carts) + [UserRecipe(user, pk)] else old(carts)
    {
      if pk !in recipes {
        return NotFound;
      }
      var row := UserRecipe(user, pk);
      if row in carts {
        return BadRequest(AlreadyInCart);
      }
      AppendDistinct(carts, row);
      carts := carts + [row];
      status := Created;
    }

    /** `delete_shopping_cart` (DELETE). */
    method DeleteShoppingCart(user: UserId, pk: RecipeId) returns (status: Status)
      requires Valid() && user in users
      modifies this`carts
      ensures Valid()
      ensures status == NotFound <==> pk !in recipes
      ensures status == NoContent <==> pk in recipes && UserRecipe(user, pk) in old(carts)
      ensures status == BadRequest(NotInCart) <==> pk in recipes && UserRecipe(user, pk) !in old(carts)
      ensures carts == if status == NoContent then Without(old(carts), UserRecipe(user, pk)) else old(carts)
      ensures UserRecipe(user, pk) !in carts
    {
      if pk !in recipes {
        return NotFound;
      }
      var row := UserRecipe(user, pk);
      var before := |carts|;
      WithoutDistinct(carts, row);
      if row !in carts {
        WithoutAbsent(carts, row);
      }
      carts := Without(carts, row);
      var deleted := before - |carts|;
      if deleted > 0 {
        status := NoContent;
      } else {
        status := BadRequest(NotInCart);
      }
    }

    /** `subscribe` (POST) as written: the lookup `Follow.objects.filter(user=...,
        subscriber=...)` names a field Follow does not have, so every request
        that gets past the first two checks fails before anything is saved. */
    function SubscribeAsWritten(user: UserId, id: UserId): (status: Status)
      reads this
      ensures status != Created
      ensures status == NotFound <==> id !in users
      ensures id in users && id == user ==> status == BadRequest(SelfSubscription)
      ensures id in users && id != user ==> status == ServerError(UnknownLookupField)
    {
      if id !in users then NotFound
      else if user == id then BadRequest(SelfSubscription)
      else ServerError(UnknownLookupField)
    }

    /** `delete_subscribe` (DELETE) as written: the same lookup fails for every
        existing target. */
    function DeleteSubscribeAsWritten(user: UserId, id: UserId): (status: Status)
      reads this
      ensures status != NoContent
      ensures status == NotFound <==> id !in users
      ensures id in users ==> status == ServerError(UnknownLookupField)
    {
      if id !in users then NotFound else ServerError(UnknownLookupField)
    }

    /** `subscribe` (POST) as evidently intended, looking up Follow(user, author):
        404 for a missing author, then the checks of `FollowCreateSerializer.validate`. */
    method Subscribe(user: UserId, id: UserId) returns (status: Status)
      requires Valid() && user in users
      modifies this`follows
      ensures Valid()
      ensures status == NotFound <==> id !in users
      ensures id in users ==> (status == Created <==> ValidateFollow(user, id, old(follows)).Ok?)
      ensures id in users && ValidateFollow(user, id, old(follows)).Err? ==>
                status == BadRequest(ValidateFollow(user, id, old(follows)).error)
      ensures follows == if status == Created then old(follows) + [Follow(user, id)] else old(follows)
    {
      if id !in users {
        return NotFound;
      }
      if user == id {
        return BadRequest(SelfSubscription);
      }
      if Follow(user, id) in follows {
        return BadRequest(AlreadySubscribed);
      }
      match ValidateFollow(user, id, follows)
      case Err(p) =>
        status := BadRequest(p);
      case Ok(_) =>
        AppendDistinct(follows, Follow(user, id));
        follows := follows + [Follow(user, id)];
        status := Created;
    }

    /** `delete_subscribe` (DELETE) as evidently intended. */
    method DeleteSubscribe(user: UserId, id: UserId) returns (status: Status)
      requires Valid() && user in users
      modifies this`follows
      ensures Valid()
      ensures status == NotFound <==> id !in users
      ensures status == NoContent <==> id in users && Follow(user, id) in old(follows)
      ensures status == BadRequest(NotSubscribed) <==> id in users && Follow(user, id) !in old(follows)
      ensures follows == if status == NoContent then Without(old(follows), Follow(user, id)) else old(follows)
    {
      if id !in users {
        return NotFound;
      }
      var row := Follow(user, id);
      var before := |follows|;
      WithoutDistinct(follows, row);
      if row !in follows {
        WithoutAbsent(follows, row);
      }
      follows := Without(follows, row);
      var deleted := before - |follows|;
      if deleted > 0 {
        status := NoContent;
      } else {
        status := BadRequest(NotSubscribed);
      }
    }


    /** `set_ingredients`: build one row per entry, then insert them in a single
        statement, which the database refuses as a whole if it would repeat an
        (ingredient, recipe) pair. */
    method SetIngredients(entries: seq<IngredientEntry>, recipe: RecipeId) returns (ok: bool)
      requires Valid() && recipe in recipes
      requires forall e :: e in entries ==> e.id in ingredients && limits.AmountOk(e.amount)
      modifies this`recipeIngredients
      ensures Valid()
      ensures ok <==> PairsUnique(old(recipeIngredients) + RowsFor(recipe, entries, limits))
      ensures recipeIngredients == if ok then old(recipeIngredients) + RowsFor(recipe, entries, limits)
                                   else old(recipeIngredients)
    {
      var batch: seq<RecipeIngredient> := [];
      for i := 0 to |entries|
        invariant batch == RowsFor(recipe, entries[..i], limits)
      {
        assert entries[..i + 1][..i] == entries[..i];
        assert entries[i] in entries && limits.AmountOk(entries[i].amount);
        batch := batch + [RecipeIngredient(recipe, entries[i].id, entries[i].amount as nat)];
      }
      assert entries[..|entries|] == entries;
      ok := PairsUnique(recipeIngredients + batch);
      if ok {
        var all := recipeIngredients + batch;
        forall r | r in all ensures r.recipe in recipes && r.ingredient in ingredients && limits.AmountOk(r.amount) {
          if r !in recipeIngredients {
            var k :| 0 <= k < |batch| && batch[k] == r;
            assert entries[k] in entries;
          }
        }
        recipeIngredients := all;
      }
    }

    /** `Recipe.objects.create`: the next primary key, the requesting user as
        author, `now` as publication date. No row refers to the new key yet. */
    method InsertRecipe(user: UserId, name: string, text: string, cookingTime: nat, now: int) returns (id: RecipeId)
      requires Valid() && user in users && limits.CookingTimeOk(cookingTime)
      modifies this`recipes, this`nextRecipeId
      ensures Valid()
      ensures id == old(nextRecipeId) && id !in old(recipes)
      ensures recipes == old(recipes)[id := Recipe(id, user, name, text, cookingTime, now)]
      ensures forall r :: r in recipeIngredients ==> r.recipe != id
      ensures forall t :: t in recipeTags ==> t.recipe != id
    {
      id := nextRecipeId;
      var rec := Recipe(id, user, name, text, cookingTime, now);
      PutRecipeConsistent(Tables(), rec, limits);
      recipes := recipes[id := rec];
      nextRecipeId := nextRecipeId + 1;
    }

    /** `recipe.tags.clear()`. */
    method ClearTags(recipe: RecipeId)
      requires Valid()
      modifies this`recipeTags
      ensures Valid()
      ensures recipeTags == TagRowsNotOf(old(recipeTags), recipe)
    {
      recipeTags := TagRowsNotOf(recipeTags, recipe);
    }

    /** `recipe.tags.set(tags)`: afterwards the recipe has exactly the given tags. */
    method SetTags(recipe: RecipeId, tagIds: seq<TagId>)
      requires Valid() && recipe in recipes
      requires forall t :: t in tagIds ==> t in tags
      modifies this`recipeTags
      ensures Valid()
      ensures recipeTags == TagRowsNotOf(old(recipeTags), recipe) + TagRows(recipe, tagIds)
    {
      recipeTags := TagRowsNotOf(recipeTags, recipe) + TagRows(recipe, tagIds);
    }

    /** `recipe.ingredients.clear()`: the recipe's ingredient rows are deleted. */
    method ClearIngredients(recipe: RecipeId)
      requires Valid()
      modifies this`recipeIngredients
      ensures Valid()
      ensures recipeIngredients == RowsNotOf(old(recipeIngredients), recipe)
    {
      FilterPairsUnique(recipeIngredients, (x: RecipeIngredient) => x.recipe != recipe);
      recipeIngredients := RowsNotOf(recipeIngredients, recipe);
    }

    /** The field assignments of `super().update`. */
    method SaveFields(pk: RecipeId, data: RecipeData)
      requires Valid() && pk in recipes
      requires data.cookingTime.Some? ==> limits.CookingTimeOk(data.cookingTime.value)
      modifies this`recipes
      ensures Valid()
      ensures recipes == old(recipes)[pk := Updated(old(recipes)[pk], data)]
    {
      var rec := Updated(recipes[pk], data);
      PutRecipeConsistent(Tables(), rec, limits);
      recipes := recipes[pk := rec];
    }

    /** `RecipeCreateSerializer.create`, on data that passed validation: store
        the recipe, set its tags, and insert its ingredient rows. No
        transaction is opened, so when the insert of the ingredient rows fails
        the recipe and its tags stay. */
    method Create(user: UserId, data: RecipeData, now: int) returns (ok: bool, id: RecipeId)
      requires Valid() && user in users
      requires data.name.Some? && data.text.Some? && data.cookingTime.Some? && data.tags.Some? && data.ingredients.Some?
      requires limits.CookingTimeOk(data.cookingTime.value)
      requires forall t :: t in data.tags.value ==> t in tags
      requires forall e :: e in data.ingredients.value ==> e.id in ingredients && limits.AmountOk(e.amount)
      modifies this`recipes, this`recipeTags, this`recipeIngredients, this`nextRecipeId
      ensures Valid()
      ensures id !in old(recipes)
      ensures recipes == old(recipes)[id := Recipe(id, user, data.name.value, data.text.value,
                                                  data.cookingTime.value as nat, now)]
      ensures recipeTags == old(recipeTags) + TagRows(id, data.tags.value)
      ensures ok <==> IdsDistinct(data.ingredients.value)
      ensures recipeIngredients == if ok then old(recipeIngredients) + RowsFor(id, data.ingredients.value, limits)
                                   else old(recipeIngredients)
    {
      var entries := data.ingredients.value;
      id := InsertRecipe(user, data.name.value, data.text.value, data.cookingTime.value as nat, now);
      assert TagRowsNotOf(recipeTags, id) == recipeTags;
      SetTags(id, data.tags.value);
      FreshRowsInsertable(recipeIngredients, id, entries, limits);
      ok := SetIngredients(entries, id);
    }

    /** The POST on the recipe collection as evidently intended: validate with
        the intended `Validate` (400 on the first problem), then `Create`; a
        failed ingredient insert is a server error. As written, `validate`
        never lets a body through (`ValidateAsWritten`), so `create` is never
        reached. */
    method CreateRecipe(user: UserId, data: RecipeData, now: int) returns (status: Status, id: RecipeId)
      requires Valid() && user in users
      modifies this`recipes, this`recipeTags, this`recipeIngredients, this`nextRecipeId
      ensures Valid()
      ensures var check := CheckRecipe(data, false, tags.Keys, ingredients.Keys, limits);
        check.Err? ==>
          && status == BadRequest(check.error)
          && recipes == old(recipes) && recipeTags == old(recipeTags) && recipeIngredients == old(recipeIngredients)
      ensures var check := CheckRecipe(data, false, tags.Keys, ingredients.Keys, limits);
        check.Ok? ==>
          && id !in old(recipes)
          && recipes == old(recipes)[id := Recipe(id, user, data.name.value, data.text.value,
                                                 data.cookingTime.value as nat, now)]
          && recipeTags == old(recipeTags) + TagRows(id, data.tags.value)
          && (status == Created <==> IdsDistinct(data.ingredients.value))
          && (status != Created ==> status == ServerError(UniqueViolation))
          && recipeIngredients == if status == Created then old(recipeIngredients) + RowsFor(id, data.ingredients.value, limits)
                                  else old(recipeIngredients)
    {
      id := 0;
      var check := CheckRecipe(data, false, tags.Keys, ingredients.Keys, limits);
      if check.Err? {
        return BadRequest(check.error), id;
      }
      var ok;
      ok, id := Create(user, data, now);
      status := if ok then Created else ServerError(UniqueViolation);
    }

    /** `RecipeCreateSerializer.update`, on data that passed validation: clear
        the recipe's tags and ingredient rows, insert the submitted rows, set
        the submitted tags and overwrite the submitted fields. None of the old
        tags or rows survives; when the insert fails, the recipe is left with
        none at all and its fields unchanged. */
    method Update(pk: RecipeId, data: RecipeData) returns (ok: bool)
      requires Valid() && pk in recipes
      requires data.tags.Some? && data.ingredients.Some?
      requires data.cookingTime.Some? ==> limits.CookingTimeOk(data.cookingTime.value)
      requires forall t :: t in data.tags.value ==> t in tags
      requires forall e :: e in data.ingredients.value ==> e.id in ingredients && limits.AmountOk(e.amount)
      modifies this`recipes, this`recipeTags, this`recipeIngredients
      ensures Valid()
      ensures ok <==> IdsDistinct(data.ingredients.value)
      ensures recipes == if ok then old(recipes)[pk := Updated(old(recipes)[pk], data)] else old(recipes)
      ensures recipeTags == TagRowsNotOf(old(recipeTags), pk) + (if ok then TagRows(pk, data.tags.value) else {})
      ensures recipeIngredients == RowsNotOf(old(recipeIngredients), pk)
                                   + (if ok then RowsFor(pk, data.ingredients.value, limits) else [])
    {
      ClearTags(pk);
      ClearIngredients(pk);
      ok := Refill(pk, data);
    }

    /** The rest of `update` once the recipe has no tags and no ingredient
        rows: insert the submitted rows; only if that succeeds, set the tags
        and overwrite the submitted fields. */
    method Refill(pk: RecipeId, data: RecipeData) returns (ok: bool)
      requires Valid() && pk in recipes
      requires forall r :: r in recipeIngredients ==> r.recipe != pk
      requires forall t :: t in recipeTags ==> t.recipe != pk
      requires data.tags.Some? && data.ingredients.Some?
      requires data.cookingTime.Some? ==> limits.CookingTimeOk(data.cookingTime.value)
      requires forall t :: t in data.tags.value ==> t in tags
      requires forall e :: e in data.ingredients.value ==> e.id in ingredients && limits.AmountOk(e.amount)
      modifies this`recipes, this`recipeTags, this`recipeIngredients
      ensures Valid()
      ensures ok <==> IdsDistinct(data.ingredients.value)
      ensures recipes == if ok then old(recipes)[pk := Updated(old(recipes)[pk], data)] else old(recipes)
      ensures recipeTags == old(recipeTags) + (if ok then TagRows(pk, data.tags.value) else {})
      ensures recipeIngredients == old(recipeIngredients)
                                   + (if ok then RowsFor(pk, data.ingredients.value, limits) else [])
    {
      var entries := data.ingredients.value;
      FreshRowsInsertable(recipeIngredients, pk, entries, limits);
      ok := SetIngredients(entries, pk);
      if !ok {
        assert recipeTags + {} == recipeTags;
        assert recipeIngredients + [] == recipeIngredients;
        return;
      }
      assert TagRowsNotOf(recipeTags, pk) == recipeTags;
      SetTags(pk, data.tags.value);
      SaveFields(pk, data);
    }

    /** The PUT or PATCH (`partial`) on one recipe as evidently intended: 404
        for a missing recipe, validate with the intended `Validate` (400 on the
        first problem), then `Update`; a failed ingredient insert is a server
        error. As written, `validate` never lets a body through, so `update`
        is never reached. */
    method UpdateRecipe(pk: RecipeId, data: RecipeData, partial: bool) returns (status: Status)
      requires Valid()
      modifies this`recipes, this`recipeTags, this`recipeIngredients
      ensures Valid()
      ensures pk !in old(recipes) ==>
        status == NotFound && recipes == old(recipes) && recipeTags == old(recipeTags)
        && recipeIngredients == old(recipeIngredients)
      ensures var check := CheckRecipe(data, partial, tags.Keys, ingredients.Keys, limits);
        pk in old(recipes) && check.Err? ==>
          && status == BadRequest(check.error)
          && recipes == old(recipes) && recipeTags == old(recipeTags) && recipeIngredients == old(recipeIngredients)
      ensures var check := CheckRecipe(data, partial, tags.Keys, ingredients.Keys, limits);
        pk in old(recipes) && check.Ok? ==>
          && (status == Okay <==> IdsDistinct(data.ingredients.value))
          && (status != Okay ==> status == ServerError(UniqueViolation))
          && recipes == (if status == Okay then old(recipes)[pk := Updated(old(recipes)[pk], data)] else old(recipes))
          && recipeTags == TagRowsNotOf(old(recipeTags), pk) + (if status == Okay then TagRows(pk, data.tags.value) else {})
          && recipeIngredients == RowsNotOf(old(recipeIngredients), pk)
                                  + (if status == Okay then RowsFor(pk, data.ingredients.value, limits) else [])
    {
      if pk !in recipes {
        return NotFound;
      }
      var check := CheckRecipe(data, partial, tags.Keys, ingredients.Keys, limits);
      if check.Err? {
        return BadRequest(check.error);
      }
      var ok := Update(pk, data);
      status := if ok then Okay else ServerError(UniqueViolation);
    }

    /** `Ingredient.objects.bulk_create(data)`: each new ingredient gets the next
        primary key, in order; existing rows are untouched. */
    method BulkCreateIngredients(drafts: seq<NewIngredient>)
      requires Valid()
      modifies this`ingredients, this`nextIngredientId
      ensures Valid()
      ensures nextIngredientId == old(nextIngredientId) + |drafts|
      ensures ingredients == old(ingredients) + Numbered(drafts, old(nextIngredientId))
    {
      var base := nextIngredientId;
      var created := Numbered(drafts, base);
      AddIngredientsConsistent(Tables(), created, limits);
      ingredients := ingredients + created;
      nextIngredientId := base + |drafts|;
    }
  }
}
