/** Tags, ingredients, recipes and the rows that join them
    (backend/recipes/models.py), the whole database as one value, the
    constraints every table keeps, and what deleting a row does to the rows
    that refer to it. */
module RecipeModels {
  import opened Common
  import opened UserModels

  type TagId = nat
  type IngredientId = nat
  type RecipeId = nat

  /** INGREDIENT_AMOUNT_MIN/MAX and COOKING_TIME_MIN/MAX. Their values live in a
      constants module outside this model; both columns are positive small
      integers, so the bounds are taken to be non-negative and ordered. */
  datatype Limits = Limits(amountMin: int, amountMax: int, cookingMin: int, cookingMax: int) {
    predicate AmountOk(a: int) {
      amountMin <= a <= amountMax
    }
    predicate CookingTimeOk(t: int) {
      cookingMin <= t <= cookingMax
    }
  }

  type Bounds = l: Limits | 0 <= l.amountMin <= l.amountMax && 0 <= l.cookingMin <= l.cookingMax
    witness Limits(0, 0, 0, 0)

  datatype Tag = Tag(id: TagId, name: string, slug: string)

  /** No uniqueness constraint: the same (name, unit) may occur under two ids. */
  datatype Ingredient = Ingredient(id: IngredientId, name: string, unit: string)

  /** An Ingredient built in memory and not yet saved, so without a primary key. */
  datatype NewIngredient = NewIngredient(name: string, unit: string)

  /** The image is not part of this model; `pubDate` is the clock reading taken
      when the row was created. */
  datatype Recipe = Recipe(id: RecipeId, author: UserId, name: string, text: string, cookingTime: nat, pubDate: int)

  /** A row of the implicit recipe-tag many-to-many table. */
  datatype RecipeTag = RecipeTag(recipe: RecipeId, tag: TagId)

  datatype RecipeIngredient = RecipeIngredient(recipe: RecipeId, ingredient: IngredientId, amount: nat)

  /** A ShoppingCart or Favorite row. */
  datatype UserRecipe = UserRecipe(user: UserId, recipe: RecipeId)

  /** Every table of the two apps. */
  datatype Db = Db(
    users: map<UserId, User>,
    follows: seq<Follow>,
    tags: map<TagId, Tag>,
    ingredients: map<IngredientId, Ingredient>,
    recipes: map<RecipeId, Recipe>,
    recipeTags: set<RecipeTag>,
    recipeIngredients: seq<RecipeIngredient>,
    carts: seq<UserRecipe>,
    favorites: seq<UserRecipe>)

  /** Tag name and tag slug are each unique. */
  ghost predicate TagsOk(tags: map<TagId, Tag>) {
    && (forall id :: id in tags ==> tags[id].id == id)
    && (forall a, b :: a in tags && b in tags && tags[a].name == tags[b].name ==> a == b)
    && (forall a, b :: a in tags && b in tags && tags[a].slug == tags[b].slug ==> a == b)
  }

  ghost predicate IngredientsOk(ingredients: map<IngredientId, Ingredient>) {
    forall id :: id in ingredients ==> ingredients[id].id == id
  }

  /** Every recipe has an existing author and a cooking time within bounds. */
  ghost predicate RecipesOk(recipes: map<RecipeId, Recipe>, users: map<UserId, User>, lim: Bounds) {
    forall id :: id in recipes ==>
      recipes[id].id == id && recipes[id].author in users && lim.CookingTimeOk(recipes[id].cookingTime)
  }

  ghost predicate RecipeTagsOk(rows: set<RecipeTag>, recipes: map<RecipeId, Recipe>, tags: map<TagId, Tag>) {
    forall t :: t in rows ==> t.recipe in recipes && t.tag in tags
  }

  /** No two rows share (ingredient, recipe): the `unique_ingredient_in_recipe`
      constraint, which the database checks when rows are inserted. */
  predicate PairsUnique(rows: seq<RecipeIngredient>) {
    forall i, j :: 0 <= i < j < |rows| ==>
      rows[i].recipe != rows[j].recipe || rows[i].ingredient != rows[j].ingredient
  }

  /** Pair uniqueness read over the rows as a bag: no row twice, and two rows
      with the same pair are the same row. */
  lemma PairsUniqueRows(rows: seq<RecipeIngredient>)
    requires PairsUnique(rows)
    ensures Distinct(rows)
    ensures forall a, b :: a in rows && b in rows && a.recipe == b.recipe && a.ingredient == b.ingredient ==> a == b
  {
    forall a, b | a in rows && b in rows && a.recipe == b.recipe && a.ingredient == b.ingredient ensures a == b {
      var i :| 0 <= i < |rows| && rows[i] == a;
      var j :| 0 <= j < |rows| && rows[j] == b;
      if i < j {
        assert false;
      } else if j < i {
        assert false;
      }
    }
  }

  /** The converse of `PairsUniqueRows`. */
  lemma RowsUniquePairs(rows: seq<RecipeIngredient>)
    requires Distinct(rows)
    requires forall a, b :: a in rows && b in rows && a.recipe == b.recipe && a.ingredient == b.ingredient ==> a == b
    ensures PairsUnique(rows)
  {
    forall i, j | 0 <= i < j < |rows|
      ensures rows[i].recipe != rows[j].recipe || rows[i].ingredient != rows[j].ingredient
    {
      assert rows[i] in rows && rows[j] in rows;
    }
  }

  /** Filtering keeps (ingredient, recipe) unique. */
  lemma FilterPairsUnique(rows: seq<RecipeIngredient>, keep: RecipeIngredient -> bool)
    requires PairsUnique(rows)
    ensures PairsUnique(Filter(rows, keep))
  {
    PairsUniqueRows(rows);
    FilterDistinct(rows, keep);
    RowsUniquePairs(Filter(rows, keep));
  }

  /** Both ends exist, the amount is within bounds, and (ingredient, recipe)
      is unique. */
  ghost predicate RecipeIngredientsOk(rows: seq<RecipeIngredient>, recipes: map<RecipeId, Recipe>,
                                      ingredients: map<IngredientId, Ingredient>, lim: Bounds) {
    && PairsUnique(rows)
    && (forall r :: r in rows ==> r.recipe in recipes && r.ingredient in ingredients && lim.AmountOk(r.amount))
  }

  /** A ShoppingCart or Favorite table: both ends exist and (user, recipe) is unique. */
  ghost predicate UserRecipesOk(rows: seq<UserRecipe>, users: map<UserId, User>, recipes: map<RecipeId, Recipe>) {
    && Distinct(rows)
    && (forall r :: r in rows ==> r.user in users && r.recipe in recipes)
  }

  /** The constraints of both models files, over the whole database. */
  ghost predicate Consistent(db: Db, lim: Bounds) {
    && UsersOk(db.users)
    && FollowsOk(db.follows, db.users)
    && TagsOk(db.tags)
    && IngredientsOk(db.ingredients)
    && RecipesOk(db.recipes, db.users, lim)
    && RecipeTagsOk(db.recipeTags, db.recipes, db.tags)
    && RecipeIngredientsOk(db.recipeIngredients, db.recipes, db.ingredients, lim)
    && UserRecipesOk(db.carts, db.users, db.recipes)
    && UserRecipesOk(db.favorites, db.users, db.recipes)
  }

  /** Deleting a recipe cascades to its ingredient rows, its tag rows, and the
      cart and favorite rows that name it. */
  function DeleteRecipe(db: Db, id: RecipeId): (r: Db)
    ensures forall k :: k in r.recipes <==> k in db.recipes && k != id
    ensures forall k :: k in r.recipes ==> r.recipes[k] == db.recipes[k]
    ensures forall x :: x in r.recipeIngredients <==> x in db.recipeIngredients && x.recipe != id
    ensures forall x :: x in r.recipeTags <==> x in db.recipeTags && x.recipe != id
    ensures forall x :: x in r.carts <==> x in db.carts && x.recipe != id
    ensures forall x :: x in r.favorites <==> x in db.favorites && x.recipe != id
    ensures r.users == db.users && r.follows == db.follows && r.tags == db.tags && r.ingredients == db.ingredients
  {
    db.(recipes := db.recipes - {id},
        recipeTags := (set t | t in db.recipeTags && t.recipe != id),
        recipeIngredients := Filter(db.recipeIngredients, (x: RecipeIngredient) => x.recipe != id),
        carts := Filter(db.carts, (x: UserRecipe) => x.recipe != id),
        favorites := Filter(db.favorites, (x: UserRecipe) => x.recipe != id))
  }

  lemma DeleteRecipeConsistent(db: Db, id: RecipeId, lim: Bounds)
    requires Consistent(db, lim)
    ensures Consistent(DeleteRecipe(db, id), lim)
  {
    DeleteRecipeKeepsRows(db, id, lim);
  }

  lemma DeleteRecipeKeepsRows(db: Db, id: RecipeId, lim: Bounds)
    requires RecipeIngredientsOk(db.recipeIngredients, db.recipes, db.ingredients, lim)
    requires UserRecipesOk(db.carts, db.users, db.recipes) && UserRecipesOk(db.favorites, db.users, db.recipes)
    ensures var r := DeleteRecipe(db, id);
      && RecipeIngredientsOk(r.recipeIngredients, r.recipes, r.ingredients, lim)
      && UserRecipesOk(r.carts, r.users, r.recipes) && UserRecipesOk(r.favorites, r.users, r.recipes)
  {
    FilterPairsUnique(db.recipeIngredients, (x: RecipeIngredient) => x.recipe != id);
    FilterDistinct(db.carts, (x: UserRecipe) => x.recipe != id);
    FilterDistinct(db.favorites, (x: UserRecipe) => x.recipe != id);
  }

  /** The ingredient foreign key is RESTRICT: an ingredient some recipe still
      uses cannot be deleted. */
  function DeleteIngredient(db: Db, id: IngredientId): (r: Result<Db, Problem>)
    ensures r.Err? <==> exists x :: x in db.recipeIngredients && x.ingredient == id
    ensures r.Err? ==> r.error == IngredientInUse
    ensures r.Ok? ==> r.value == db.(ingredients := db.ingredients - {id})
  {
    if exists x :: x in db.recipeIngredients && x.ingredient == id then Err(IngredientInUse)
    else Ok(db.(ingredients := db.ingredients - {id}))
  }

  lemma DeleteIngredientConsistent(db: Db, id: IngredientId, lim: Bounds)
    requires Consistent(db, lim) && DeleteIngredient(db, id).Ok?
    ensures Consistent(DeleteIngredient(db, id).value, lim)
  {
    var r := DeleteIngredient(db, id).value;
    forall x | x in r.recipeIngredients ensures x.ingredient in r.ingredients {
      assert x.ingredient != id;
    }
  }

  /** Deleting a tag removes it from every recipe; no other table changes. */
  function DeleteTag(db: Db, id: TagId): (r: Db)
    ensures forall k :: k in r.tags <==> k in db.tags && k != id
    ensures forall k :: k in r.tags ==> r.tags[k] == db.tags[k]
    ensures forall x :: x in r.recipeTags <==> x in db.recipeTags && x.tag != id
    ensures r.users == db.users && r.follows == db.follows && r.ingredients == db.ingredients
    ensures r.recipes == db.recipes && r.recipeIngredients == db.recipeIngredients
    ensures r.carts == db.carts && r.favorites == db.favorites
  {
    db.(tags := db.tags - {id}, recipeTags := set t | t in db.recipeTags && t.tag != id)
  }

  lemma DeleteTagConsistent(db: Db, id: TagId, lim: Bounds)
    requires Consistent(db, lim)
    ensures Consistent(DeleteTag(db, id), lim)
  {
  }

  /** Storing a recipe, new or replacing one, whose author exists and whose
      cooking time is within bounds keeps every table constraint. */
  lemma PutRecipeConsistent(db: Db, rec: Recipe, lim: Bounds)
    requires Consistent(db, lim)
    requires rec.author in db.users && lim.CookingTimeOk(rec.cookingTime)
    ensures Consistent(db.(recipes := db.recipes[rec.id := rec]), lim)
  {
    var r := db.(recipes := db.recipes[rec.id := rec]);
    assert RecipesOk(r.recipes, r.users, lim);
    assert RecipeTagsOk(r.recipeTags, r.recipes, r.tags);
    assert RecipeIngredientsOk(r.recipeIngredients, r.recipes, r.ingredients, lim);
    assert UserRecipesOk(r.carts, r.users, r.recipes);
    assert UserRecipesOk(r.favorites, r.users, r.recipes);
  }

  /** Adding ingredients under keys not yet taken keeps every table constraint. */
  lemma AddIngredientsConsistent(db: Db, extra: map<IngredientId, Ingredient>, lim: Bounds)
    requires Consistent(db, lim)
    requires forall id :: id in extra ==> id !in db.ingredients && extra[id].id == id
    ensures Consistent(db.(ingredients := db.ingredients + extra), lim)
  {
    var r := db.(ingredients := db.ingredients + extra);
    assert IngredientsOk(r.ingredients);
    assert RecipeIngredientsOk(r.recipeIngredients, r.recipes, r.ingredients, lim);
  }

  /** New ingredients saved under consecutive primary keys from `base` on, as
      `bulk_create` numbers them. */
  function Numbered(drafts: seq<NewIngredient>, base: nat): (m: map<IngredientId, Ingredient>)
    ensures forall id :: id in m <==> base <= id < base + |drafts|
    ensures forall id :: id in m ==> m[id] == Ingredient(id, drafts[id - base].name, drafts[id - base].unit)
  {
    if drafts == [] then map[]
    else
      var n := |drafts| - 1;
      Numbered(drafts[..n], base)[base + n := Ingredient(base + n, drafts[n].name, drafts[n].unit)]
  }

  /** Numbered ingredients added above every existing key: the old rows stay,
      the new ones follow under consecutive keys. */
  lemma AddNumbered(m: map<IngredientId, Ingredient>, drafts: seq<NewIngredient>, base: nat)
    requires forall id :: id in m ==> id < base
    ensures var r := m + Numbered(drafts, base);
      && (forall id :: id in r <==> id in m || base <= id < base + |drafts|)
      && (forall id :: base <= id < base + |drafts| ==>
            r[id] == Ingredient(id, drafts[id - base].name, drafts[id - base].unit))
      && (forall id :: id in m ==> r[id] == m[id])
  {
    var created := Numbered(drafts, base);
    var r := m + created;
    forall id | base <= id < base + |drafts|
      ensures r[id] == Ingredient(id, drafts[id - base].name, drafts[id - base].unit)
    {
      assert id in created;
    }
  }

  /** The recipes a user wrote. */
  function AuthoredBy(recipes: map<RecipeId, Recipe>, u: UserId): set<RecipeId> {
    set id | id in recipes && recipes[id].author == u
  }

  /** Deleting a user cascades to their recipes (and from there to those
      recipes' rows), to their own cart and favorite rows, and to every
      Follow row in which they are the subscriber or the author. */
  function DeleteUser(db: Db, u: UserId): (r: Db)
    ensures forall k :: k in r.users <==> k in db.users && k != u
    ensures forall k :: k in r.users ==> r.users[k] == db.users[k]
    ensures forall id :: id in r.recipes <==> id in db.recipes && db.recipes[id].author != u
    ensures forall id :: id in r.recipes ==> r.recipes[id] == db.recipes[id]
    ensures forall f :: f in r.follows <==> f in db.follows && f.user != u && f.author != u
    ensures forall x :: x in r.carts <==> x in db.carts && x.user != u && x.recipe !in AuthoredBy(db.recipes, u)
    ensures forall x :: x in r.favorites <==> x in db.favorites && x.user != u && x.recipe !in AuthoredBy(db.recipes, u)
    ensures forall x :: x in r.recipeIngredients <==> x in db.recipeIngredients && x.recipe !in AuthoredBy(db.recipes, u)
    ensures forall x :: x in r.recipeTags <==> x in db.recipeTags && x.recipe !in AuthoredBy(db.recipes, u)
    ensures r.tags == db.tags && r.ingredients == db.ingredients
  {
    var gone := AuthoredBy(db.recipes, u);
    db.(users := db.users - {u},
        follows := Filter(db.follows, (f: Follow) => f.user != u && f.author != u),
        recipes := db.recipes - gone,
        recipeTags := (set t | t in db.recipeTags && t.recipe !in gone),
        recipeIngredients := Filter(db.recipeIngredients, (x: RecipeIngredient) => x.recipe !in gone),
        carts := Filter(db.carts, (x: UserRecipe) => x.user != u && x.recipe !in gone),
        favorites := Filter(db.favorites, (x: UserRecipe) => x.user != u && x.recipe !in gone))
  }

  lemma DeleteUserConsistent(db: Db, u: UserId, lim: Bounds)
    requires Consistent(db, lim)
    ensures Consistent(DeleteUser(db, u), lim)
  {
    DeleteUserKeepsUsers(db, u);
    DeleteUserKeepsRecipes(db, u, lim);
    DeleteUserKeepsRecipeRows(db, u, lim);
    DeleteUserKeepsCartRows(db, u);
    DeleteUserKeepsFavoriteRows(db, u);
  }

  lemma DeleteUserKeepsUsers(db: Db, u: UserId)
    requires UsersOk(db.users) && FollowsOk(db.follows, db.users)
    ensures UsersOk(DeleteUser(db, u).users) && FollowsOk(DeleteUser(db, u).follows, DeleteUser(db, u).users)
  {
    FilterDistinct(db.follows, (f: Follow) => f.user != u && f.author != u);
  }

  lemma DeleteUserKeepsRecipes(db: Db, u: UserId, lim: Bounds)
    requires RecipesOk(db.recipes, db.users, lim) && RecipeTagsOk(db.recipeTags, db.recipes, db.tags)
    ensures RecipesOk(DeleteUser(db, u).recipes, DeleteUser(db, u).users, lim)
    ensures RecipeTagsOk(DeleteUser(db, u).recipeTags, DeleteUser(db, u).recipes, DeleteUser(db, u).tags)
  {
    var r := DeleteUser(db, u);
    forall id | id in r.recipes ensures r.recipes[id].author in r.users {
      assert r.recipes[id] == db.recipes[id];
    }
  }

  lemma DeleteUserKeepsRecipeRows(db: Db, u: UserId, lim: Bounds)
    requires RecipeIngredientsOk(db.recipeIngredients, db.recipes, db.ingredients, lim)
    ensures var r := DeleteUser(db, u); RecipeIngredientsOk(r.recipeIngredients, r.recipes, r.ingredients, lim)
  {
    FilterPairsUnique(db.recipeIngredients, (x: RecipeIngredient) => x.recipe !in AuthoredBy(db.recipes, u));
  }

  lemma DeleteUserKeepsCartRows(db: Db, u: UserId)
    requires UserRecipesOk(db.carts, db.users, db.recipes)
    ensures var r := DeleteUser(db, u); UserRecipesOk(r.carts, r.users, r.recipes)
  {
    FilterDistinct(db.carts, (x: UserRecipe) => x.user != u && x.recipe !in AuthoredBy(db.recipes, u));
  }

  lemma DeleteUserKeepsFavoriteRows(db: Db, u: UserId)
    requires UserRecipesOk(db.favorites, db.users, db.recipes)
    ensures var r := DeleteUser(db, u); UserRecipesOk(r.favorites, r.users, r.recipes)
  {
    FilterDistinct(db.favorites, (x: UserRecipe) => x.user != u && x.recipe !in AuthoredBy(db.recipes, u));
  }
}
