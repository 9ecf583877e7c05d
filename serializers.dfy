/** The checks and selections of backend/api/serializers.py: what a recipe
    write must satisfy before anything is stored, the follow check, the
    recipe list of a followed author, the per-viewer flags of a recipe, and
    the rows `create`, `update` and `set_ingredients` write (the writes
    themselves change the stored tables and are methods of `Views.Store`). */
module Serializers {
  import opened Common
  import opened Text
  import opened UserModels
  import opened RecipeModels

  /** One element of the submitted `ingredients` list: `{"id": ..., "amount": ...}`. */
  datatype IngredientEntry = IngredientEntry(id: IngredientId, amount: int)

  /** The body of a recipe write. A field the client left out is None; the
      image is not part of this model. */
  datatype RecipeData = RecipeData(
    name: Option<string>,
    text: Option<string>,
    cookingTime: Option<int>,
    tags: Option<seq<TagId>>,
    ingredients: Option<seq<IngredientEntry>>)

  /** The field-level checks `is_valid` runs before `validate`: required fields
      (unless the write is partial), tag and ingredient ids that exist, and
      the amount and cooking-time bounds. DRF reports every failing field;
      this model reports one of them. */
  function CheckFields(data: RecipeData, partial: bool, tagIds: set<TagId>,
                       ingredientIds: set<IngredientId>, lim: Bounds): (r: Result<(), Problem>)
    ensures r.Ok? <==> FieldsOk(data, partial, tagIds, ingredientIds, lim)
    ensures (!partial && (data.name.None? || data.text.None? || data.cookingTime.None?
                          || data.tags.None? || data.ingredients.None?)) ==> r == Err(FieldRequired)
    ensures r == Err(UnknownTag) ==> data.tags.Some? && exists t :: t in data.tags.value && t !in tagIds
    ensures r == Err(UnknownIngredient) ==>
      data.ingredients.Some? && exists e :: e in data.ingredients.value && e.id !in ingredientIds
    ensures r == Err(AmountOutOfRange) ==>
      data.ingredients.Some? && exists e :: e in data.ingredients.value && !lim.AmountOk(e.amount)
    ensures r == Err(CookingTimeOutOfRange) ==> data.cookingTime.Some? && !lim.CookingTimeOk(data.cookingTime.value)
  {
    if !partial && (data.name.None? || data.text.None? || data.cookingTime.None?
                    || data.tags.None? || data.ingredients.None?) then Err(FieldRequired)
    else if data.tags.Some? && exists i :: 0 <= i < |data.tags.value| && data.tags.value[i] !in tagIds then
      Err(UnknownTag)
    else if data.ingredients.Some? && exists i :: 0 <= i < |data.ingredients.value|
                                                  && data.ingredients.value[i].id !in ingredientIds then
      Err(UnknownIngredient)
    else if data.ingredients.Some? && exists i :: 0 <= i < |data.ingredients.value|
                                                  && !lim.AmountOk(data.ingredients.value[i].amount) then
      Err(AmountOutOfRange)
    else if data.cookingTime.Some? && !lim.CookingTimeOk(data.cookingTime.value) then
      Err(CookingTimeOutOfRange)
    else Ok(())
  }

  /** What the field-level checks demand of every field that is present: every
      required field present on a full write, every tag and ingredient known,
      every amount and the cooking time within bounds. */
  ghost predicate FieldsOk(data: RecipeData, partial: bool, tagIds: set<TagId>,
                           ingredientIds: set<IngredientId>, lim: Bounds) {
    && (partial || (data.name.Some? && data.text.Some? && data.cookingTime.Some?
                    && data.tags.Some? && data.ingredients.Some?))
    && (data.tags.Some? ==> forall t :: t in data.tags.value ==> t in tagIds)
    && (data.ingredients.Some? ==> forall e :: e in data.ingredients.value ==>
          e.id in ingredientIds && lim.AmountOk(e.amount))
    && (data.cookingTime.Some? ==> lim.CookingTimeOk(data.cookingTime.value))
  }

  /** `RecipeCreateSerializer.validate` as evidently intended: missing or empty
      ingredients first, then missing or empty tags, then a tag given twice,
      then an ingredient entry (id and amount alike) given twice. */
  function Validate(data: RecipeData): (r: Result<(), Problem>)
    ensures r.Ok? <==>
      && data.ingredients.Some? && |data.ingredients.value| > 0
      && data.tags.Some? && |data.tags.value| > 0
      && Distinct(data.tags.value) && Distinct(data.ingredients.value)
    ensures (data.ingredients.None? || data.ingredients.value == []) ==> r == Err(NoIngredients)
    ensures data.ingredients.Some? && data.ingredients.value != [] && (data.tags.None? || data.tags.value == [])
            ==> r == Err(NoTags)
    ensures (&& data.ingredients.Some? && data.ingredients.value != [] && data.tags.Some? && data.tags.value != []
             && !Distinct(data.tags.value)) ==> r == Err(DuplicateTags)
    ensures (&& data.ingredients.Some? && data.ingredients.value != [] && data.tags.Some? && data.tags.value != []
             && Distinct(data.tags.value) && !Distinct(data.ingredients.value)) ==> r == Err(DuplicateIngredients)
  {
    if data.ingredients.None? || |data.ingredients.value| == 0 then Err(NoIngredients)
    else if data.tags.None? || |data.tags.value| == 0 then Err(NoTags)
    else
      var tags, ingredients := data.tags.value, data.ingredients.value;
      DistinctIffSetSize(tags);
      DistinctIffSetSize(ingredients);
      if |tags| != |ToSet(tags)| then Err(DuplicateTags)
      else if |ingredients| != |ToSet(ingredients)| then Err(DuplicateIngredients)
      else Ok(())
  }

  /** `RecipeCreateSerializer.validate` as written: the ingredient entries are
      dicts, so `set(ingredients)` raises TypeError once the first three
      checks have passed. */
  function ValidateAsWritten(data: RecipeData): (r: Result<(), Status>)
    ensures r.Err?
    ensures Validate(data).Err? && Validate(data).error != DuplicateIngredients ==>
            r == Err(BadRequest(Validate(data).error))
    ensures (&& data.ingredients.Some? && data.ingredients.value != [] && data.tags.Some? && data.tags.value != []
             && Distinct(data.tags.value)) ==> r == Err(ServerError(UnhashableType))
  {
    if data.ingredients.None? || |data.ingredients.value| == 0 then Err(BadRequest(NoIngredients))
    else if data.tags.None? || |data.tags.value| == 0 then Err(BadRequest(NoTags))
    else
      var tags := data.tags.value;
      DistinctIffSetSize(tags);
      if |tags| != |ToSet(tags)| then Err(BadRequest(DuplicateTags))
      else Err(ServerError(UnhashableType))
  }

  /** A well-formed submission that the written check turns into a server
      error, while the intended check accepts it. */
  lemma ValidateFinding()
    ensures var data := RecipeData(Some("Tea"), Some("Boil water."), Some(5), Some([1]),
                                   Some([IngredientEntry(3, 1)]));
            ValidateAsWritten(data) == Err(ServerError(UnhashableType)) && Validate(data) == Ok(())
  {
    var data := RecipeData(Some("Tea"), Some("Boil water."), Some(5), Some([1]), Some([IngredientEntry(3, 1)]));
    assert Distinct(data.tags.value) && Distinct(data.ingredients.value);
  }

  /** The whole of `is_valid` for a recipe write: field checks, then `validate`. */
  function CheckRecipe(data: RecipeData, partial: bool, tagIds: set<TagId>,
                       ingredientIds: set<IngredientId>, lim: Bounds): (r: Result<(), Problem>)
    ensures r.Ok? <==>
      && data.tags.Some? && data.tags.value != [] && Distinct(data.tags.value)
      && (forall t :: t in data.tags.value ==> t in tagIds)
      && data.ingredients.Some? && data.ingredients.value != [] && Distinct(data.ingredients.value)
      && (forall e :: e in data.ingredients.value ==> e.id in ingredientIds && lim.AmountOk(e.amount))
      && (data.cookingTime.None? || lim.CookingTimeOk(data.cookingTime.value))
      && (partial || (data.name.Some? && data.text.Some? && data.cookingTime.Some?))
    ensures CheckFields(data, partial, tagIds, ingredientIds, lim).Err? ==>
            r == CheckFields(data, partial, tagIds, ingredientIds, lim)
    ensures CheckFields(data, partial, tagIds, ingredientIds, lim).Ok? ==> r == Validate(data)
  {
    match CheckFields(data, partial, tagIds, ingredientIds, lim)
    case Err(p) => Err(p)
    case Ok(_) => Validate(data)
  }

  /** The same ingredient twice with different amounts passes the duplicate
      check, which compares whole entries; only the database's
      (ingredient, recipe) uniqueness catches it later. */
  lemma SameIngredientTwicePasses()
    ensures Validate(RecipeData(None, None, None, Some([1]),
                                Some([IngredientEntry(3, 10), IngredientEntry(3, 20)]))).Ok?
  {
    var ingredients := [IngredientEntry(3, 10), IngredientEntry(3, 20)];
    assert ingredients[0] != ingredients[1];
  }

  /** `FollowCreateSerializer.validate`: no self-subscription, then no second
      subscription to the same author. */
  function ValidateFollow(user: UserId, author: UserId, follows: seq<Follow>): (r: Result<(), Problem>)
    ensures r.Ok? <==> user != author && Follow(user, author) !in follows
    ensures user == author ==> r == Err(SelfSubscription)
    ensures user != author && Follow(user, author) in follows ==> r == Err(AlreadySubscribed)
  {
    if user == author then Err(SelfSubscription)
    else if Follow(user, author) in follows then Err(AlreadySubscribed)
    else Ok(())
  }

  function Min(a: int, b: int): int {
    if a <= b then a else b
  }

  /** Python's `s[:n]` for n >= 0. */
  function Take<T>(s: seq<T>, n: nat): (r: seq<T>)
    ensures |r| == Min(|s|, n) && r <= s
  {
    if n <= |s| then s[..n] else s
  }

  /** Recipes listed newest first (the Recipe ordering). */
  predicate NewestFirst(s: seq<Recipe>) {
    forall i, j :: 0 <= i < j < |s| ==> s[i].pubDate >= s[j].pubDate
  }

  /** `FollowIssuanceSerializer.get_recipes` as written, over the author's
      recipes: no parameter gives LIMIT_SIZE of them; a numeric parameter n
      gives the first n; a non-numeric one leaves `limit` unbound; a negative
      one is a negative slice, which query sets refuse. */
  function GetRecipesAsWritten(param: Option<string>, recipes: seq<Recipe>, limitSize: nat): (r: Result<seq<Recipe>, Crash>)
    ensures r.Ok? ==> r.value <= recipes
    ensures param.None? ==> r.Ok? && |r.value| == Min(|recipes|, limitSize)
    ensures param.Some? ==> (r.Ok? <==> ParseInt(param.value).Some? && ParseInt(param.value).value >= 0)
    ensures param.Some? && r.Ok? ==> |r.value| == Min(|recipes|, ParseInt(param.value).value)
    ensures param.Some? && ParseInt(param.value).None? ==> r == Err(UnboundLimit)
    ensures param.Some? && ParseInt(param.value).Some? && ParseInt(param.value).value < 0 ==> r == Err(NegativeSlice)
  {
    match param
    case None => Ok(Take(recipes, limitSize))
    case Some(s) =>
      match ParseInt(s)
      case None => Err(UnboundLimit)
      case Some(n) => if n < 0 then Err(NegativeSlice) else Ok(Take(recipes, n))
  }

  /** `get_recipes` as evidently intended: a non-numeric parameter falls back
      to LIMIT_SIZE, like a missing one. */
  function GetRecipes(param: Option<string>, recipes: seq<Recipe>, limitSize: nat): (r: Result<seq<Recipe>, Crash>)
    ensures r.Ok? ==> r.value <= recipes
    ensures r.Err? <==> param.Some? && ParseInt(param.value).Some? && ParseInt(param.value).value < 0
    ensures (param.None? || ParseInt(param.value).None?) ==> r.Ok? && |r.value| == Min(|recipes|, limitSize)
    ensures param.Some? && ParseInt(param.value).Some? && r.Ok? ==> |r.value| == Min(|recipes|, ParseInt(param.value).value)
  {
    var limit := if param.None? || ParseInt(param.value).None? then limitSize as int else ParseInt(param.value).value;
    if limit < 0 then Err(NegativeSlice) else Ok(Take(recipes, limit))
  }

  /** With a non-numeric `recipes_limit` the written code fails and the
      intended code lists LIMIT_SIZE recipes. */
  lemma GetRecipesFinding(recipes: seq<Recipe>, limitSize: nat)
    ensures GetRecipesAsWritten(Some("abc"), recipes, limitSize) == Err(UnboundLimit)
    ensures GetRecipes(Some("abc"), recipes, limitSize) == Ok(Take(recipes, limitSize))
  {
    assert !IsDigit('a');
  }

  /** Listing a newest-first sequence keeps it newest first, and nothing left
      out is newer than anything listed. */
  lemma {:induction false} ListedAreNewest(param: Option<string>, recipes: seq<Recipe>, limitSize: nat)
    requires NewestFirst(recipes) && GetRecipes(param, recipes, limitSize).Ok?
    ensures NewestFirst(GetRecipes(param, recipes, limitSize).value)
    ensures forall x, y ::
      x in GetRecipes(param, recipes, limitSize).value && y in recipes && y !in GetRecipes(param, recipes, limitSize).value
      ==> x.pubDate >= y.pubDate
  {
    var listed := GetRecipes(param, recipes, limitSize).value;
    assert listed == recipes[..|listed|];
    forall x, y | x in listed && y in recipes && y !in listed ensures x.pubDate >= y.pubDate {
      var i :| 0 <= i < |listed| && listed[i] == x;
      var j :| 0 <= j < |recipes| && recipes[j] == y;
      assert j >= |listed|;
      assert recipes[i] == x;
    }
  }

  /** `RecipeSerializer.check_request`, behind `is_favorited` and
      `is_in_shopping_cart`: an anonymous viewer (None) gets false. */
  function CheckRequest(rows: seq<UserRecipe>, recipe: RecipeId, viewer: Option<UserId>): (b: bool)
    ensures b <==> viewer.Some? && UserRecipe(viewer.value, recipe) in rows
  {
    match viewer
    case None => false
    case Some(u) => UserRecipe(u, recipe) in rows
  }

  // The rows the recipe writes build.

  /** The ingredient rows `set_ingredients` builds for one recipe, in the
      order of the submitted entries. */
  function RowsFor(recipe: RecipeId, entries: seq<IngredientEntry>, lim: Bounds): (rows: seq<RecipeIngredient>)
    requires forall e :: e in entries ==> lim.AmountOk(e.amount)
    ensures |rows| == |entries|
    ensures forall k :: 0 <= k < |entries| ==>
      rows[k].recipe == recipe && rows[k].ingredient == entries[k].id && rows[k].amount == entries[k].amount
  {
    if entries == [] then []
    else
      var init, last := entries[..|entries| - 1], entries[|entries| - 1];
      assert forall e :: e in init ==> e in entries;
      assert last in entries && lim.AmountOk(last.amount);
      RowsFor(recipe, init, lim) + [RecipeIngredient(recipe, last.id, last.amount as nat)]
  }

  /** The many-to-many rows `recipe.tags.set(tags)` leaves for one recipe. */
  function TagRows(recipe: RecipeId, tagIds: seq<TagId>): (rows: set<RecipeTag>)
    ensures forall t :: t in rows <==> t.recipe == recipe && t.tag in tagIds
  {
    set t | t in tagIds :: RecipeTag(recipe, t)
  }

  /** No ingredient id is submitted twice. */
  predicate IdsDistinct(entries: seq<IngredientEntry>) {
    forall i, j :: 0 <= i < j < |entries| ==> entries[i].id != entries[j].id
  }

  /** Rows for a recipe that has none yet can be inserted exactly when no
      ingredient id is submitted twice. */
  lemma {:induction false} FreshRowsInsertable(existing: seq<RecipeIngredient>, recipe: RecipeId,
                                               entries: seq<IngredientEntry>, lim: Bounds)
    requires PairsUnique(existing)
    requires forall r :: r in existing ==> r.recipe != recipe
    requires forall e :: e in entries ==> lim.AmountOk(e.amount)
    ensures PairsUnique(existing + RowsFor(recipe, entries, lim)) <==> IdsDistinct(entries)
  {
    var batch := RowsFor(recipe, entries, lim);
    var all := existing + batch;
    var n := |existing|;
    if IdsDistinct(entries) {
      forall i, j | 0 <= i < j < |all| ensures all[i].recipe != all[j].recipe || all[i].ingredient != all[j].ingredient {
        if j < n {
          assert all[i] == existing[i] && all[j] == existing[j];
        } else if i < n {
          assert all[i] == existing[i] && all[i] in existing;
          assert all[j] == batch[j - n];
        } else {
          assert all[i] == batch[i - n] && all[j] == batch[j - n];
          assert entries[i - n].id != entries[j - n].id;
        }
      }
    } else {
      var i, j :| 0 <= i < j < |entries| && entries[i].id == entries[j].id;
      assert all[n + i] == batch[i] && all[n + j] == batch[j];
    }
  }

  /** The ingredient rows of every other recipe: `recipe.ingredients.clear()`. */
  function RowsNotOf(rows: seq<RecipeIngredient>, recipe: RecipeId): (r: seq<RecipeIngredient>)
    ensures forall x :: x in r <==> x in rows && x.recipe != recipe
  {
    Filter(rows, (x: RecipeIngredient) => x.recipe != recipe)
  }

  /** The tag rows of every other recipe: `recipe.tags.clear()`. */
  function TagRowsNotOf(rows: set<RecipeTag>, recipe: RecipeId): (r: set<RecipeTag>)
    ensures forall x :: x in r <==> x in rows && x.recipe != recipe
  {
    set x | x in rows && x.recipe != recipe
  }

  function OrElse<T>(o: Option<T>, default: T): T {
    match o
    case Some(v) => v
    case None => default
  }

  /** `super().update`: the submitted scalar fields replace the stored ones;
      author, id and publication date stay. */
  function Updated(r: Recipe, data: RecipeData): Recipe
    requires data.cookingTime.Some? ==> data.cookingTime.value >= 0
  {
    Recipe(r.id, r.author, OrElse(data.name, r.name), OrElse(data.text, r.text),
           if data.cookingTime.Some? then data.cookingTime.value as nat else r.cookingTime, r.pubDate)
  }
}
