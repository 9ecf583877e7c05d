# Foodgram backend core in Dafny

Foodgram is a recipe-sharing web service written with Django and Django REST
Framework. Users publish recipes, mark other users' recipes as favorites, put
them in a shopping cart, and subscribe to authors. The shopping cart can be
downloaded as a plain-text shopping list: one line per (ingredient name,
measurement unit) with the summed amount. An ingredient catalogue is loaded
from a CSV file by a management command.

This project models the business rules of that backend over an in-memory
store in which every database table is a field:

- `Common` (common.dfy): Option/Result, the HTTP answers with their reasons
  (`Status`), sequence helpers for tables that are bags of rows.
- `Text` (text.dfy): Python's `str(n)` and `int(s)` for the digits the code
  handles, and `'\n'.join` with its inverse.
- `UserModels` (user_models.dfy): users, follows, `Follow.clean`, the e-mail login key.
- `RecipeModels` (recipe_models.dfy): tags, ingredients, recipes and the rows
  joining them. It holds the constraints every table keeps (`Consistent`), the
  cascade and restrict rules on delete, and the keys `bulk_create` hands out.
- `ShoppingList` (shopping_list.dfy): the shopping-list join, group-by-sum and rendering.
- `Serializers` (serializers.dfy): recipe write validation, the follow
  check, the per-author recipe list of a subscription, the per-viewer flags,
  and the rows the recipe writes build.
- `Views` (views.dfy): class `Store`, whose fields are the tables and whose
  methods are the handlers that change them. These are favorite, shopping
  cart, subscribe, short link, and recipe create/update with
  `set_ingredients`, plus `bulk_create` of ingredients. Every method keeps
  `Valid()`, the store's invariant: all the uniqueness, reference and bound
  constraints of both models files. Every method modifies only the tables it
  names, so favorite handlers cannot touch the cart table and the reverse.
- `CsvLoader` (csv_loader.dfy): the ingredient loader's row loop and its bulk insert.

The constants INGREDIENT_AMOUNT_MIN/MAX, COOKING_TIME_MIN/MAX and LIMIT_SIZE
live in modules outside this model. They are parameters here, and the bounds
are taken to be non-negative with MIN ≤ MAX (both columns are positive small
integers). The requesting user, the clock reading for `pub_date`, and the
rows `csv.reader` yields are parameters.

Some descriptions of this service differ from its code. The model follows the code:

- The shopping list has no header line and no ordering: the query has no
  `order_by`, and Django leaves `Meta.ordering` out of a GROUP BY query. An
  empty cart gives the empty string. `ShoppingList.Aggregate` produces one
  admissible order: first occurrence.
- Ingredient has no uniqueness constraint on (name, measurement unit). So
  the CSV loader keeps repeated rows.
- Recipe creation is not wrapped in a transaction in the code. When the
  ingredient-row insert fails, the recipe and its tags stay (see `Views.Store.Create`).
- A non-numeric `recipes_limit` is an error in the code, not a fall-back to
  the default (see Findings).

The recipe handlers `Views.Store.CreateRecipe` and `Views.Store.UpdateRecipe`
and the subscribe handlers `Views.Store.Subscribe` and
`Views.Store.DeleteSubscribe` model the behaviour as evidently intended. As
written, `validate` refuses or crashes on every recipe body, and the follow
lookups name a field that does not exist. The members modelling the code as
written are listed under Findings.

## Model

| member | source | states |
|---|---|---|
| UserModels.Clean | backend/users/models.py:80-83 | a follow passes `clean` iff user ≠ author; otherwise the error is the self-subscription one |
| UserModels.LoginUser | backend/users/models.py:15 | the account an e-mail login resolves to has that e-mail; None only when no user has it |
| UserModels.LoginIsUnique | backend/users/models.py:15-27 | because e-mails are unique, a user's own address always logs in as that user |
| RecipeModels.DeleteRecipe | backend/recipes/models.py:104-110 | deleting a recipe removes exactly that recipe, its ingredient rows, tag rows, cart rows and favorite rows; every other recipe keeps its value; users, follows, tags and ingredients stay |
| RecipeModels.DeleteRecipeConsistent | backend/recipes/models.py:104-198 | the recipe cascade keeps every table constraint |
| RecipeModels.DeleteIngredient | backend/recipes/models.py:111-116 | deleting an ingredient is refused iff some ingredient row uses it (RESTRICT); otherwise only the ingredient goes |
| RecipeModels.DeleteIngredientConsistent | backend/recipes/models.py:111-116 | an allowed ingredient delete keeps every table constraint |
| RecipeModels.DeleteTag | backend/recipes/models.py:64-66 | deleting a tag removes exactly that tag and the recipe-tag rows naming it; every other tag keeps its value; users, follows, ingredients, recipes, ingredient rows, carts and favorites stay |
| RecipeModels.DeleteTagConsistent | backend/recipes/models.py:64-66 | deleting a tag keeps every table constraint |
| RecipeModels.DeleteUser | backend/users/models.py:53-64 | deleting a user removes exactly them, their recipes, every follow row in which they are user or author, their own cart and favorite rows, and the ingredient, tag, cart and favorite rows of their recipes; every other user and recipe keeps its value; tags and ingredients stay |
| RecipeModels.DeleteUserConsistent | backend/recipes/models.py:75-80 | the user cascade keeps every table constraint |
| UserModels.UsersOk | backend/users/models.py:17-27 | every user is stored under its own id, and no two users share a username or an e-mail |
| UserModels.FollowsOk | backend/users/models.py:52-83 | every follow row names two existing users, passes `clean` (no self-subscription), and no (user, author) pair occurs twice |
| RecipeModels.TagsOk | backend/recipes/models.py:20-30 | every tag is stored under its own id, and no two tags share a name or a slug |
| RecipeModels.RecipesOk | backend/recipes/models.py:75-87 | every recipe is stored under its own id, has an existing author, and a cooking time within COOKING_TIME_MIN..MAX |
| RecipeModels.RecipeTagsOk | backend/recipes/models.py:64-66 | every recipe-tag row joins an existing recipe and an existing tag |
| RecipeModels.PairsUnique | backend/recipes/models.py:137-142 | no two ingredient rows share (ingredient, recipe) |
| RecipeModels.RecipeIngredientsOk | backend/recipes/models.py:104-142 | every ingredient row joins an existing recipe and ingredient, has an amount within INGREDIENT_AMOUNT_MIN..MAX, and (ingredient, recipe) is unique |
| RecipeModels.UserRecipesOk | backend/recipes/models.py:148-198 | every cart or favorite row names an existing user and recipe, and no (user, recipe) pair occurs twice |
| RecipeModels.Consistent | backend/recipes/models.py:20-198 | all the constraints above hold together over the whole database |
| Common.DistinctIffSetSize | backend/api/serializers.py:242-245 | `len(s) != len(set(s))` holds exactly when s repeats an element |
| Common.InsertThenDelete | backend/api/views.py:202-232 | inserting an absent row and then deleting it gives back the original table (add then remove restores the set) |
| Text.DecimalString | backend/api/views.py:276 | `str(n)` of a sum is non-empty decimal digits with no leading zero |
| Text.DecimalRoundTrip | backend/api/views.py:276 | the digits `str(n)` writes read back as n |
| Text.ParseDecimal | backend/api/serializers.py:121 | `int` parses what `str` writes, with or without a minus sign |
| Text.SplitJoin | backend/api/views.py:275 | splitting a `'\n'.join` of newline-free lines at newlines gives the lines back |
| ShoppingList.CartItems | backend/api/views.py:173-175 | the joined rows are exactly the ingredient rows of recipes in the user's cart whose ingredient exists, one item per such row (as many items as joining rows) |
| ShoppingList.CartItemsTotal | backend/api/views.py:173-177 | for each (name, unit), the joined items' amounts add up to the reference total `RowTotal` taken straight from the table |
| ShoppingList.CartTotals | backend/api/views.py:172-177 | each line's total is the sum of the amounts of all the user's joining rows with its (name, unit), so the same ingredient in two cart recipes counts twice |
| ShoppingList.Aggregate | backend/api/views.py:176-177 | one group per distinct (name, unit) among the joined rows, no other group, and each group's total is the sum of the amounts of the joined rows with its key |
| ShoppingList.GroupSums | backend/api/views.py:173-177 | the number of groups equals the number of distinct keys, and each group's sum equals the reference total `SumOf` |
| ShoppingList.Lines | backend/api/views.py:275-278 | one line per group, the i-th line rendering the i-th group |
| ShoppingList.Render | backend/api/views.py:273-279 | the joined text is empty exactly when there are no groups (no header line) |
| ShoppingList.RenderSplits | backend/api/views.py:273-279 | with newline-free names and units, the text splits back into exactly one line per group and no trailing line |
| ShoppingList.ShoppingCartFile | backend/api/views.py:172-180 | the download is empty exactly when the user's joined cart rows are empty |
| ShoppingList.EmptyCartEmptyFile | backend/api/views.py:172-180 | a user with nothing in the cart downloads the empty string |
| ShoppingList.OwnCartOnly | backend/api/views.py:174-175 | other users' cart rows never change a user's download |
| ShoppingList.SugarExample | backend/api/views.py:172-180 | 100 g and 50 g of sugar in two cart recipes give exactly `Sugar - 150 (g)` |
| ShoppingList.DoubleSugarExample | backend/api/views.py:172-180 | 100 g of sugar in each of two cart recipes give exactly `Sugar - 200 (g)`: equal rows are not merged |
| Serializers.Validate | backend/api/serializers.py:233-246 | the intended `validate`: accepts iff ingredients and tags are present and non-empty and neither repeats an entry; the checks in order ingredients, tags, duplicate tags, duplicate ingredient entries |
| Serializers.ValidateAsWritten | backend/api/serializers.py:233-246 | the written `validate` never accepts: the first three checks give the same 400s as the intended check, and every body that passes them ends in a server error |
| Serializers.ValidateFinding | backend/api/serializers.py:244 | a well-formed body the intended check accepts is a server error as written |
| Serializers.CheckFields | backend/api/serializers.py:148-197 | the field checks pass iff every required field is present on a full write, every tag and ingredient exists, and every amount and the cooking time are within bounds; a missing field on a full write is reported first |
| Serializers.CheckRecipe | backend/api/serializers.py:147-246 | a recipe write is accepted iff tags and ingredients are present, non-empty, repeat-free and existing, every amount and the cooking time are within bounds, and every field is present on a full write; a field problem is reported before a `validate` one |
| Serializers.SameIngredientTwicePasses | backend/api/serializers.py:244-245 | the same ingredient id with two different amounts passes the whole-entry duplicate check |
| Serializers.ValidateFollow | backend/api/serializers.py:78-89 | a follow is accepted iff user ≠ author and the pair is new; self-subscription is reported first, then the existing pair |
| Serializers.GetRecipesAsWritten | backend/api/serializers.py:117-131 | without `recipes_limit`, the first LIMIT_SIZE recipes; with a number n ≥ 0, the first n; a non-numeric value leaves `limit` unbound; a negative one is a refused negative slice |
| Serializers.GetRecipes | backend/api/serializers.py:117-131 | as intended: a missing or non-numeric `recipes_limit` gives the first LIMIT_SIZE recipes, a number n ≥ 0 the first n; only a negative number fails |
| Serializers.GetRecipesFinding | backend/api/serializers.py:119-123 | `recipes_limit=abc` fails as written and lists LIMIT_SIZE recipes as intended |
| Serializers.ListedAreNewest | backend/recipes/models.py:95-96 | from a newest-first recipe list, the listed prefix is newest first and no recipe left out is newer than one listed |
| Serializers.CheckRequest | backend/api/serializers.py:273-285 | `is_favorited`/`is_in_shopping_cart` is true iff the viewer is authenticated and the (viewer, recipe) row exists |
| Views.FlagFollowsToggle | backend/api/serializers.py:273-279 | after a favorite or cart row is added the viewer's flag is true, after it is deleted the flag is false, and other viewers' flags are unchanged |
| Serializers.RowsFor | backend/api/serializers.py:199-207 | one ingredient row per submitted entry, in order, with the entry's ingredient and amount |
| Serializers.TagRows | backend/api/serializers.py:222 | the recipe-tag rows are exactly the recipe paired with each submitted tag |
| Serializers.FreshRowsInsertable | backend/recipes/models.py:137-142 | rows for a recipe that has none can be inserted without breaking (ingredient, recipe) uniqueness iff no ingredient id is submitted twice |
| Serializers.RowsNotOf | backend/api/serializers.py:228 | `ingredients.clear()` leaves exactly the rows of other recipes |
| Serializers.TagRowsNotOf | backend/api/serializers.py:227 | `tags.clear()` leaves exactly the tag rows of other recipes |
| RecipeModels.Numbered | backend/recipes/management/commands/csv_loader.py:34 | bulk-created ingredients get exactly the consecutive keys from the next free one, the i-th draft under the i-th key |
| Views.Store.constructor | backend/recipes/models.py:20-198 | a store holding only users and tags that meet their constraints satisfies the whole invariant |
| Views.Store.ShortUrl | backend/api/views.py:28-32 | 404 iff the recipe is missing; otherwise a redirect to that recipe; nothing changes |
| Views.Store.Favorite | backend/api/views.py:202-218 | 404 iff the recipe is missing; then 400 iff already a favorite; otherwise 201, and exactly that row is appended; only the favorites table may change |
| Views.Store.DeleteFavorite | backend/api/views.py:220-232 | 404 iff the recipe is missing; 204 iff the row existed, and exactly it is removed; otherwise 400 and nothing changes |
| Views.Store.ShoppingCart | backend/api/views.py:241-257 | 404 iff the recipe is missing; then 400 iff already in the cart; otherwise 201, and exactly that row is appended; only the cart table may change |
| Views.Store.DeleteShoppingCart | backend/api/views.py:259-271 | 404 iff the recipe is missing; 204 iff the row existed, and exactly it is removed; otherwise 400 and nothing changes |
| Views.Store.SubscribeAsWritten | backend/api/views.py:75-96 | the written handler never creates a follow: 404 for a missing target, 400 for oneself, a server error for any other user |
| Views.Store.DeleteSubscribeAsWritten | backend/api/views.py:106-118 | the written handler never deletes: 404 for a missing target, a server error otherwise |
| Views.Store.Subscribe | backend/api/views.py:75-104 | as intended: 404 iff the target is missing; then 201 iff the follow check accepts, appending exactly that row; otherwise 400 with the check's reason and no change |
| Views.Store.DeleteSubscribe | backend/api/views.py:106-118 | as intended: 404 iff the target is missing; 204 iff the follow existed, and exactly it is removed; otherwise 400 and nothing changes |
| Views.Store.SetIngredients | backend/api/serializers.py:199-208 | the batch is one row per entry in order; the single insert succeeds iff the table stays (ingredient, recipe)-unique, and then appends exactly the batch, otherwise nothing |
| Views.Store.InsertRecipe | backend/api/serializers.py:221 | the new recipe gets a fresh key, the requesting user as author and the given fields |
| Views.Store.ClearTags | backend/api/serializers.py:227 | the recipe loses all its tag rows, others keep theirs |
| Views.Store.SetTags | backend/api/serializers.py:222 | afterwards the recipe's tag rows are exactly the given tags |
| Views.Store.ClearIngredients | backend/api/serializers.py:228 | the recipe loses all its ingredient rows, others keep theirs |
| Views.Store.SaveFields | backend/api/serializers.py:231 | the submitted scalar fields replace the stored ones; author, key and date stay |
| Views.Store.Create | backend/api/serializers.py:217-224 | the recipe is stored with the requesting user as author and exactly the submitted tags; the ingredient rows are one per entry, in order, iff no ingredient id repeats, otherwise none (recipe and tags stay) |
| Views.Store.CreateRecipe | backend/api/serializers.py:217-246 | as intended: a refused body gives 400 with its reason and no change; an accepted one stores a new recipe by the requesting user with the submitted fields and exactly the submitted tags, and gives 201 with one ingredient row per entry iff no ingredient id repeats, otherwise a server error with no ingredient rows |
| Views.Store.Update | backend/api/serializers.py:226-231 | replace, not merge: the recipe's tag and ingredient rows are exactly the submitted ones and its fields updated iff no ingredient id repeats; otherwise it is left with no tags and no ingredient rows |
| Views.Store.Refill | backend/api/serializers.py:229-231 | on a recipe with no rows: insert the submitted rows, and only on success set the tags and fields |
| Views.Store.UpdateRecipe | backend/api/serializers.py:226-246 | as intended: 404 iff the recipe is missing; a refused body gives 400 and no change; otherwise the old tags and ingredient rows are replaced, not merged: 200 with exactly the submitted tags, rows and fields iff no ingredient id repeats, else a server error leaving the recipe with no tags and no rows |
| RecipeModels.AddNumbered | backend/recipes/management/commands/csv_loader.py:34 | adding the numbered drafts to a table whose keys are all below the first new key keeps every old ingredient as it was and adds exactly the new keys, the i-th draft under the i-th |
| Views.Store.BulkCreateIngredients | backend/recipes/management/commands/csv_loader.py:34 | one insert: the table becomes the old table plus the drafts numbered from the next free key, the counter moves past them, and every table constraint still holds |
| CsvLoader.Drafts | backend/recipes/management/commands/csv_loader.py:24-33 | the loaded ingredients are exactly (field 0, field 1) of the rows with at least two fields, never more than there are rows |
| CsvLoader.Rejected | backend/recipes/management/commands/csv_loader.py:32-33 | the logged rows are exactly those with fewer than two fields |
| CsvLoader.ReadRows | backend/recipes/management/commands/csv_loader.py:22-33 | the loop builds exactly `Drafts` and logs exactly `Rejected` |
| CsvLoader.EveryRowAccountedFor | backend/recipes/management/commands/csv_loader.py:24-33 | every row is loaded or logged: loaded + logged = rows |
| CsvLoader.DraftsAppend | backend/recipes/management/commands/csv_loader.py:24-31 | row order is kept: the drafts of a + b are the drafts of a followed by those of b |
| CsvLoader.ExtraFieldsIgnored | backend/recipes/management/commands/csv_loader.py:28-31 | fields after the second do not matter |
| CsvLoader.NoDeduplication | backend/recipes/management/commands/csv_loader.py:24-34 | a repeated row gives a repeated ingredient |
| CsvLoader.Handle | backend/recipes/management/commands/csv_loader.py:14-35 | the readable rows, in row order, are added as ingredients numbered from the next free key, in one bulk insert after the loop; the short rows are logged; the store stays consistent |

## Left out

- HTTP plumbing: routing, response bodies and representations, pagination, `get_link`, and the permission classes (`IsAuthenticated`, `OwnerOrReadOnly`'s 403). The requesting user is a parameter, and the handlers require that user to exist.
- The listing endpoints and their filters, `get_subscriptions`, and the orderings of tags, ingredients, users and favorites. Only recipes' newest-first order is stated, in `Serializers.ListedAreNewest`.
- Images (recipe image, avatar), the user endpoints of the authentication library, the admin and the migrations.
- `validate_username` and the `max_length` of every text column are not checked. The constants' values are parameters.
- Serializers.CheckFields: DRF reports every failing field at once; the model reports the first one only.
- Text.ParseInt: it accepts an optional sign and ASCII digits. It leaves out the surrounding whitespace, underscores and non-ASCII digits that Python's `int` also accepts.
- PositiveSmallIntegerField's upper limit of 32767 is not modelled. A sum in the shopping list is an unbounded integer, as in Python.
- Concurrency: two requests racing for the same unique row. Whether a project-wide `ATOMIC_REQUESTS` setting wraps each request in a transaction is not part of this model; without it, `Views.Store.Create` and `Views.Store.Update` leave their partial writes, as stated.
- `RecipeViewSet.destroy` and the other deletes go through the cascade functions of `RecipeModels` on values. They are not `Store` methods.
- In the CSV loader: opening `data/ingredients.csv`, the CSV quoting rules of `csv.reader`, the log and stdout messages, and the `--path` option, which is declared and never used.
- backend/api/views.py:4-8 imports `FollowSerializer` and `GramUserCreateSerializer` from backend/api/serializers.py, which defines neither. As written, the views module therefore fails to import. The handler models assume these names resolve; `Views.Store.Subscribe` would use `FollowSerializer` only for its answer body.
- Views.Store.Subscribe and Views.Store.DeleteSubscribe do not model the serializer's representation of the new follow (recipe counts, `recipes_limit`) in the 201 answer.

## Findings

| source | as written | input that shows it | evidently intended | confidence | as-written member | corrected member |
|---|---|---|---|---|---|---|
| backend/api/serializers.py:244 | `set(ingredients)` on a list of dicts raises TypeError, so every recipe write that passes the first three checks is a server error | tags `[1]`, ingredients `[{"id": 3, "amount": 1}]` (`Serializers.ValidateFinding`) | refuse a body that repeats an ingredient entry, accept the rest, so that the recipe POST, PUT and PATCH reach `create` and `update` (`Views.Store.CreateRecipe`, `Views.Store.UpdateRecipe`) | not executed | Serializers.ValidateAsWritten | Serializers.Validate |
| backend/api/serializers.py:119-128 | a non-numeric `recipes_limit` prints a message and then reads the unbound `limit` | `recipes_limit=abc` (`Serializers.GetRecipesFinding`) | fall back to LIMIT_SIZE | not executed | Serializers.GetRecipesAsWritten | Serializers.GetRecipes |
| backend/api/views.py:83 | `Follow.objects.filter(user=..., subscriber=...)` names a field Follow lacks (it has `user` and `author`), so subscribing to any other existing user is a server error; the serializer data also says `subscriber` instead of `author` | any existing user other than the requester | look up and create Follow(user, author) after the checks of `FollowCreateSerializer.validate` | not executed | Views.Store.SubscribeAsWritten | Views.Store.Subscribe |
| backend/api/views.py:111 | the same lookup in `delete_subscribe` fails for every existing target | any existing user | delete Follow(user, author) and answer 204, or 400 when there was none | not executed | Views.Store.DeleteSubscribeAsWritten | Views.Store.DeleteSubscribe |
