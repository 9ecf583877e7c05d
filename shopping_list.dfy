/** The shopping-list download (backend/api/views.py, `download_shopping_cart`
    and `shopping_cart_in_file`): join the requesting user's cart to the
    ingredient rows of the recipes in it, group by (ingredient name, unit),
    sum the amounts, and write one line per group. */
module ShoppingList {
  import opened Common
  import opened Text
  import opened UserModels
  import opened RecipeModels

  /** What the query groups by: `ingredient__name`, `ingredient__measurement_unit`. */
  datatype Key = Key(name: string, unit: string)

  /** One joined row: an ingredient row of a recipe in the cart. */
  datatype Item = Item(key: Key, amount: nat)

  /** One group of the result, `sum` being `Sum('amount')`. */
  datatype Entry = Entry(key: Key, sum: nat)

  /** The joined row an ingredient row contributes. */
  function ItemOf(r: RecipeIngredient, ingredients: map<IngredientId, Ingredient>): Item
    requires r.ingredient in ingredients
  {
    Item(Key(ingredients[r.ingredient].name, ingredients[r.ingredient].unit), r.amount)
  }

  /** Whether an ingredient row takes part in the user's download: its recipe
      is in the user's cart and its ingredient exists (the join is an inner one). */
  predicate Joins(r: RecipeIngredient, ingredients: map<IngredientId, Ingredient>,
                  carts: seq<UserRecipe>, user: UserId) {
    UserRecipe(user, r.recipe) in carts && r.ingredient in ingredients
  }

  /** `RecipeIngredient.objects.filter(recipe__shopping_cart__user=user)` joined
      to the ingredient, in table order: one item per joining row, so equal
      rows of two recipes give two items. */
  function CartItems(rows: seq<RecipeIngredient>, ingredients: map<IngredientId, Ingredient>,
                     carts: seq<UserRecipe>, user: UserId): (items: seq<Item>)
    ensures |items| == |Filter(rows, (r: RecipeIngredient) => Joins(r, ingredients, carts, user))|
    ensures forall it :: it in items ==>
      exists r :: r in rows && UserRecipe(user, r.recipe) in carts && r.ingredient in ingredients
                  && it == ItemOf(r, ingredients)
    ensures forall r :: r in rows && UserRecipe(user, r.recipe) in carts && r.ingredient in ingredients ==>
      ItemOf(r, ingredients) in items
  {
    if rows == [] then []
    else
      var init := CartItems(rows[..|rows| - 1], ingredients, carts, user);
      var r := rows[|rows| - 1];
      assert forall x :: x in rows <==> x in rows[..|rows| - 1] || x == r;
      if Joins(r, ingredients, carts, user) then
        init + [ItemOf(r, ingredients)]
      else init
  }

  /** Reference total for a key, taken straight from the table: the amounts
      of all joining rows whose ingredient has that (name, unit). */
  function RowTotal(rows: seq<RecipeIngredient>, ingredients: map<IngredientId, Ingredient>,
                    carts: seq<UserRecipe>, user: UserId, k: Key): nat {
    if rows == [] then 0
    else
      var r := rows[|rows| - 1];
      RowTotal(rows[..|rows| - 1], ingredients, carts, user, k)
        + (if Joins(r, ingredients, carts, user) && Key(ingredients[r.ingredient].name, ingredients[r.ingredient].unit) == k
           then r.amount else 0)
  }

  /** Reference definition of a group's total: the amounts of all items with that key. */
  function SumOf(items: seq<Item>, k: Key): nat {
    if items == [] then 0
    else SumOf(items[..|items| - 1], k) + (if items[|items| - 1].key == k then items[|items| - 1].amount else 0)
  }

  function ItemKeys(items: seq<Item>): set<Key> {
    set it | it in items :: it.key
  }

  function EntryKeys(es: seq<Entry>): set<Key> {
    set e | e in es :: e.key
  }

  predicate KeysDistinct(es: seq<Entry>) {
    forall i, j :: 0 <= i < j < |es| ==> es[i].key != es[j].key
  }

  /** The total recorded for k, 0 when there is no group for k. */
  function Lookup(es: seq<Entry>, k: Key): nat {
    if es == [] then 0
    else if es[0].key == k then es[0].sum
    else Lookup(es[1..], k)
  }

  /** Adds one joined row to the groups built so far. */
  function AddItem(es: seq<Entry>, it: Item): seq<Entry> {
    if es == [] then [Entry(it.key, it.amount)]
    else if es[0].key == it.key then [Entry(it.key, es[0].sum + it.amount)] + es[1..]
    else [es[0]] + AddItem(es[1..], it)
  }

  lemma EntryKeysCons(e: Entry, es: seq<Entry>)
    ensures EntryKeys([e] + es) == {e.key} + EntryKeys(es)
  {
    assert forall x :: x in [e] + es <==> x == e || x in es;
  }

  /** With distinct keys, the first group's key occurs nowhere in the rest. */
  lemma HeadKeyUnique(es: seq<Entry>)
    requires es != [] && KeysDistinct(es)
    ensures KeysDistinct(es[1..])
    ensures es[0].key !in EntryKeys(es[1..])
  {
    forall e | e in es[1..] ensures e.key != es[0].key {
      var j :| 0 <= j < |es[1..]| && es[1..][j] == e;
      assert es[0].key != es[j + 1].key;
    }
  }

  /** Adding a row keeps one group per key, adds its key, and adds its
      amount to that key's total and to no other. */
  lemma {:induction false} AddItemFacts(es: seq<Entry>, it: Item)
    requires KeysDistinct(es)
    ensures KeysDistinct(AddItem(es, it))
    ensures EntryKeys(AddItem(es, it)) == EntryKeys(es) + {it.key}
    ensures forall k :: Lookup(AddItem(es, it), k) == Lookup(es, k) + (if k == it.key then it.amount else 0)
  {
    var r := AddItem(es, it);
    if es == [] {
      assert EntryKeys(r) == {it.key} by { EntryKeysCons(r[0], []); }
    } else {
      HeadKeyUnique(es);
      EntryKeysCons(es[0], es[1..]);
      assert [es[0]] + es[1..] == es;
      if es[0].key == it.key {
        LookupAbsent(es[1..], it.key);
        EntryKeysCons(r[0], es[1..]);
        assert r[1..] == es[1..];
        forall i, j | 0 <= i < j < |r| ensures r[i].key != r[j].key {
          assert r[j] == es[j];
          if i > 0 { assert r[i] == es[i]; }
        }
      } else {
        var rest := AddItem(es[1..], it);
        AddItemFacts(es[1..], it);
        EntryKeysCons(es[0], rest);
        assert r[1..] == rest;
        forall i, j | 0 <= i < j < |r| ensures r[i].key != r[j].key {
          assert r[j] == rest[j - 1] && r[j] in rest;
          if i > 0 { assert r[i] == rest[i - 1]; }
        }
      }
    }
  }

  /** Lookup of a key without a group is 0. */
  lemma {:induction false} LookupAbsent(es: seq<Entry>, k: Key)
    requires k !in EntryKeys(es)
    ensures Lookup(es, k) == 0
  {
    if es != [] {
      assert es[0] in es;
      assert EntryKeys(es[1..]) <= EntryKeys(es) by {
        forall e | e in es[1..] ensures e in es { }
      }
      LookupAbsent(es[1..], k);
    }
  }

  /** In groups with distinct keys, a group's own sum is what Lookup finds. */
  lemma {:induction false} LookupAt(es: seq<Entry>, i: nat)
    requires KeysDistinct(es) && i < |es|
    ensures Lookup(es, es[i].key) == es[i].sum
  {
    if i > 0 {
      assert es[0].key != es[i].key;
      assert es[1..][i - 1] == es[i];
      LookupAt(es[1..], i - 1);
    }
  }

  /** `.values(name, unit).annotate(sum=Sum('amount'))`: one group per key,
      in the order the keys first occur (the query has no `order_by`, so any
      order the database picks is possible; this is one of them). */
  function Aggregate(items: seq<Item>): (es: seq<Entry>)
    ensures KeysDistinct(es)
    ensures EntryKeys(es) == ItemKeys(items)
    ensures forall k :: Lookup(es, k) == SumOf(items, k)
  {
    if items == [] then []
    else
      var init := items[..|items| - 1];
      var last := items[|items| - 1];
      assert ItemKeys(items) == ItemKeys(init) + {last.key} by {
        assert forall it :: it in items <==> it in init || it == last;
      }
      AddItemFacts(Aggregate(init), last);
      AddItem(Aggregate(init), last)
  }

  /** Each group's sum is the total of the amounts of all joined rows with its
      (name, unit), and the groups are exactly the distinct keys. */
  lemma GroupSums(items: seq<Item>)
    ensures |Aggregate(items)| == |ItemKeys(items)|
    ensures forall i :: 0 <= i < |Aggregate(items)| ==>
      Aggregate(items)[i].sum == SumOf(items, Aggregate(items)[i].key)
  {
    var es := Aggregate(items);
    forall i | 0 <= i < |es| ensures es[i].sum == SumOf(items, es[i].key) {
      LookupAt(es, i);
    }
    DistinctKeysCount(es);
  }

  /** The joined items of a key add up to the amounts of that key's joining rows. */
  lemma {:induction false} CartItemsTotal(rows: seq<RecipeIngredient>, ingredients: map<IngredientId, Ingredient>,
                                          carts: seq<UserRecipe>, user: UserId, k: Key)
    ensures SumOf(CartItems(rows, ingredients, carts, user), k) == RowTotal(rows, ingredients, carts, user, k)
  {
    if rows != [] {
      var init, r := rows[..|rows| - 1], rows[|rows| - 1];
      var items := CartItems(init, ingredients, carts, user);
      CartItemsTotal(init, ingredients, carts, user, k);
      if Joins(r, ingredients, carts, user) {
        assert (items + [ItemOf(r, ingredients)])[..|items|] == items;
      }
    }
  }

  /** Every line of the download totals all the user's joining rows with its
      (name, unit): the same ingredient in two cart recipes is counted twice,
      and a key no joining row has gets no total. */
  lemma CartTotals(rows: seq<RecipeIngredient>, ingredients: map<IngredientId, Ingredient>,
                   carts: seq<UserRecipe>, user: UserId)
    ensures forall k :: Lookup(Aggregate(CartItems(rows, ingredients, carts, user)), k)
                        == RowTotal(rows, ingredients, carts, user, k)
  {
    forall k ensures Lookup(Aggregate(CartItems(rows, ingredients, carts, user)), k)
                     == RowTotal(rows, ingredients, carts, user, k) {
      CartItemsTotal(rows, ingredients, carts, user, k);
    }
  }

  /** Distinct keys: as many keys as groups. */
  lemma {:induction false} DistinctKeysCount(es: seq<Entry>)
    requires KeysDistinct(es)
    ensures |EntryKeys(es)| == |es|
  {
    if es != [] {
      var rest := es[1..];
      HeadKeyUnique(es);
      DistinctKeysCount(rest);
      assert es == [es[0]] + rest;
      EntryKeysCons(es[0], rest);
    }
  }

  /** One line of the file: `"<name> - <sum> (<unit>)"`. */
  function Line(e: Entry): string {
    e.key.name + " - " + DecimalString(e.sum) + " (" + e.key.unit + ")"
  }

  function Lines(es: seq<Entry>): (ls: seq<string>)
    ensures |ls| == |es| && forall i :: 0 <= i < |es| ==> ls[i] == Line(es[i])
  {
    if es == [] then [] else [Line(es[0])] + Lines(es[1..])
  }

  /** `shopping_cart_in_file`: the lines joined by a newline, with no header
      and no trailing newline. */
  function Render(es: seq<Entry>): (text: string)
    ensures text == "" <==> es == []
  {
    var ls := Lines(es);
    if es == [] then JoinLines(ls)
    else
      JoinNonEmpty(ls);
      JoinLines(ls)
  }

  /** Joining at least one line, the first of which is not empty, is not empty. */
  lemma {:induction false} JoinNonEmpty(ls: seq<string>)
    requires |ls| >= 1 && ls[0] != ""
    ensures JoinLines(ls) != ""
  {
    if |ls| > 1 {
      JoinNonEmpty(ls[..|ls| - 1]);
    }
  }

  predicate NoNewlineIn(k: Key) {
    NoNewline(k.name) && NoNewline(k.unit)
  }

  lemma LineHasNoNewline(e: Entry)
    requires NoNewlineIn(e.key)
    ensures NoNewline(Line(e))
  {
    var d := DecimalString(e.sum);
    assert '\n' !in d by {
      forall i | 0 <= i < |d| ensures d[i] != '\n' {
        assert IsDigit(d[i]);
      }
    }
  }

  /** Reading the file back line by line gives exactly one line per group,
      as long as no ingredient name or unit holds a newline. */
  lemma RenderSplits(es: seq<Entry>)
    requires es != []
    requires forall i :: 0 <= i < |es| ==> NoNewlineIn(es[i].key)
    ensures SplitLines(Render(es)) == Lines(es)
    ensures |SplitLines(Render(es))| == |es|
  {
    var ls := Lines(es);
    forall i | 0 <= i < |ls| ensures NoNewline(ls[i]) {
      LineHasNoNewline(es[i]);
    }
    SplitJoin(ls);
  }

  /** The whole download for one user: empty exactly when no ingredient row
      of a recipe in their cart survives the join. */
  function ShoppingCartFile(db: Db, user: UserId): (text: string)
    ensures text == "" <==> CartItems(db.recipeIngredients, db.ingredients, db.carts, user) == []
  {
    var items := CartItems(db.recipeIngredients, db.ingredients, db.carts, user);
    var es := Aggregate(items);
    assert items != [] ==> items[0].key in EntryKeys(es);
    Render(es)
  }

  /** A user with nothing in the cart downloads an empty file. */
  lemma {:induction false} EmptyCartItems(rows: seq<RecipeIngredient>, ingredients: map<IngredientId, Ingredient>,
                                          carts: seq<UserRecipe>, user: UserId)
    requires forall c :: c in carts ==> c.user != user
    ensures CartItems(rows, ingredients, carts, user) == []
  {
    if rows != [] {
      EmptyCartItems(rows[..|rows| - 1], ingredients, carts, user);
    }
  }

  lemma EmptyCartEmptyFile(db: Db, user: UserId)
    requires forall c :: c in db.carts ==> c.user != user
    ensures ShoppingCartFile(db, user) == ""
  {
    EmptyCartItems(db.recipeIngredients, db.ingredients, db.carts, user);
  }

  /** Only the requesting user's own cart rows matter: two carts tables that
      agree on which recipes this user has give the same joined rows. */
  lemma {:induction false} CartItemsOwnCartOnly(rows: seq<RecipeIngredient>, ingredients: map<IngredientId, Ingredient>,
                                                carts1: seq<UserRecipe>, carts2: seq<UserRecipe>, user: UserId)
    requires forall r :: UserRecipe(user, r) in carts1 <==> UserRecipe(user, r) in carts2
    ensures CartItems(rows, ingredients, carts1, user) == CartItems(rows, ingredients, carts2, user)
  {
    if rows != [] {
      CartItemsOwnCartOnly(rows[..|rows| - 1], ingredients, carts1, carts2, user);
    }
  }

  /** Other users' carts never change a user's download. */
  lemma OwnCartOnly(db1: Db, db2: Db, user: UserId)
    requires db1.recipeIngredients == db2.recipeIngredients && db1.ingredients == db2.ingredients
    requires forall r :: UserRecipe(user, r) in db1.carts <==> UserRecipe(user, r) in db2.carts
    ensures ShoppingCartFile(db1, user) == ShoppingCartFile(db2, user)
  {
    CartItemsOwnCartOnly(db1.recipeIngredients, db1.ingredients, db1.carts, db2.carts, user);
  }

  /** Two recipes in the cart, each with sugar in grams (100 and 50), give the
      single line "Sugar - 150 (g)". */
  lemma SugarExample(db: Db)
    requires db.ingredients == map[1 := Ingredient(1, "Sugar", "g")]
    requires db.recipeIngredients == [RecipeIngredient(10, 1, 100), RecipeIngredient(20, 1, 50)]
    requires db.carts == [UserRecipe(7, 10), UserRecipe(7, 20)]
    ensures ShoppingCartFile(db, 7) == "Sugar - 150 (g)"
  {
    SugarFile(db, 100, 50);
    ExampleDigits();
    SugarText(150, "150");
    ExampleLines();
  }

  /** Two recipes in the cart with 100 g of sugar each: the equal rows are both
      counted, giving "Sugar - 200 (g)". */
  lemma DoubleSugarExample(db: Db)
    requires db.ingredients == map[1 := Ingredient(1, "Sugar", "g")]
    requires db.recipeIngredients == [RecipeIngredient(10, 1, 100), RecipeIngredient(20, 1, 100)]
    requires db.carts == [UserRecipe(7, 10), UserRecipe(7, 20)]
    ensures ShoppingCartFile(db, 7) == "Sugar - 200 (g)"
  {
    SugarFile(db, 100, 100);
    ExampleDigits();
    SugarText(200, "200");
    ExampleLines();
  }

  /** The digits of the two example totals. */
  lemma ExampleDigits()
    ensures DecimalString(150) == "150" && DecimalString(200) == "200"
  {
    assert DecimalString(1) == "1" && DecimalString(15) == "15";
    assert DecimalString(2) == "2" && DecimalString(20) == "20";
  }

  /** The two example lines, spelt out. */
  lemma ExampleLines()
    ensures "Sugar - " + "150" + " (g)" == "Sugar - 150 (g)"
    ensures "Sugar - " + "200" + " (g)" == "Sugar - 200 (g)"
  {
  }

  /** Two cart recipes with sugar in grams give the download of one entry. */
  lemma SugarFile(db: Db, a: nat, b: nat)
    requires db.ingredients == map[1 := Ingredient(1, "Sugar", "g")]
    requires db.recipeIngredients == [RecipeIngredient(10, 1, a), RecipeIngredient(20, 1, b)]
    requires db.carts == [UserRecipe(7, 10), UserRecipe(7, 20)]
    ensures ShoppingCartFile(db, 7) == Render([Entry(Key("Sugar", "g"), a + b)])
  {
    SugarRows(db, a, b);
    SugarTotal(a, b);
  }

  /** The join gives one sugar item per cart recipe, in row order. */
  lemma SugarRows(db: Db, a: nat, b: nat)
    requires db.ingredients == map[1 := Ingredient(1, "Sugar", "g")]
    requires db.recipeIngredients == [RecipeIngredient(10, 1, a), RecipeIngredient(20, 1, b)]
    requires db.carts == [UserRecipe(7, 10), UserRecipe(7, 20)]
    ensures CartItems(db.recipeIngredients, db.ingredients, db.carts, 7) ==
      [Item(Key("Sugar", "g"), a), Item(Key("Sugar", "g"), b)]
  {
    var rows := db.recipeIngredients;
    assert rows[..1] == [rows[0]] && rows[..0] == [];
    assert CartItems(rows[..1], db.ingredients, db.carts, 7) == [Item(Key("Sugar", "g"), a)];
  }

  /** Two sugar items sum to one entry. */
  lemma SugarTotal(a: nat, b: nat)
    ensures Aggregate([Item(Key("Sugar", "g"), a), Item(Key("Sugar", "g"), b)]) == [Entry(Key("Sugar", "g"), a + b)]
  {
    var items := [Item(Key("Sugar", "g"), a), Item(Key("Sugar", "g"), b)];
    assert items[..1] == [Item(Key("Sugar", "g"), a)] && items[..0] == [];
    assert Aggregate(items[..1]) == [Entry(Key("Sugar", "g"), a)];
  }

  /** One entry of sugar in grams renders as "Sugar - <n> (g)". */
  lemma SugarText(n: nat, digits: string)
    requires DecimalString(n) == digits
    ensures Render([Entry(Key("Sugar", "g"), n)]) == "Sugar - " + digits + " (g)"
  {
    var e := Entry(Key("Sugar", "g"), n);
    assert Line(e) == "Sugar" + " - " + digits + " (" + "g" + ")";
    assert Line(e) == "Sugar - " + digits + " (g)";
    assert Lines([e]) == [Line(e)];
  }
}
