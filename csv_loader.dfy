/** The `csv_loader` management command
    (backend/recipes/management/commands/csv_loader.py): every CSV row with
    at least two fields becomes an ingredient (name, measurement unit); a
    shorter row raises inside the `try`, is logged and skipped; then all the
    ingredients are saved with one `bulk_create`. The rows are given as
    `csv.reader` yields them; opening the file is outside this model. */
module CsvLoader {
  import opened RecipeModels
  import Views

  /** One row as `csv.reader` yields it: its fields. */
  type Row = seq<string>

  /** Whether `row[0]` and `row[1]` both exist. */
  predicate Readable(row: Row) {
    |row| >= 2
  }

  /** The ingredients the loop collects, in row order. */
  function Drafts(rows: seq<Row>): (data: seq<NewIngredient>)
    ensures |data| <= |rows|
    ensures forall d :: d in data <==> exists r :: r in rows && Readable(r) && d == NewIngredient(r[0], r[1])
  {
    if rows == [] then []
    else
      var init, last := rows[..|rows| - 1], rows[|rows| - 1];
      assert forall r :: r in rows <==> r in init || r == last;
      Drafts(init) + (if Readable(last) then [NewIngredient(last[0], last[1])] else [])
  }

  /** The rows the loop logs and skips, in row order. */
  function Rejected(rows: seq<Row>): (bad: seq<Row>)
    ensures forall r :: r in bad <==> r in rows && !Readable(r)
  {
    if rows == [] then []
    else
      var init, last := rows[..|rows| - 1], rows[|rows| - 1];
      assert forall r :: r in rows <==> r in init || r == last;
      Rejected(init) + (if Readable(last) then [] else [last])
  }

  /** The `for row in reader` loop: append an ingredient for a readable row,
      log the others. */
  method ReadRows(rows: seq<Row>) returns (data: seq<NewIngredient>, logged: seq<Row>)
    ensures data == Drafts(rows) && logged == Rejected(rows)
  {
    data, logged := [], [];
    for i := 0 to |rows|
      invariant data == Drafts(rows[..i]) && logged == Rejected(rows[..i])
    {
      assert rows[..i + 1][..i] == rows[..i];
      var row := rows[i];
      if |row| >= 2 {
        data := data + [NewIngredient(row[0], row[1])];
      } else {
        logged := logged + [row];
      }
    }
    assert rows[..|rows|] == rows;
  }

  /** Every row is either loaded or logged, never both and never neither. */
  lemma {:induction false} EveryRowAccountedFor(rows: seq<Row>)
    ensures |Drafts(rows)| + |Rejected(rows)| == |rows|
  {
    if rows != [] {
      EveryRowAccountedFor(rows[..|rows| - 1]);
    }
  }

  /** Reading two files' worth of rows one after the other gives the first
      file's ingredients followed by the second's: order is kept and nothing
      is merged. */
  lemma {:induction false} DraftsAppend(a: seq<Row>, b: seq<Row>)
    ensures Drafts(a + b) == Drafts(a) + Drafts(b)
  {
    if b == [] {
      assert a + b == a;
    } else {
      var init := b[..|b| - 1];
      assert (a + b)[..|a + b| - 1] == a + init;
      assert (a + b)[|a + b| - 1] == b[|b| - 1];
      DraftsAppend(a, init);
    }
  }

  /** Fields after the second are ignored. */
  lemma ExtraFieldsIgnored(name: string, unit: string, rest: seq<string>)
    ensures Drafts([[name, unit] + rest]) == [NewIngredient(name, unit)]
  {
    var rows := [[name, unit] + rest];
    assert rows[..0] == [];
  }

  /** A row that occurs twice is loaded twice: there is no deduplication. */
  lemma NoDeduplication(row: Row)
    requires Readable(row)
    ensures Drafts([row, row]) == [NewIngredient(row[0], row[1]), NewIngredient(row[0], row[1])]
  {
    assert [row, row][..1] == [row];
    assert [row][..0] == [];
  }

  /** `handle`: read the rows, then save everything that was read in one
      `bulk_create`; the new ingredients get consecutive keys in row order. */
  method Handle(store: Views.Store, rows: seq<Row>) returns (logged: seq<Row>)
    requires store.Valid()
    modifies store`ingredients, store`nextIngredientId
    ensures store.Valid()
    ensures logged == Rejected(rows)
    ensures store.nextIngredientId == old(store.nextIngredientId) + |Drafts(rows)|
    ensures store.ingredients == old(store.ingredients) + Numbered(Drafts(rows), old(store.nextIngredientId))
  {
    var data;
    data, logged := ReadRows(rows);
    store.BulkCreateIngredients(data);
  }
}
