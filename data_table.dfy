/**
 * The admin list table: the dotted-path lookup of a column's value in a
 * row, the cell text, the body (rows or the "No items found" row), and
 * the delete handler with its `deleting` marker. A row is a JSON value;
 * `None` is `undefined`.
 */
module DataTable {
  import opened Wrappers
  import opened Strings
  import opened Json

  // ---------------------------------------------------------------- getValue

  /** An array index key: the canonical decimal digits of a natural number. */
  function ArrayIndex(k: string): (r: Option<nat>)
    ensures r.Some? ==> NatToString(r.value) == k
  {
    if k != "" && (forall i :: 0 <= i < |k| ==> '0' <= k[i] <= '9') && NatToString(ParseDigits(k)) == k
    then Some(ParseDigits(k)) else None
  }

  lemma ArrayIndexOf(n: nat)
    ensures ArrayIndex(NatToString(n)) == Some(n)
  {
    NatToStringRoundTrip(n);
  }

  /**
   * `(value as Record<string, unknown>)?.[k]`: `undefined` and `null` give
   * `undefined`; an object gives its member; an array its element at an
   * index key.
   */
  function Step(v: Option<Json>, k: string): (r: Option<Json>)
    ensures v.None? || v == Some(JNull) ==> r.None?
    ensures v.Some? && v.value.JObj? ==> r == Lookup(v.value.fields, k)
  {
    match v
    case Some(JObj(fields)) => Lookup(fields, k)
    case Some(JArr(items)) =>
      var i := ArrayIndex(k);
      if i.Some? && i.value < |items| then Some(items[i.value]) else None
    case _ => None
  }

  /** Following the segments one after another from a value. */
  function Path(v: Option<Json>, keys: seq<string>): Option<Json>
    decreases keys
  {
    if keys == [] then v else Path(Step(v, keys[0]), keys[1..])
  }

  /** `getValue`: split the key on "." and take one step per segment. */
  method GetValue(item: Json, key: string) returns (value: Option<Json>)
    ensures value == Path(Some(item), Split(key, '.'))
  {
    var keys := Split(key, '.');
    value := Some(item);
    var i := 0;
    while i < |keys|
      invariant 0 <= i <= |keys|
      invariant Path(value, keys[i..]) == Path(Some(item), keys)
    {
      assert keys[i..][1..] == keys[i + 1..];
      value := Step(value, keys[i]);
      i := i + 1;
    }
  }

  /** Following a path in two parts is following the first part, then the second. */
  lemma {:induction false} PathAppend(v: Option<Json>, a: seq<string>, b: seq<string>)
    ensures Path(v, a + b) == Path(Path(v, a), b)
    decreases a
  {
    if a != [] {
      assert (a + b)[0] == a[0] && (a + b)[1..] == a[1..] + b;
      PathAppend(Step(v, a[0]), a[1..], b);
      assert Path(v, a + b) == Path(Step(v, a[0]), a[1..] + b);
      assert Path(v, a) == Path(Step(v, a[0]), a[1..]);
    } else {
      assert a + b == b;
    }
  }

  /** Once a step gives `undefined`, so does every further step. */
  lemma {:induction false} PathFromUndefined(keys: seq<string>)
    ensures Path(None, keys) == None
  {
    if keys != [] {
      PathFromUndefined(keys[1..]);
    }
  }

  /**
   * A dotted key is its first segment followed by the rest: a missing
   * intermediate value makes the whole lookup `undefined`, and a key
   * without a dot is the single member lookup.
   */
  lemma DottedKey(item: Json, head: string, tail: string)
    requires '.' !in head
    ensures Path(Some(item), Split(head + "." + tail, '.')) == Path(Step(Some(item), head), Split(tail, '.'))
    ensures Step(Some(item), head).None? ==> Path(Some(item), Split(head + "." + tail, '.')).None?
    ensures Path(Some(item), Split(head, '.')) == Step(Some(item), head)
  {
    SplitAppend(head, tail, '.');
    assert head + "." + tail == head + ['.'] + tail;
    assert ([head] + Split(tail, '.'))[1..] == Split(tail, '.');
    PathFromUndefined(Split(tail, '.'));
    SplitNoSep(head, '.');
  }

  // ---------------------------------------------------------------- cells

  /** A column: the key of its value and, optionally, its own renderer. */
  datatype Column = Column(key: string, title: string, render: Option<Json -> string>)

  /**
   * `String(value ?? "")`: `null` and `undefined` render as the empty
   * string, a string as itself, a boolean as its word; any other value
   * as `show` prints it.
   */
  function ValueText(v: Option<Json>, show: Json -> string): (r: string)
    ensures v.None? || v == Some(JNull) ==> r == ""
    ensures forall s :: v == Some(JStr(s)) ==> r == s
  {
    match v
    case None => ""
    case Some(JNull) => ""
    case Some(JStr(s)) => s
    case Some(JBool(b)) => if b then "true" else "false"
    case Some(j) => show(j)
  }

  /** A cell: the column's renderer when it has one, else the text of the value at its key. */
  function CellText(item: Json, column: Column, show: Json -> string): (r: string)
    ensures column.render.Some? ==> r == column.render.value(item)
    ensures column.render.None? ==> r == ValueText(Path(Some(item), Split(column.key, '.')), show)
  {
    if column.render.Some? then column.render.value(item)
    else ValueText(Path(Some(item), Split(column.key, '.')), show)
  }

  datatype Body = EmptyRow(colSpan: nat, text: string) | Rows(cells: seq<seq<string>>)

  /** The table body: one "No items found" row across every column and the actions column, or one row per item. */
  function TableBody(data: seq<Json>, columns: seq<Column>, show: Json -> string): (r: Body)
    ensures data == [] <==> r.EmptyRow?
    ensures r.EmptyRow? ==> r.colSpan == |columns| + 1 && r.text == "No items found"
    ensures r.Rows? ==> |r.cells| == |data| && forall i :: 0 <= i < |data| ==> |r.cells[i]| == |columns|
    ensures r.Rows? ==> forall i, j :: 0 <= i < |data| && 0 <= j < |columns| ==> r.cells[i][j] == CellText(data[i], columns[j], show)
  {
    if data == [] then EmptyRow(|columns| + 1, "No items found")
    else Rows(seq(|data|, i requires 0 <= i < |data| =>
                  seq(|columns|, j requires 0 <= j < |columns| => CellText(data[i], columns[j], show))))
  }

  // ---------------------------------------------------------------- deleting

  /** The table's one piece of state: the id being deleted, if any. */
  class TableState {
    var deleting: Option<string>

    constructor()
      ensures deleting.None?
    {
      deleting := None;
    }

    /** The delete button of a row is disabled while that row is being deleted. */
    predicate DeleteDisabled(id: string)
      reads this
    {
      deleting == Some(id)
    }

    /**
     * `handleDelete`: without an `onDelete` callback, or when the
     * confirmation is refused, nothing happens; otherwise the callback runs
     * with `deleting` set to the id (`deletingDuringCall`), and `deleting`
     * is cleared afterwards whether the callback resolved or threw.
     */
    method HandleDelete(id: string, hasOnDelete: bool, confirmed: bool, callbackThrows: bool)
      returns (called: bool, deletingDuringCall: Option<string>, threw: bool)
      modifies this
      ensures called <==> hasOnDelete && confirmed
      ensures !called ==> deleting == old(deleting) && !threw
      ensures called ==> deletingDuringCall == Some(id) && deleting.None? && (threw <==> callbackThrows)
    {
      called, deletingDuringCall, threw := false, None, false;
      if !hasOnDelete {
        return;
      }
      if !confirmed {
        return;
      }
      deleting := Some(id);
      called := true;
      deletingDuringCall := deleting;
      threw := callbackThrows;
      deleting := None;
    }
  }
}
