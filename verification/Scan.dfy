/**
 Reading entities from rows: the columns a query selects, the holders rows are scanned
 into, the assignment of scanned values, and the shift by one column that many-to-many
 eager loading puts in between.
 */
module Scan {
  import opened Wrappers

  /** The pointer types handed to sql.Rows.Scan. */
  datatype Holder = NullInt64 | NullString | NullTime | NullBool | Bytes | UnknownType

  /** A scanned holder; a NULL leaves the zero value and valid = false. Bytes of a JSON column
      are given as the value they stand for, and nothing when there are none. */
  datatype Cell =
    | IntCell(valid: bool, i: int)
    | StringCell(valid: bool, s: string)
    | TimeCell(valid: bool, t: int)
    | BoolCell(valid: bool, b: bool)
    | BytesCell(json: Option<string>)
    | RawCell(raw: string)

  function HolderOf(c: Cell): Holder {
    match c
    case IntCell(_, _) => NullInt64
    case StringCell(_, _) => NullString
    case TimeCell(_, _) => NullTime
    case BoolCell(_, _) => NullBool
    case BytesCell(_) => Bytes
    case RawCell(_) => UnknownType
  }

  const ZERO_TIME: int := 0

  function Or<T>(v: Option<T>, zero: T): T {
    if v.Some? then v.value else zero
  }

  function Null(h: Holder): Cell {
    match h
    case NullInt64 => IntCell(false, 0)
    case NullString => StringCell(false, "")
    case NullTime => TimeCell(false, ZERO_TIME)
    case NullBool => BoolCell(false, false)
    case Bytes => BytesCell(None)
    case UnknownType => RawCell("")
  }

  function Nillable(v: Option<string>): Cell {
    if v.Some? then StringCell(true, v.value) else StringCell(false, "")
  }

  /** What assigning v makes of a field: a NULL leaves it alone, except that an id is always taken. */
  function PutCell(isId: bool, was: Cell, v: Cell): Cell {
    match v
    case IntCell(valid, i) => if isId then IntCell(true, i) else if valid then v else was
    case StringCell(valid, _) => if valid then v else was
    case TimeCell(valid, _) => if valid then v else was
    case BoolCell(valid, _) => if valid then v else was
    case BytesCell(json) => if json.Some? then v else was
    case RawCell(_) => v
  }

  /** One entity: its id column, its columns, the holder of each column, and the assignment
      of one cell, which fails when the cell has the wrong type. */
  datatype Codec<!C, !E> = Codec(
    idColumn: C,
    columns: seq<C>,
    holder: C -> Holder,
    zero: E,
    assign: (E, C, Cell) -> Option<E>,
    id: E -> int)

  /** A cell of the right type is accepted; only the id column sets the id. */
  ghost predicate Lawful<C(!new), E(!new)>(k: Codec<C, E>) {
    && k.holder(k.idColumn) == NullInt64
    && k.columns != [] && k.columns[0] == k.idColumn && k.idColumn !in k.columns[1..]
    && forall e, c, cell {:trigger k.assign(e, c, cell)} :: HolderOf(cell) == k.holder(c) ==>
         && k.assign(e, c, cell).Some?
         && k.id(k.assign(e, c, cell).value) == if c == k.idColumn then cell.i else k.id(e)
  }

  /** The row was scanned into the holders asked for. */
  ghost predicate Conforms(row: seq<Cell>, holders: seq<Holder>) {
    |row| == |holders| && forall i :: 0 <= i < |row| ==> HolderOf(row[i]) == holders[i]
  }

  function Holders<C, E>(k: Codec<C, E>, columns: seq<C>): (hs: seq<Holder>) {
    seq(|columns|, i requires 0 <= i < |columns| => k.holder(columns[i]))
  }

  /** scanValues */
  method ScanValues<C, E>(k: Codec<C, E>, columns: seq<C>) returns (values: array<Holder>)
    ensures fresh(values) && values[..] == Holders(k, columns)
  {
    values := new Holder[|columns|];
    for i := 0 to |columns|
      invariant forall j :: 0 <= j < i ==> values[j] == k.holder(columns[j])
    {
      values[i] := k.holder(columns[i]);
    }
  }

  /** The entity after the first n columns, or nothing at a type mismatch. */
  function Assigned<C, E>(k: Codec<C, E>, e: E, columns: seq<C>, values: seq<Cell>, n: nat): Option<E>
    requires n <= |columns| <= |values|
  {
    if n == 0 then Some(e)
    else match Assigned(k, e, columns, values, n - 1)
      case None => None
      case Some(x) => k.assign(x, columns[n - 1], values[n - 1])
  }

  /** The entity object that assignValues fills. */
  class Entity<E> {
    var data: E

    constructor (zero: E)
      ensures data == zero
    {
      data := zero;
    }

    /** assignValues: false is an error, either too few values or a type mismatch. */
    method AssignValues<C(==)>(k: Codec<C, E>, columns: seq<C>, values: seq<Cell>) returns (ok: bool)
      modifies this
      ensures |values| < |columns| ==> !ok && data == old(data)
      ensures |values| >= |columns| ==>
                ok == Assigned(k, old(data), columns, values, |columns|).Some?
      ensures ok ==> |values| >= |columns| && Some(data) == Assigned(k, old(data), columns, values, |columns|)
    {
      if |values| < |columns| {
        return false;
      }
      for i := 0 to |columns|
        invariant Assigned(k, old(data), columns, values, i) == Some(data)
      {
        var next := k.assign(data, columns[i], values[i]);
        if next.None? {
          AssignedStops(k, old(data), columns, values, i + 1, |columns|);
          return false;
        }
        data := next.value;
      }
      ok := true;
    }
  }

  lemma {:induction false} AssignedStops<C, E>(
    k: Codec<C, E>, e: E, columns: seq<C>, values: seq<Cell>, n: nat, m: nat)
    requires n <= m <= |columns| <= |values| && Assigned(k, e, columns, values, n).None?
    ensures Assigned(k, e, columns, values, m).None?
    decreases m
  {
    if n < m {
      AssignedStops(k, e, columns, values, n, m - 1);
    }
  }

  /** Assignment fails exactly at a cell of the wrong type; columns that are not fields take
      any cell. */
  ghost predicate Strict<C(!new), E(!new)>(k: Codec<C, E>) {
    forall e, c, cell {:trigger k.assign(e, c, cell)} ::
      k.assign(e, c, cell).Some? <==> HolderOf(cell) == k.holder(c) || k.holder(c) == UnknownType
  }

  /** A type mismatch in any column is an error, and nothing else is. */
  lemma {:induction false} MismatchIsAnError<C(!new), E(!new)>(
    k: Codec<C, E>, e: E, columns: seq<C>, values: seq<Cell>, n: nat)
    requires Strict(k) && n <= |columns| <= |values|
    ensures Assigned(k, e, columns, values, n).Some? <==>
              forall i :: 0 <= i < n ==> HolderOf(values[i]) == k.holder(columns[i]) || k.holder(columns[i]) == UnknownType
  {
    if n > 0 {
      MismatchIsAnError(k, e, columns, values, n - 1);
    }
  }

  // ---- The columns of a query ----

  function Without<C(==)>(cs: seq<C>, x: C): (r: seq<C>)
    ensures x !in r && forall c :: c in r ==> c in cs
  {
    if cs == [] then []
    else
      var front := Without(cs[..|cs| - 1], x);
      if cs[|cs| - 1] == x then front else front + [cs[|cs| - 1]]
  }

  /** _spec.Node.Columns: all columns, or the id followed by the selected fields. */
  function NodeColumns<C(==), E>(k: Codec<C, E>, fields: seq<C>): seq<C> {
    if fields == [] then k.columns else [k.idColumn] + Without(fields, k.idColumn)
  }

  /** Leaving a column out goes list by list, so the others keep their order and repeats. */
  lemma {:induction false} WithoutConcat<C>(a: seq<C>, b: seq<C>, x: C)
    ensures Without(a + b, x) == Without(a, x) + Without(b, x)
    ensures |a| == 1 ==> Without(a, x) == if a[0] == x then [] else a
  {
    if b == [] {
      assert a + b == a;
    } else {
      assert (a + b)[..|a + b| - 1] == a + b[..|b| - 1];
      WithoutConcat(a, b[..|b| - 1], x);
    }
    if |a| == 1 {
      assert a[..0] == [] && a == [a[0]];
    }
  }

  lemma {:induction false} WithoutKeeps<C>(cs: seq<C>, x: C)
    ensures multiset(Without(cs, x)) == multiset(cs)[x := 0]
    ensures |Without(cs, x)| + multiset(cs)[x] == |cs|
  {
    if cs != [] {
      var front, last := cs[..|cs| - 1], cs[|cs| - 1];
      assert cs == front + [last];
      WithoutKeeps(front, x);
    }
  }

  /** What a query with selected fields reads: the id first, then every selected field other
      than the id, as often as it was selected and in that order; without any, all columns. */
  lemma SelectedFieldsAreRead<C(!new), E>(k: Codec<C, E>, fields: seq<C>)
    ensures fields == [] ==> NodeColumns(k, fields) == k.columns
    ensures fields != [] ==>
              && NodeColumns(k, fields) == [k.idColumn] + Without(fields, k.idColumn)
              && |NodeColumns(k, fields)| == 1 + |fields| - multiset(fields)[k.idColumn]
              && multiset(NodeColumns(k, fields)[1..]) == multiset(fields)[k.idColumn := 0]
              && forall c :: c in NodeColumns(k, fields) <==> c in fields || c == k.idColumn
  {
    if fields != [] {
      WithoutKeeps(fields, k.idColumn);
      var rest := Without(fields, k.idColumn);
      assert NodeColumns(k, fields)[1..] == rest;
      forall c | c in fields && c != k.idColumn
        ensures c in rest
      {
        assert c in multiset(fields) && multiset(rest)[c] == multiset(fields)[c];
        assert c in multiset(rest);
      }
    }
  }

  method QuerySpecColumns<C(==), E>(k: Codec<C, E>, fields: seq<C>) returns (columns: seq<C>)
    ensures columns == NodeColumns(k, fields)
  {
    columns := k.columns;
    if |fields| > 0 {
      columns := [k.idColumn];
      for i := 0 to |fields|
        invariant columns == [k.idColumn] + Without(fields[..i], k.idColumn)
      {
        assert fields[..i + 1][..i] == fields[..i];
        if fields[i] != k.idColumn {
          columns := columns + [fields[i]];
        }
      }
      assert fields[..|fields|] == fields;
    }
  }

  // ---- The shift by one column ----

  /** A column of the joined query: the join table's key, or a column of the neighbour. */
  datatype Joined<C> = JoinKey | Of(c: C)

  function JoinedColumns<C(==), E>(k: Codec<C, E>, fields: seq<C>): seq<Joined<C>> {
    var own := NodeColumns(k, fields);
    [JoinKey] + seq(|own|, i requires 0 <= i < |own| => Of(own[i]))
  }

  /** columns[1:], for columns that name the neighbour's own columns after the join key. */
  function Tail<C>(columns: seq<Joined<C>>): (r: seq<C>)
    requires |columns| > 0 && forall i :: 1 <= i < |columns| ==> columns[i].Of?
    ensures |r| == |columns| - 1 && forall i :: 0 <= i < |r| ==> Of(r[i]) == columns[i + 1]
  {
    seq(|columns| - 1, i requires 0 <= i < |columns| - 1 => columns[i + 1].c)
  }

  /** The rewritten ScanValues: a holder for the join key in front of the neighbour's. */
  function ShiftedHolders<C(==), E>(k: Codec<C, E>, fields: seq<C>): seq<Holder> {
    [NullInt64] + Holders(k, Tail(JoinedColumns(k, fields)))
  }

  /** Only the first column sets the id. */
  lemma {:induction false} AssignedKeepsId<C(!new), E(!new)>(
    k: Codec<C, E>, e: E, columns: seq<C>, values: seq<Cell>, n: nat)
    requires Lawful(k) && 1 <= n <= |columns| == |values|
    requires columns[0] == k.idColumn && k.idColumn !in columns[1..]
    requires forall i :: 0 <= i < |columns| ==> HolderOf(values[i]) == k.holder(columns[i])
    ensures Assigned(k, e, columns, values, n).Some? && values[0].IntCell?
    ensures k.id(Assigned(k, e, columns, values, n).value) == values[0].i
  {
    if n == 1 {
      assert Assigned(k, e, columns, values, 0) == Some(e);
    } else {
      AssignedKeepsId(k, e, columns, values, n - 1);
      assert columns[n - 1] == columns[1..][n - 2];
    }
  }

  lemma TailOfJoined<C, E>(k: Codec<C, E>, fields: seq<C>)
    ensures Tail(JoinedColumns(k, fields)) == NodeColumns(k, fields)
  {
    var own, joined := NodeColumns(k, fields), JoinedColumns(k, fields);
    assert |joined| == |own| + 1;
    forall i | 0 <= i < |own|
      ensures Tail(joined)[i] == own[i]
    {
      assert joined[i + 1] == Of(own[i]);
    }
  }

  lemma IdComesFirst<C(!new), E(!new)>(k: Codec<C, E>, fields: seq<C>)
    requires Lawful(k)
    ensures NodeColumns(k, fields) != [] && NodeColumns(k, fields)[0] == k.idColumn
    ensures k.idColumn !in NodeColumns(k, fields)[1..]
  {
    if fields != [] {
      assert NodeColumns(k, fields)[1..] == Without(fields, k.idColumn);
    }
  }

  /** The values after the join key were scanned into the neighbour's own holders. */
  lemma ShiftedValues<C(!new), E>(k: Codec<C, E>, fields: seq<C>, row: seq<Cell>)
    requires Conforms(row, ShiftedHolders(k, fields))
    ensures |row| == |NodeColumns(k, fields)| + 1 && row[0].IntCell?
    ensures Conforms(row[1..], Holders(k, NodeColumns(k, fields)))
  {
    TailOfJoined(k, fields);
    var inner := Holders(k, NodeColumns(k, fields));
    assert ShiftedHolders(k, fields) == [NullInt64] + inner;
    assert HolderOf(row[0]) == NullInt64;
    forall i | 0 <= i < |inner|
      ensures HolderOf(row[1..][i]) == inner[i]
    {
      assert ([NullInt64] + inner)[i + 1] == inner[i] && row[1..][i] == row[i + 1];
    }
  }

  /** For every selected field list and every row scanned into the rewritten holders: the
      two leading values are integers, the neighbour's assignment sees exactly its own
      columns and cannot fail, and the second value is the neighbour's id. */
  lemma ShiftIsSound<C(!new), E(!new)>(k: Codec<C, E>, fields: seq<C>, row: seq<Cell>)
    requires Lawful(k) && Conforms(row, ShiftedHolders(k, fields))
    ensures Tail(JoinedColumns(k, fields)) == NodeColumns(k, fields)
    ensures |row| == |NodeColumns(k, fields)| + 1 >= 2 && row[0].IntCell? && row[1].IntCell?
    ensures Conforms(row[1..], Holders(k, NodeColumns(k, fields)))
    ensures Assigned(k, k.zero, NodeColumns(k, fields), row[1..], |row| - 1).Some?
    ensures k.id(Assigned(k, k.zero, NodeColumns(k, fields), row[1..], |row| - 1).value) == row[1].i
  {
    TailOfJoined(k, fields);
    IdComesFirst(k, fields);
    ShiftedValues(k, fields, row);
    var own, values := NodeColumns(k, fields), row[1..];
    assert values[0] == row[1];
    assert forall i :: 0 <= i < |own| ==> Holders(k, own)[i] == k.holder(own[i]);
    AssignedKeepsId(k, k.zero, own, values, |own|);
  }

  // ---- Reading a whole row ----

  /** `at` looks into the field of a column, `put` is what a scanned cell makes of a field. */
  datatype Lens<!C, !E, !V> = Lens(at: (E, C) -> V, put: (C, V, Cell) -> V)

  /** Assigning a cell of the right type puts it into its own field and no other. */
  ghost predicate LensOf<C(!new), E(!new), V>(k: Codec<C, E>, l: Lens<C, E, V>) {
    forall e, c, cell {:trigger k.assign(e, c, cell)} :: HolderOf(cell) == k.holder(c) ==>
      && k.assign(e, c, cell).Some?
      && forall d :: l.at(k.assign(e, c, cell).value, d) == if d == c then l.put(c, l.at(e, c), cell) else l.at(e, d)
  }

  /** The row holds the fields of `node`: putting a cell gives node's field, the first time
      and again. */
  ghost predicate RowOf<C(!new), E(!new), V>(
    k: Codec<C, E>, l: Lens<C, E, V>, node: E, columns: seq<C>, row: seq<Cell>)
  {
    && Conforms(row, Holders(k, columns))
    && forall i :: 0 <= i < |columns| && i < |row| ==>
         && l.put(columns[i], l.at(k.zero, columns[i]), row[i]) == l.at(node, columns[i])
         && l.put(columns[i], l.at(node, columns[i]), row[i]) == l.at(node, columns[i])
  }

  /** After n columns: fields read so far are node's, the others are as in a new entity. */
  lemma {:induction false} ReadsPrefix<C(!new), E(!new), V>(
    k: Codec<C, E>, l: Lens<C, E, V>, node: E, columns: seq<C>, row: seq<Cell>, n: nat)
    requires LensOf(k, l) && RowOf(k, l, node, columns, row) && n <= |columns|
    ensures Assigned(k, k.zero, columns, row, n).Some?
    ensures forall c :: l.at(Assigned(k, k.zero, columns, row, n).value, c)
                     == l.at(if c in columns[..n] then node else k.zero, c)
  {
    if n > 0 {
      ReadsPrefix(k, l, node, columns, row, n - 1);
      var c := columns[n - 1];
      assert columns[..n] == columns[..n - 1] + [c];
      assert HolderOf(row[n - 1]) == Holders(k, columns)[n - 1] == k.holder(c);
      var e := Assigned(k, k.zero, columns, row, n - 1).value;
      var x := k.assign(e, c, row[n - 1]).value;
      forall d
        ensures l.at(x, d) == l.at(if d in columns[..n] then node else k.zero, d)
      {
        assert l.at(x, d) == if d == c then l.put(c, l.at(e, c), row[n - 1]) else l.at(e, d);
        assert l.at(e, d) == l.at(if d in columns[..n - 1] then node else k.zero, d);
      }
    }
  }

  /** Reading every column in `columns`, in any order, gives node's field for each of them. */
  lemma ReadsRow<C(!new), E(!new), V>(k: Codec<C, E>, l: Lens<C, E, V>, node: E, columns: seq<C>, row: seq<Cell>)
    requires LensOf(k, l) && RowOf(k, l, node, columns, row)
    ensures Assigned(k, k.zero, columns, row, |columns|).Some?
    ensures forall c :: c in columns ==> l.at(Assigned(k, k.zero, columns, row, |columns|).value, c) == l.at(node, c)
    ensures forall c :: c !in columns ==> l.at(Assigned(k, k.zero, columns, row, |columns|).value, c) == l.at(k.zero, c)
  {
    ReadsPrefix(k, l, node, columns, row, |columns|);
    assert columns[..|columns|] == columns;
  }
}
