/**
 What an eagerly loaded component holds: the fields that were selected for it.
 */
module ComponentLoad {
  import opened Scan
  import opened Entities
  import opened EagerLoad

  /** The row of a component, in the columns asked for. */
  function ComponentRow(e: Component, columns: seq<ComponentColumn>): (row: seq<Cell>)
    ensures |row| == |columns| && forall i :: 0 <= i < |row| ==> row[i] == ComponentAt(e, columns[i])
  {
    seq(|columns|, i requires 0 <= i < |columns| => ComponentAt(e, columns[i]))
  }

  /** A joined row: the incident's id, and the component's columns. */
  function JoinedRow(out: int, e: Component, fields: seq<ComponentColumn>): seq<Cell> {
    [IntCell(true, out)] + ComponentRow(e, NodeColumns(ComponentCodec(), fields))
  }

  ghost predicate FieldsOnly(fields: seq<ComponentColumn>) {
    forall c :: c in fields ==> !c.CSelected?
  }

  lemma RowHoldsComponent(e: Component, columns: seq<ComponentColumn>)
    requires FieldsOnly(columns)
    ensures RowOf(ComponentCodec(), ComponentLens(), e, columns, ComponentRow(e, columns))
  {
    var zero := ComponentCodec().zero;
    forall i | 0 <= i < |columns|
      ensures HolderOf(ComponentRow(e, columns)[i]) == Holders(ComponentCodec(), columns)[i]
      ensures var c, v := columns[i], ComponentRow(e, columns)[i];
        && PutCell(c == CId, ComponentAt(zero, c), v) == ComponentAt(e, c)
        && PutCell(c == CId, ComponentAt(e, c), v) == ComponentAt(e, c)
    {
      assert columns[i] in columns;
    }
  }

  lemma JoinedRowConforms(out: int, e: Component, fields: seq<ComponentColumn>)
    requires FieldsOnly(fields)
    ensures FieldsOnly(NodeColumns(ComponentCodec(), fields))
    ensures Conforms(JoinedRow(out, e, fields), ShiftedHolders(ComponentCodec(), fields))
  {
    var k := ComponentCodec();
    SelectedFieldsAreRead(k, fields);
    var columns := NodeColumns(k, fields);
    TailOfJoined(k, fields);
    RowHoldsComponent(e, columns);
  }

  /** Was the column read? */
  ghost predicate Read(fields: seq<ComponentColumn>, c: ComponentColumn) {
    fields == [] || c in fields
  }

  lemma ReadColumns(fields: seq<ComponentColumn>, c: ComponentColumn)
    requires c in [CId, CName, CCreatedAt, CModifiedAt, CDeletedAt]
    ensures c in NodeColumns(ComponentCodec(), fields) <==> c == CId || Read(fields, c)
  {
    SelectedFieldsAreRead(ComponentCodec(), fields);
  }

  lemma AllColumns(node: Component, e: Component, zero: Component, fields: seq<ComponentColumn>)
    requires forall c :: c in [CId, CName, CCreatedAt, CModifiedAt, CDeletedAt] ==>
               ComponentAt(node, c) == ComponentAt(if c == CId || Read(fields, c) then e else zero, c)
    ensures node.id == e.id && node.name == (if Read(fields, CName) then e.name else zero.name)
    ensures node.createdAt == (if Read(fields, CCreatedAt) then e.createdAt else zero.createdAt)
    ensures node.modifiedAt == (if Read(fields, CModifiedAt) then e.modifiedAt else zero.modifiedAt)
    ensures node.deletedAt == (if Read(fields, CDeletedAt) then e.deletedAt else zero.deletedAt)
  {
    assert ComponentAt(node, CId) == ComponentAt(e, CId);
    assert ComponentAt(node, CName) == ComponentAt(if Read(fields, CName) then e else zero, CName);
    assert ComponentAt(node, CCreatedAt) == ComponentAt(if Read(fields, CCreatedAt) then e else zero, CCreatedAt);
    assert ComponentAt(node, CModifiedAt) == ComponentAt(if Read(fields, CModifiedAt) then e else zero, CModifiedAt);
    assert ComponentAt(node, CDeletedAt) == ComponentAt(if Read(fields, CDeletedAt) then e else zero, CDeletedAt);
  }

  /** For every component and every selection of fields: the neighbour decoded from its joined
      row has the component's id and every selected field of it, zero values elsewhere, and
      belongs to the incident of the row. */
  lemma LoadedComponentHasItsFields(out: int, e: Component, fields: seq<ComponentColumn>)
    requires FieldsOnly(fields)
    ensures Lawful(ComponentCodec()) && Conforms(JoinedRow(out, e, fields), ShiftedHolders(ComponentCodec(), fields))
    ensures var l := LinkOf(ComponentCodec(), fields, JoinedRow(out, e, fields));
      && l.out == out && l.node.id == e.id
      && l.node.name == (if Read(fields, CName) then e.name else "")
      && l.node.createdAt == (if Read(fields, CCreatedAt) then e.createdAt else ZERO_TIME)
      && l.node.modifiedAt == (if Read(fields, CModifiedAt) then e.modifiedAt else ZERO_TIME)
      && l.node.deletedAt == (if Read(fields, CDeletedAt) then e.deletedAt else ZERO_TIME)
  {
    var k, lens := ComponentCodec(), ComponentLens();
    ComponentCodecIsLawful();
    ComponentLensIsLawful();
    JoinedRowConforms(out, e, fields);
    var columns, row := NodeColumns(k, fields), JoinedRow(out, e, fields);
    assert row[1..] == ComponentRow(e, columns);
    RowHoldsComponent(e, columns);
    ReadsRow(k, lens, e, columns, row[1..]);
    var node := LinkOf(k, fields, row).node;
    forall c | c in [CId, CName, CCreatedAt, CModifiedAt, CDeletedAt]
      ensures ComponentAt(node, c) == ComponentAt(if c == CId || Read(fields, c) then e else k.zero, c)
    {
      ReadColumns(fields, c);
      assert lens.at(node, c) == lens.at(if c in columns then e else k.zero, c);
    }
    AllColumns(node, e, k.zero, fields);
  }
}
