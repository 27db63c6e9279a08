/**
 The Component and Incident entities: which holder each column is scanned into, how a
 scanned cell is assigned, and the way back: what createSpec writes.
 */
module Entities {
  import opened Wrappers
  import opened Scan

  // ---- Component ----

  datatype ComponentColumn = CId | CName | CCreatedAt | CModifiedAt | CDeletedAt | CSelected(name: string)

  /** `selected` holds values of columns that are not fields, as selectValues does. */
  datatype Component = Component(
    id: int, name: string, createdAt: int, modifiedAt: int, deletedAt: int, selected: map<string, Cell>)

  function ComponentHolder(c: ComponentColumn): Holder {
    match c
    case CId => NullInt64
    case CName => NullString
    case CCreatedAt => NullTime
    case CModifiedAt => NullTime
    case CDeletedAt => NullTime
    case CSelected(_) => UnknownType
  }

  function AssignComponent(e: Component, c: ComponentColumn, v: Cell): Option<Component> {
    match (c, v)
    case (CId, IntCell(_, i)) => Some(e.(id := i))
    case (CName, StringCell(valid, s)) => Some(if valid then e.(name := s) else e)
    case (CCreatedAt, TimeCell(valid, t)) => Some(if valid then e.(createdAt := t) else e)
    case (CModifiedAt, TimeCell(valid, t)) => Some(if valid then e.(modifiedAt := t) else e)
    case (CDeletedAt, TimeCell(valid, t)) => Some(if valid then e.(deletedAt := t) else e)
    case (CSelected(name), _) => Some(e.(selected := e.selected[name := v]))
    case _ => None
  }

  function ComponentCodec(): Codec<ComponentColumn, Component> {
    Codec(CId, [CId, CName, CCreatedAt, CModifiedAt, CDeletedAt], ComponentHolder,
          Component(0, "", ZERO_TIME, ZERO_TIME, ZERO_TIME, map[]), AssignComponent, (e: Component) => e.id)
  }

  lemma ComponentCodecIsLawful()
    ensures Lawful(ComponentCodec()) && Strict(ComponentCodec())
  {
  }

  /** The field of a column, as a cell. */
  function ComponentAt(e: Component, c: ComponentColumn): Cell {
    match c
    case CId => IntCell(true, e.id)
    case CName => StringCell(true, e.name)
    case CCreatedAt => TimeCell(true, e.createdAt)
    case CModifiedAt => TimeCell(true, e.modifiedAt)
    case CDeletedAt => TimeCell(true, e.deletedAt)
    case CSelected(name) => if name in e.selected then e.selected[name] else RawCell("")
  }

  function ComponentLens(): Lens<ComponentColumn, Component, Cell> {
    Lens(ComponentAt, (c: ComponentColumn, was: Cell, v: Cell) => PutCell(c == CId, was, v))
  }

  lemma AssignComponentPuts(e: Component, c: ComponentColumn, v: Cell, d: ComponentColumn)
    requires HolderOf(v) == ComponentHolder(c)
    ensures AssignComponent(e, c, v).Some?
    ensures ComponentAt(AssignComponent(e, c, v).value, d)
         == if d == c then PutCell(c == CId, ComponentAt(e, c), v) else ComponentAt(e, d)
  {
  }

  lemma ComponentLensIsLawful()
    ensures LensOf(ComponentCodec(), ComponentLens())
  {
    var k, l := ComponentCodec(), ComponentLens();
    forall e, c, cell | HolderOf(cell) == k.holder(c)
      ensures k.assign(e, c, cell).Some?
      ensures forall d :: l.at(k.assign(e, c, cell).value, d) == if d == c then l.put(c, l.at(e, c), cell) else l.at(e, d)
    {
      forall d
        ensures k.assign(e, c, cell).Some?
        ensures l.at(k.assign(e, c, cell).value, d) == if d == c then l.put(c, l.at(e, c), cell) else l.at(e, d)
      {
        AssignComponentPuts(e, c, cell, d);
      }
    }
  }

  // ---- Incident ----

  datatype IncidentColumn =
    | Id | Text | Description | StartDate | EndDate | Impact | System | Type | Status
    | CreatedAt | ModifiedAt | DeletedAt | CreatedBy | ContactEmail | Version | Selected(name: string)

  /** Nillable fields are optional; other nullable fields read back as zero values. */
  datatype Incident = Incident(
    id: int, text: string, description: Option<string>, startDate: int, endDate: int, impact: int, system: bool,
    typ: string, status: string, createdAt: int, modifiedAt: int, deletedAt: int,
    createdBy: Option<string>, contactEmail: Option<string>, version: int, selected: map<string, Cell>)

  const NEW_INCIDENT := Incident(
    0, "", None, ZERO_TIME, ZERO_TIME, 0, false, "", "", ZERO_TIME, ZERO_TIME, ZERO_TIME, None, None, 0, map[])

  const INCIDENT_COLUMNS: seq<IncidentColumn> := [
    Id, Text, Description, StartDate, EndDate, Impact, System, Type, Status,
    CreatedAt, ModifiedAt, DeletedAt, CreatedBy, ContactEmail, Version]

  function IncidentHolder(c: IncidentColumn): Holder {
    match c
    case System => NullBool
    case Id => NullInt64
    case Impact => NullInt64
    case Version => NullInt64
    case Text => NullString
    case Description => NullString
    case Type => NullString
    case Status => NullString
    case CreatedBy => NullString
    case ContactEmail => NullString
    case StartDate => NullTime
    case EndDate => NullTime
    case CreatedAt => NullTime
    case ModifiedAt => NullTime
    case DeletedAt => NullTime
    case Selected(_) => UnknownType
  }

  function AssignIncident(e: Incident, c: IncidentColumn, v: Cell): Option<Incident> {
    match (c, v)
    case (Id, IntCell(_, i)) => Some(e.(id := i))
    case (Text, StringCell(valid, s)) => Some(if valid then e.(text := s) else e)
    case (Description, StringCell(valid, s)) => Some(if valid then e.(description := Some(s)) else e)
    case (StartDate, TimeCell(valid, t)) => Some(if valid then e.(startDate := t) else e)
    case (EndDate, TimeCell(valid, t)) => Some(if valid then e.(endDate := t) else e)
    case (Impact, IntCell(valid, i)) => Some(if valid then e.(impact := i) else e)
    case (System, BoolCell(valid, b)) => Some(if valid then e.(system := b) else e)
    case (Type, StringCell(valid, s)) => Some(if valid then e.(typ := s) else e)
    case (Status, StringCell(valid, s)) => Some(if valid then e.(status := s) else e)
    case (CreatedAt, TimeCell(valid, t)) => Some(if valid then e.(createdAt := t) else e)
    case (ModifiedAt, TimeCell(valid, t)) => Some(if valid then e.(modifiedAt := t) else e)
    case (DeletedAt, TimeCell(valid, t)) => Some(if valid then e.(deletedAt := t) else e)
    case (CreatedBy, StringCell(valid, s)) => Some(if valid then e.(createdBy := Some(s)) else e)
    case (ContactEmail, StringCell(valid, s)) => Some(if valid then e.(contactEmail := Some(s)) else e)
    case (Version, IntCell(valid, i)) => Some(if valid then e.(version := i) else e)
    case (Selected(name), _) => Some(e.(selected := e.selected[name := v]))
    case _ => None
  }

  function IncidentCodec(): Codec<IncidentColumn, Incident> {
    Codec(Id, INCIDENT_COLUMNS, IncidentHolder, NEW_INCIDENT, AssignIncident, (e: Incident) => e.id)
  }

  lemma IncidentCodecIsStrict()
    ensures Strict(IncidentCodec())
  {
  }

  lemma AssignIncidentAccepts(e: Incident, c: IncidentColumn, v: Cell)
    requires HolderOf(v) == IncidentHolder(c)
    ensures AssignIncident(e, c, v).Some?
    ensures AssignIncident(e, c, v).value.id == if c == Id then v.i else e.id
  {
  }

  lemma IncidentCodecIsLawful()
    ensures Lawful(IncidentCodec())
  {
    var k := IncidentCodec();
    assert Id !in k.columns[1..] by {
      assert forall i :: 1 <= i < 15 ==> INCIDENT_COLUMNS[i] != Id;
    }
    forall e, c, cell | HolderOf(cell) == k.holder(c)
      ensures k.assign(e, c, cell).Some?
      ensures k.id(k.assign(e, c, cell).value) == if c == k.idColumn then cell.i else k.id(e)
    {
      AssignIncidentAccepts(e, c, cell);
    }
  }

  // ---- Create and read back ----

  /** The set fields of an incident mutation. */
  datatype IncidentFields = IncidentFields(
    text: Option<string>, description: Option<string>, startDate: Option<int>, endDate: Option<int>,
    impact: Option<int>, system: Option<bool>, typ: Option<string>, status: Option<string>,
    createdAt: Option<int>, modifiedAt: Option<int>, deletedAt: Option<int>,
    createdBy: Option<string>, contactEmail: Option<string>, version: Option<int>)

  /** createSpec's field for a column, if the mutation sets it; the id is not one of the fields. */
  function SetCell(f: IncidentFields, c: IncidentColumn): Option<Cell> {
    match c
    case Id => None
    case Text => if f.text.Some? then Some(StringCell(true, f.text.value)) else None
    case Description => if f.description.Some? then Some(StringCell(true, f.description.value)) else None
    case StartDate => if f.startDate.Some? then Some(TimeCell(true, f.startDate.value)) else None
    case EndDate => if f.endDate.Some? then Some(TimeCell(true, f.endDate.value)) else None
    case Impact => if f.impact.Some? then Some(IntCell(true, f.impact.value)) else None
    case System => if f.system.Some? then Some(BoolCell(true, f.system.value)) else None
    case Type => if f.typ.Some? then Some(StringCell(true, f.typ.value)) else None
    case Status => if f.status.Some? then Some(StringCell(true, f.status.value)) else None
    case CreatedAt => if f.createdAt.Some? then Some(TimeCell(true, f.createdAt.value)) else None
    case ModifiedAt => if f.modifiedAt.Some? then Some(TimeCell(true, f.modifiedAt.value)) else None
    case DeletedAt => if f.deletedAt.Some? then Some(TimeCell(true, f.deletedAt.value)) else None
    case CreatedBy => if f.createdBy.Some? then Some(StringCell(true, f.createdBy.value)) else None
    case ContactEmail => if f.contactEmail.Some? then Some(StringCell(true, f.contactEmail.value)) else None
    case Version => if f.version.Some? then Some(IntCell(true, f.version.value)) else None
    case Selected(_) => None
  }

  /** createSpec's node: the set fields, and zero values elsewhere. */
  function NodeOf(f: IncidentFields, id: int): Incident {
    Incident(id, Or(f.text, ""), f.description, Or(f.startDate, ZERO_TIME), Or(f.endDate, ZERO_TIME), Or(f.impact, 0),
             Or(f.system, false), Or(f.typ, ""), Or(f.status, ""), Or(f.createdAt, ZERO_TIME),
             Or(f.modifiedAt, ZERO_TIME), Or(f.deletedAt, ZERO_TIME), f.createdBy, f.contactEmail, Or(f.version, 0), map[])
  }

  /** The scanned cell of a column of the stored row: NULL where the spec sets nothing. */
  function StoredCell(f: IncidentFields, id: int, c: IncidentColumn): Cell {
    if c == Id then IntCell(true, id) else Or(SetCell(f, c), Null(IncidentHolder(c)))
  }

  function StoredRow(f: IncidentFields, id: int, columns: seq<IncidentColumn>): (row: seq<Cell>)
    ensures |row| == |columns|
  {
    seq(|columns|, i requires 0 <= i < |columns| => StoredCell(f, id, columns[i]))
  }

  /** The field of a column, as a cell. */
  function IncidentAt(e: Incident, c: IncidentColumn): Cell {
    match c
    case Id => IntCell(true, e.id)
    case Text => StringCell(true, e.text)
    case Description => Nillable(e.description)
    case StartDate => TimeCell(true, e.startDate)
    case EndDate => TimeCell(true, e.endDate)
    case Impact => IntCell(true, e.impact)
    case System => BoolCell(true, e.system)
    case Type => StringCell(true, e.typ)
    case Status => StringCell(true, e.status)
    case CreatedAt => TimeCell(true, e.createdAt)
    case ModifiedAt => TimeCell(true, e.modifiedAt)
    case DeletedAt => TimeCell(true, e.deletedAt)
    case CreatedBy => Nillable(e.createdBy)
    case ContactEmail => Nillable(e.contactEmail)
    case Version => IntCell(true, e.version)
    case Selected(name) => if name in e.selected then e.selected[name] else RawCell("")
  }

  function IncidentPut(c: IncidentColumn, was: Cell, v: Cell): Cell {
    PutCell(c == Id, was, v)
  }

  function IncidentLens(): Lens<IncidentColumn, Incident, Cell> {
    Lens(IncidentAt, IncidentPut)
  }

  lemma AssignIncidentPuts(e: Incident, c: IncidentColumn, v: Cell, d: IncidentColumn)
    requires HolderOf(v) == IncidentHolder(c)
    ensures AssignIncident(e, c, v).Some?
    ensures IncidentAt(AssignIncident(e, c, v).value, d) == if d == c then IncidentPut(c, IncidentAt(e, c), v) else IncidentAt(e, d)
  {
  }

  lemma IncidentLensIsLawful()
    ensures LensOf(IncidentCodec(), IncidentLens())
  {
    var k, l := IncidentCodec(), IncidentLens();
    forall e, c, cell | HolderOf(cell) == k.holder(c)
      ensures k.assign(e, c, cell).Some?
      ensures forall d :: l.at(k.assign(e, c, cell).value, d) == if d == c then l.put(c, l.at(e, c), cell) else l.at(e, d)
    {
      AssignIncidentAccepts(e, c, cell);
      forall d
        ensures l.at(k.assign(e, c, cell).value, d) == if d == c then l.put(c, l.at(e, c), cell) else l.at(e, d)
      {
        AssignIncidentPuts(e, c, cell, d);
      }
    }
  }

  lemma StoredCellHoldsField(f: IncidentFields, id: int, c: IncidentColumn)
    requires !c.Selected?
    ensures HolderOf(StoredCell(f, id, c)) == IncidentHolder(c)
    ensures IncidentPut(c, IncidentAt(NEW_INCIDENT, c), StoredCell(f, id, c)) == IncidentAt(NodeOf(f, id), c)
    ensures IncidentPut(c, IncidentAt(NodeOf(f, id), c), StoredCell(f, id, c)) == IncidentAt(NodeOf(f, id), c)
  {
  }

  lemma SameFieldsSameIncident(x: Incident, y: Incident)
    requires forall c: IncidentColumn :: !c.Selected? ==> IncidentLens().at(x, c) == IncidentLens().at(y, c)
    requires x.selected == y.selected
    ensures x == y
  {
    var l := IncidentLens();
    assert l.at(x, Id) == l.at(y, Id);
    assert l.at(x, Text) == l.at(y, Text);
    assert l.at(x, Description) == l.at(y, Description);
    assert l.at(x, StartDate) == l.at(y, StartDate);
    assert l.at(x, EndDate) == l.at(y, EndDate);
    assert l.at(x, Impact) == l.at(y, Impact);
    assert l.at(x, System) == l.at(y, System);
    assert l.at(x, Type) == l.at(y, Type);
    assert l.at(x, Status) == l.at(y, Status);
    assert l.at(x, CreatedAt) == l.at(y, CreatedAt);
    assert l.at(x, ModifiedAt) == l.at(y, ModifiedAt);
    assert l.at(x, DeletedAt) == l.at(y, DeletedAt);
    assert l.at(x, CreatedBy) == l.at(y, CreatedBy);
    assert l.at(x, ContactEmail) == l.at(y, ContactEmail);
    assert l.at(x, Version) == l.at(y, Version);
  }

  lemma {:induction false} SelectedStays(columns: seq<IncidentColumn>, row: seq<Cell>, n: nat)
    requires n <= |columns| <= |row| && forall c :: c in columns ==> !c.Selected?
    ensures var r := Assigned(IncidentCodec(), NEW_INCIDENT, columns, row, n); r.Some? ==> r.value.selected == map[]
  {
    if n > 0 {
      SelectedStays(columns, row, n - 1);
      assert columns[n - 1] in columns;
    }
  }

  lemma StoredRowHoldsNode(f: IncidentFields, id: int, columns: seq<IncidentColumn>)
    requires forall c :: c in columns ==> !c.Selected?
    ensures RowOf(IncidentCodec(), IncidentLens(), NodeOf(f, id), columns, StoredRow(f, id, columns))
  {
    forall i | 0 <= i < |columns|
      ensures HolderOf(StoredRow(f, id, columns)[i]) == Holders(IncidentCodec(), columns)[i]
    {
      assert columns[i] in columns;
      StoredCellHoldsField(f, id, columns[i]);
    }
    forall i | 0 <= i < |columns|
      ensures var c := columns[i];
        && IncidentPut(c, IncidentAt(NEW_INCIDENT, c), StoredRow(f, id, columns)[i]) == IncidentAt(NodeOf(f, id), c)
        && IncidentPut(c, IncidentAt(NodeOf(f, id), c), StoredRow(f, id, columns)[i]) == IncidentAt(NodeOf(f, id), c)
    {
      assert columns[i] in columns;
      StoredCellHoldsField(f, id, columns[i]);
    }
  }

  /** Create, then read: for every mutation, the node of createSpec with the row's id is the
      entity read back, whatever the order of the columns, repeated or not. */
  lemma CreateReadRoundTrip(f: IncidentFields, id: int, columns: seq<IncidentColumn>)
    requires forall c: IncidentColumn :: c in columns <==> !c.Selected?
    ensures Assigned(IncidentCodec(), NEW_INCIDENT, columns, StoredRow(f, id, columns), |columns|) == Some(NodeOf(f, id))
  {
    IncidentLensIsLawful();
    StoredRowHoldsNode(f, id, columns);
    ReadsRow(IncidentCodec(), IncidentLens(), NodeOf(f, id), columns, StoredRow(f, id, columns));
    SelectedStays(columns, StoredRow(f, id, columns), |columns|);
    SameFieldsSameIncident(
      Assigned(IncidentCodec(), NEW_INCIDENT, columns, StoredRow(f, id, columns), |columns|).value, NodeOf(f, id));
  }

  lemma IncidentColumnsAreAll(c: IncidentColumn)
    ensures c in INCIDENT_COLUMNS <==> !c.Selected?
  {
    if !c.Selected? {
      var i := match c
        case Id => 0 case Text => 1 case Description => 2 case StartDate => 3 case EndDate => 4 case Impact => 5
        case System => 6 case Type => 7 case Status => 8 case CreatedAt => 9 case ModifiedAt => 10 case DeletedAt => 11
        case CreatedBy => 12 case ContactEmail => 13 case Version => 14 case Selected(_) => 0;
      assert INCIDENT_COLUMNS[i] == c;
    }
  }

  /** A query without selected fields reads the whole incident. */
  lemma PlainQueryReadsIncident(f: IncidentFields, id: int)
    ensures var columns := NodeColumns(IncidentCodec(), []);
      Assigned(IncidentCodec(), NEW_INCIDENT, columns, StoredRow(f, id, columns), |columns|) == Some(NodeOf(f, id))
  {
    SelectedFieldsAreRead(IncidentCodec(), []);
    forall c: IncidentColumn
      ensures c in INCIDENT_COLUMNS <==> !c.Selected?
    {
      IncidentColumnsAreAll(c);
    }
    CreateReadRoundTrip(f, id, INCIDENT_COLUMNS);
  }
}
