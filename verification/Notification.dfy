/**
 The notification entity: what createSpec writes of an outbox row and puts into the node it
 returns, and what is read back.
 */
module Notification {
  import opened Wrappers
  import opened Scan
  import opened Outbox

  /** Nillable fields are optional; other nullable fields read back as zero values. `selected`
      holds values of columns that are not fields, as selectValues does. */
  datatype Notification = Notification(
    id: int, kind: string, incidentId: int, recipient: string, payload: Option<string>, changeId: string,
    dedupKey: string, status: string, attempts: int, nextAttemptAt: int, lockedBy: Option<string>, lockedAt: int,
    lastError: Option<string>, createdAt: int, updatedAt: int, selected: map<string, Cell>)

  datatype NotificationColumn = Field(c: Column) | Extra(name: string)

  const NEW_NOTIFICATION := Notification(
    0, "", 0, "", None, "", "", "", 0, ZERO_TIME, None, ZERO_TIME, None, ZERO_TIME, ZERO_TIME, map[])

  const NOTIFICATION_COLUMNS: seq<NotificationColumn> := [
    Field(Id), Field(Kind), Field(IncidentId), Field(Recipient), Field(Payload), Field(ChangeId), Field(DedupKey),
    Field(Status), Field(Attempts), Field(NextAttemptAt), Field(LockedBy), Field(LockedAt), Field(LastError),
    Field(CreatedAt), Field(UpdatedAt)]

  function FieldHolder(c: Column): Holder {
    match c
    case Payload => Bytes
    case Id => NullInt64
    case IncidentId => NullInt64
    case Attempts => NullInt64
    case Kind => NullString
    case Recipient => NullString
    case ChangeId => NullString
    case DedupKey => NullString
    case Status => NullString
    case LockedBy => NullString
    case LastError => NullString
    case NextAttemptAt => NullTime
    case LockedAt => NullTime
    case CreatedAt => NullTime
    case UpdatedAt => NullTime
  }

  function NotificationHolder(c: NotificationColumn): Holder {
    if c.Field? then FieldHolder(c.c) else UnknownType
  }

  function AssignField(e: Notification, c: Column, v: Cell): Option<Notification> {
    match (c, v)
    case (Id, IntCell(_, i)) => Some(e.(id := i))
    case (Kind, StringCell(valid, s)) => Some(if valid then e.(kind := s) else e)
    case (IncidentId, IntCell(valid, i)) => Some(if valid then e.(incidentId := i) else e)
    case (Recipient, StringCell(valid, s)) => Some(if valid then e.(recipient := s) else e)
    case (Payload, BytesCell(json)) => Some(if json.Some? then e.(payload := json) else e)
    case (ChangeId, StringCell(valid, s)) => Some(if valid then e.(changeId := s) else e)
    case (DedupKey, StringCell(valid, s)) => Some(if valid then e.(dedupKey := s) else e)
    case (Status, StringCell(valid, s)) => Some(if valid then e.(status := s) else e)
    case (Attempts, IntCell(valid, i)) => Some(if valid then e.(attempts := i) else e)
    case (NextAttemptAt, TimeCell(valid, t)) => Some(if valid then e.(nextAttemptAt := t) else e)
    case (LockedBy, StringCell(valid, s)) => Some(if valid then e.(lockedBy := Some(s)) else e)
    case (LockedAt, TimeCell(valid, t)) => Some(if valid then e.(lockedAt := t) else e)
    case (LastError, StringCell(valid, s)) => Some(if valid then e.(lastError := Some(s)) else e)
    case (CreatedAt, TimeCell(valid, t)) => Some(if valid then e.(createdAt := t) else e)
    case (UpdatedAt, TimeCell(valid, t)) => Some(if valid then e.(updatedAt := t) else e)
    case _ => None
  }

  function AssignNotification(e: Notification, c: NotificationColumn, v: Cell): Option<Notification> {
    match c
    case Field(f) => AssignField(e, f, v)
    case Extra(name) => Some(e.(selected := e.selected[name := v]))
  }

  function NotificationCodec(): Codec<NotificationColumn, Notification> {
    Codec(Field(Id), NOTIFICATION_COLUMNS, NotificationHolder, NEW_NOTIFICATION, AssignNotification,
          (e: Notification) => e.id)
  }

  lemma NotificationCodecIsStrict()
    ensures Strict(NotificationCodec())
  {
  }

  // ---- Fields as cells ----

  function FieldAt(e: Notification, c: Column): Cell {
    match c
    case Id => IntCell(true, e.id)
    case Kind => StringCell(true, e.kind)
    case IncidentId => IntCell(true, e.incidentId)
    case Recipient => StringCell(true, e.recipient)
    case Payload => BytesCell(e.payload)
    case ChangeId => StringCell(true, e.changeId)
    case DedupKey => StringCell(true, e.dedupKey)
    case Status => StringCell(true, e.status)
    case Attempts => IntCell(true, e.attempts)
    case NextAttemptAt => TimeCell(true, e.nextAttemptAt)
    case LockedBy => Nillable(e.lockedBy)
    case LockedAt => TimeCell(true, e.lockedAt)
    case LastError => Nillable(e.lastError)
    case CreatedAt => TimeCell(true, e.createdAt)
    case UpdatedAt => TimeCell(true, e.updatedAt)
  }

  function NotificationAt(e: Notification, c: NotificationColumn): Cell {
    match c
    case Field(f) => FieldAt(e, f)
    case Extra(name) => if name in e.selected then e.selected[name] else RawCell("")
  }

  function NotificationLens(): Lens<NotificationColumn, Notification, Cell> {
    Lens(NotificationAt, (c: NotificationColumn, was: Cell, v: Cell) => PutCell(c == Field(Id), was, v))
  }

  lemma AssignFieldPuts(e: Notification, c: Column, v: Cell, d: Column)
    requires HolderOf(v) == FieldHolder(c)
    ensures AssignField(e, c, v).Some? && AssignField(e, c, v).value.selected == e.selected
    ensures FieldAt(AssignField(e, c, v).value, d) == if d == c then PutCell(c == Id, FieldAt(e, c), v) else FieldAt(e, d)
  {
  }

  lemma AssignNotificationPuts(e: Notification, c: NotificationColumn, v: Cell, d: NotificationColumn)
    requires HolderOf(v) == NotificationHolder(c)
    ensures AssignNotification(e, c, v).Some?
    ensures NotificationAt(AssignNotification(e, c, v).value, d)
         == if d == c then PutCell(c == Field(Id), NotificationAt(e, c), v) else NotificationAt(e, d)
  {
    if c.Field? {
      AssignFieldPuts(e, c.c, v, if d.Field? then d.c else Id);
    }
  }

  lemma NotificationLensIsLawful()
    ensures LensOf(NotificationCodec(), NotificationLens())
  {
    var k, l := NotificationCodec(), NotificationLens();
    forall e, c, cell | HolderOf(cell) == k.holder(c)
      ensures k.assign(e, c, cell).Some?
      ensures forall d :: l.at(k.assign(e, c, cell).value, d) == if d == c then l.put(c, l.at(e, c), cell) else l.at(e, d)
    {
      AssignNotificationPuts(e, c, cell, c);
      forall d
        ensures l.at(k.assign(e, c, cell).value, d) == if d == c then l.put(c, l.at(e, c), cell) else l.at(e, d)
      {
        AssignNotificationPuts(e, c, cell, d);
      }
    }
  }

  // ---- Create and read back ----

  /** createSpec's node: the set fields, and zero values elsewhere. */
  function NodeOf(f: Fields, id: int): Notification {
    Notification(
      id, Or(f.kind, ""), Or(f.incident, 0), Or(f.recipient, ""), f.payload, Or(f.changeId, ""), Or(f.dedupKey, ""),
      Or(f.status, ""), Or(f.attempts, 0), Or(f.nextAttemptAt, ZERO_TIME), f.lockedBy, Or(f.lockedAt, ZERO_TIME),
      f.lastError, Or(f.createdAt, ZERO_TIME), Or(f.updatedAt, ZERO_TIME), map[])
  }

  function CellOf(c: Column, v: Val): Cell {
    match v
    case Str(s) => if c == Payload then BytesCell(Some(s)) else StringCell(true, s)
    case Int(i) => IntCell(true, i)
    case Time(t) => TimeCell(true, t)
  }

  /** The cell of the row inserted at time now: the value createSpec gives the column, the
      table's default, or NULL. */
  function StoredCell(f: Fields, id: int, now: int, c: Column): Cell {
    if c == Id then IntCell(true, id)
    else
      var v := if ColumnValue(f, c).Some? then ColumnValue(f, c) else TableDefault(c, now);
      if v.Some? then CellOf(c, v.value) else Null(FieldHolder(c))
  }

  function StoredRow(f: Fields, id: int, now: int, columns: seq<NotificationColumn>): (row: seq<Cell>)
    requires forall c :: c in columns ==> c.Field?
    ensures |row| == |columns| && forall i :: 0 <= i < |row| ==> row[i] == StoredCell(f, id, now, columns[i].c)
  {
    seq(|columns|, i requires 0 <= i < |columns| => assert columns[i] in columns; StoredCell(f, id, now, columns[i].c))
  }

  /** The node, with the database's time where the caller gave none. */
  function ReadBack(f: Fields, id: int, now: int): Notification {
    NodeOf(f, id).(createdAt := Or(f.createdAt, now), updatedAt := Or(f.updatedAt, now))
  }

  lemma StoredCellHoldsField(f: Fields, id: int, now: int, c: Column)
    requires Check(f).None?
    ensures HolderOf(StoredCell(f, id, now, c)) == FieldHolder(c)
    ensures PutCell(c == Id, FieldAt(NEW_NOTIFICATION, c), StoredCell(f, id, now, c)) == FieldAt(ReadBack(f, id, now), c)
    ensures PutCell(c == Id, FieldAt(ReadBack(f, id, now), c), StoredCell(f, id, now, c)) == FieldAt(ReadBack(f, id, now), c)
  {
  }

  lemma StoredRowHoldsNode(f: Fields, id: int, now: int, columns: seq<NotificationColumn>)
    requires Check(f).None? && forall c :: c in columns ==> c.Field?
    ensures RowOf(NotificationCodec(), NotificationLens(), ReadBack(f, id, now), columns, StoredRow(f, id, now, columns))
  {
    var row, node := StoredRow(f, id, now, columns), ReadBack(f, id, now);
    forall i | 0 <= i < |columns|
      ensures HolderOf(row[i]) == Holders(NotificationCodec(), columns)[i]
      ensures var c := columns[i];
        && PutCell(c == Field(Id), NotificationAt(NEW_NOTIFICATION, c), row[i]) == NotificationAt(node, c)
        && PutCell(c == Field(Id), NotificationAt(node, c), row[i]) == NotificationAt(node, c)
    {
      assert columns[i] in columns;
      StoredCellHoldsField(f, id, now, columns[i].c);
    }
  }

  lemma {:induction false} SelectedStays(columns: seq<NotificationColumn>, row: seq<Cell>, n: nat)
    requires n <= |columns| <= |row| && forall c :: c in columns ==> c.Field?
    ensures var r := Assigned(NotificationCodec(), NEW_NOTIFICATION, columns, row, n);
      r.Some? ==> r.value.selected == map[]
  {
    if n > 0 {
      SelectedStays(columns, row, n - 1);
      assert columns[n - 1] in columns;
    }
  }

  ghost predicate SameFields(x: Notification, y: Notification) {
    && (forall c: NotificationColumn :: c.Field? ==> NotificationLens().at(x, c) == NotificationLens().at(y, c))
    && x.selected == y.selected
  }

  lemma SameMessage(x: Notification, y: Notification)
    requires SameFields(x, y)
    ensures x.id == y.id && x.kind == y.kind && x.incidentId == y.incidentId && x.recipient == y.recipient
    ensures x.payload == y.payload && x.changeId == y.changeId && x.dedupKey == y.dedupKey
  {
    var l := NotificationLens();
    assert l.at(x, Field(Id)) == l.at(y, Field(Id)) && l.at(x, Field(Kind)) == l.at(y, Field(Kind));
    assert l.at(x, Field(IncidentId)) == l.at(y, Field(IncidentId)) && l.at(x, Field(Recipient)) == l.at(y, Field(Recipient));
    assert l.at(x, Field(Payload)) == l.at(y, Field(Payload)) && l.at(x, Field(ChangeId)) == l.at(y, Field(ChangeId));
    assert l.at(x, Field(DedupKey)) == l.at(y, Field(DedupKey));
  }

  lemma SameDelivery(x: Notification, y: Notification)
    requires SameFields(x, y)
    ensures x.status == y.status && x.attempts == y.attempts && x.nextAttemptAt == y.nextAttemptAt
    ensures x.lockedBy == y.lockedBy
  {
    var l := NotificationLens();
    assert l.at(x, Field(Status)) == l.at(y, Field(Status)) && l.at(x, Field(Attempts)) == l.at(y, Field(Attempts));
    assert l.at(x, Field(NextAttemptAt)) == l.at(y, Field(NextAttemptAt));
    assert l.at(x, Field(LockedBy)) == l.at(y, Field(LockedBy));
  }

  lemma SameTimes(x: Notification, y: Notification)
    requires SameFields(x, y)
    ensures x.lockedAt == y.lockedAt && x.lastError == y.lastError
    ensures x.createdAt == y.createdAt && x.updatedAt == y.updatedAt
  {
    var l := NotificationLens();
    assert l.at(x, Field(LockedAt)) == l.at(y, Field(LockedAt)) && l.at(x, Field(LastError)) == l.at(y, Field(LastError));
    assert l.at(x, Field(CreatedAt)) == l.at(y, Field(CreatedAt)) && l.at(x, Field(UpdatedAt)) == l.at(y, Field(UpdatedAt));
  }

  lemma SameFieldsSameNotification(x: Notification, y: Notification)
    requires SameFields(x, y)
    ensures x == y
  {
    SameMessage(x, y);
    SameDelivery(x, y);
    SameTimes(x, y);
  }

  /** What is read back has the fields of the stored row. */
  lemma ReadsStoredFields(f: Fields, id: int, now: int, columns: seq<NotificationColumn>)
    requires Check(f).None? && forall c: NotificationColumn :: c in columns <==> c.Field?
    ensures var r := Assigned(NotificationCodec(), NEW_NOTIFICATION, columns, StoredRow(f, id, now, columns), |columns|);
      r.Some? && SameFields(r.value, ReadBack(f, id, now))
  {
    var k, l, row, node := NotificationCodec(), NotificationLens(), StoredRow(f, id, now, columns), ReadBack(f, id, now);
    NotificationLensIsLawful();
    StoredRowHoldsNode(f, id, now, columns);
    ReadsRow(k, l, node, columns, row);
    SelectedStays(columns, row, |columns|);
  }

  /** Create, then read: for all fields that pass the check, the row read back in any order of
      the columns is the node of createSpec with the row's id, but with the time of the insert
      where the caller set none. */
  lemma CreateReadRoundTrip(f: Fields, id: int, now: int, columns: seq<NotificationColumn>)
    requires Check(f).None? && forall c: NotificationColumn :: c in columns <==> c.Field?
    ensures Assigned(NotificationCodec(), NEW_NOTIFICATION, columns, StoredRow(f, id, now, columns), |columns|)
         == Some(ReadBack(f, id, now))
  {
    ReadsStoredFields(f, id, now, columns);
    var r := Assigned(NotificationCodec(), NEW_NOTIFICATION, columns, StoredRow(f, id, now, columns), |columns|);
    SameFieldsSameNotification(r.value, ReadBack(f, id, now));
  }

  /** So the returned node is the stored row exactly when the caller set both times, or the
      clock of the database shows the zero time. */
  lemma NodeIsTheRowExactly(f: Fields, id: int, now: int, columns: seq<NotificationColumn>)
    requires Check(f).None? && forall c: NotificationColumn :: c in columns <==> c.Field?
    ensures var row := StoredRow(f, id, now, columns);
      (Assigned(NotificationCodec(), NEW_NOTIFICATION, columns, row, |columns|) == Some(NodeOf(f, id)))
        <==> (f.createdAt.Some? && f.updatedAt.Some?) || now == ZERO_TIME
  {
    CreateReadRoundTrip(f, id, now, columns);
  }

  lemma NotificationColumnsAreAll(c: NotificationColumn)
    ensures c in NOTIFICATION_COLUMNS <==> c.Field?
  {
    if c.Field? {
      var i := match c.c
        case Id => 0 case Kind => 1 case IncidentId => 2 case Recipient => 3 case Payload => 4 case ChangeId => 5
        case DedupKey => 6 case Status => 7 case Attempts => 8 case NextAttemptAt => 9 case LockedBy => 10
        case LockedAt => 11 case LastError => 12 case CreatedAt => 13 case UpdatedAt => 14;
      assert NOTIFICATION_COLUMNS[i] == c;
    }
  }

  /** A query without selected fields reads the whole notification. */
  lemma PlainQueryReadsNotification(f: Fields, id: int, now: int)
    requires Check(f).None?
    ensures var columns := NodeColumns(NotificationCodec(), []);
      && (forall c :: c in columns ==> c.Field?)
      && Assigned(NotificationCodec(), NEW_NOTIFICATION, columns, StoredRow(f, id, now, columns), |columns|)
         == Some(ReadBack(f, id, now))
  {
    SelectedFieldsAreRead(NotificationCodec(), []);
    forall c: NotificationColumn
      ensures c in NOTIFICATION_COLUMNS <==> c.Field?
    {
      NotificationColumnsAreAll(c);
    }
    CreateReadRoundTrip(f, id, now, NOTIFICATION_COLUMNS);
  }
}
