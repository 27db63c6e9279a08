/**
 Creating notification outbox rows: defaults, the required-field check, and the columns
 the insert gives a value to, against the NOT NULL columns of the table.
 */
module Outbox {
  import opened Wrappers
  import opened Middleware
  import opened Create
  import opened BulkCreate
  import opened Save
  import opened SaveLaws

  /** The settable part of a NotificationOutboxMutation; payloads and times are opaque. */
  datatype Fields = Fields(
    kind: Option<string>,
    incident: Option<int>,
    recipient: Option<string>,
    payload: Option<string>,
    changeId: Option<string>,
    dedupKey: Option<string>,
    status: Option<string>,
    attempts: Option<int>,
    nextAttemptAt: Option<int>,
    lockedBy: Option<string>,
    lockedAt: Option<int>,
    lastError: Option<string>,
    createdAt: Option<int>,
    updatedAt: Option<int>)

  datatype Column =
    | Id | Kind | IncidentId | Recipient | Payload | ChangeId | DedupKey | Status | Attempts
    | NextAttemptAt | LockedBy | LockedAt | LastError | CreatedAt | UpdatedAt

  datatype Val = Str(s: string) | Int(i: int) | Time(t: int)

  // ---- The table ----

  predicate Nullable(c: Column) {
    c in {NextAttemptAt, LockedBy, LockedAt, LastError}
  }

  /** The default of a column, for an insert at time now. */
  function TableDefault(c: Column, now: int): Option<Val> {
    match c
    case Status => Some(Str("pending"))
    case Attempts => Some(Int(0))
    case CreatedAt => Some(Time(now))
    case UpdatedAt => Some(Time(now))
    case _ => None
  }

  /** An increment or a default supplies the value. */
  predicate DatabaseFills(c: Column) {
    c == Id || TableDefault(c, 0).Some?
  }

  /** NOT NULL, and neither a default nor an increment supplies the value. */
  predicate MustBeGiven(c: Column) {
    !Nullable(c) && !DatabaseFills(c)
  }

  // ---- The builder ----

  const DEFAULT_STATUS: string := "pending"
  const DEFAULT_ATTEMPTS: int := 0

  function Defaults(f: Fields): Fields {
    var g := if f.status.None? then f.(status := Some(DEFAULT_STATUS)) else f;
    if g.attempts.None? then g.(attempts := Some(DEFAULT_ATTEMPTS)) else g
  }

  /** The NotEmpty validator of a string field that has to be set. */
  predicate Bad(v: Option<string>) {
    v.None? || v.value == ""
  }

  /** The field named in the validation error, checked in the builder's order. */
  function Check(f: Fields): Option<string> {
    if Bad(f.kind) then Some("kind")
    else if f.incident.None? then Some("incident_id")
    else if Bad(f.recipient) then Some("recipient")
    else if f.payload.None? then Some("payload")
    else if Bad(f.changeId) then Some("change_id")
    else if Bad(f.dedupKey) then Some("dedup_key")
    else if f.status.None? then Some("status")
    else if f.attempts.None? then Some("attempts")
    else None
  }

  function StrVal(v: Option<string>): Option<Val> {
    if v.None? then None else Some(Str(v.value))
  }

  function IntVal(v: Option<int>): Option<Val> {
    if v.None? then None else Some(Int(v.value))
  }

  function TimeVal(v: Option<int>): Option<Val> {
    if v.None? then None else Some(Time(v.value))
  }

  /** The value createSpec gives a column; the foreign key comes from the incident edge. */
  function ColumnValue(f: Fields, c: Column): Option<Val> {
    match c
    case Id => None
    case Kind => StrVal(f.kind)
    case IncidentId => IntVal(f.incident)
    case Recipient => StrVal(f.recipient)
    case Payload => StrVal(f.payload)
    case ChangeId => StrVal(f.changeId)
    case DedupKey => StrVal(f.dedupKey)
    case Status => StrVal(f.status)
    case Attempts => IntVal(f.attempts)
    case NextAttemptAt => TimeVal(f.nextAttemptAt)
    case LockedBy => StrVal(f.lockedBy)
    case LockedAt => TimeVal(f.lockedAt)
    case LastError => StrVal(f.lastError)
    case CreatedAt => TimeVal(f.createdAt)
    case UpdatedAt => TimeVal(f.updatedAt)
  }

  /** Every column the database cannot fill in has a value. */
  ghost predicate Complete(f: Fields) {
    forall c :: MustBeGiven(c) ==> ColumnValue(f, c).Some?
  }

  ghost predicate NoEmptyText(f: Fields) {
    forall c :: c in {Kind, Recipient, ChangeId, DedupKey} ==> ColumnValue(f, c) != Some(Str(""))
  }

  /** The check accepts exactly the fields that fill every column which must be given, have
      no empty text where text is required, and carry a status and an attempt count. */
  lemma CheckAcceptsExactly(f: Fields)
    ensures Check(f).None? <==>
              Complete(f) && NoEmptyText(f) && ColumnValue(f, Status).Some? && ColumnValue(f, Attempts).Some?
  {
    if Complete(f) && NoEmptyText(f) {
      assert forall c :: c in {Kind, IncidentId, Recipient, Payload, ChangeId, DedupKey} ==> MustBeGiven(c);
      assert ColumnValue(f, Kind).Some? && ColumnValue(f, IncidentId).Some? && ColumnValue(f, Recipient).Some?;
      assert ColumnValue(f, Payload).Some? && ColumnValue(f, ChangeId).Some? && ColumnValue(f, DedupKey).Some?;
      assert ColumnValue(f, Kind) != Some(Str("")) && ColumnValue(f, Recipient) != Some(Str(""));
      assert ColumnValue(f, ChangeId) != Some(Str("")) && ColumnValue(f, DedupKey) != Some(Str(""));
    }
    if Check(f).None? {
      assert f.kind.value != "" && f.recipient.value != "" && f.changeId.value != "" && f.dedupKey.value != "";
    }
  }

  /** Defaults keep every value the caller gave, in any column, and are enough for status
      and attempts. */
  lemma DefaultsNeverOverwrite(f: Fields, c: Column)
    ensures ColumnValue(f, c).Some? ==> ColumnValue(Defaults(f), c) == ColumnValue(f, c)
    ensures ColumnValue(Defaults(f), c) != ColumnValue(f, c) ==> c == Status || c == Attempts
    ensures ColumnValue(Defaults(f), Status).Some? && ColumnValue(Defaults(f), Attempts).Some?
  {
  }

  /** Where the builder has defaults, they are those of the table. */
  lemma DefaultsAreTheTables(f: Fields, c: Column, now: int)
    requires c == Status || c == Attempts
    ensures ColumnValue(Defaults(f), c) == if ColumnValue(f, c).Some? then ColumnValue(f, c) else TableDefault(c, now)
  {
  }

  function ColumnName(c: Column): string {
    match c
    case Id => "id"
    case Kind => "kind"
    case IncidentId => "incident_id"
    case Recipient => "recipient"
    case Payload => "payload"
    case ChangeId => "change_id"
    case DedupKey => "dedup_key"
    case Status => "status"
    case Attempts => "attempts"
    case NextAttemptAt => "next_attempt_at"
    case LockedBy => "locked_by"
    case LockedAt => "locked_at"
    case LastError => "last_error"
    case CreatedAt => "created_at"
    case UpdatedAt => "updated_at"
  }

  const REQUIRED: seq<Column> := [Kind, IncidentId, Recipient, Payload, ChangeId, DedupKey, Status, Attempts]

  /** The column has a value, and text that is not empty where that is asked for. */
  predicate Filled(f: Fields, c: Column) {
    ColumnValue(f, c).Some? && (c in {Kind, Recipient, ChangeId, DedupKey} ==> ColumnValue(f, c) != Some(Str("")))
  }

  lemma FilledMeans(f: Fields)
    ensures Filled(f, Kind) <==> !Bad(f.kind)
    ensures Filled(f, IncidentId) <==> f.incident.Some?
    ensures Filled(f, Recipient) <==> !Bad(f.recipient)
    ensures Filled(f, Payload) <==> f.payload.Some?
    ensures Filled(f, ChangeId) <==> !Bad(f.changeId)
    ensures Filled(f, DedupKey) <==> !Bad(f.dedupKey)
    ensures Filled(f, Status) <==> f.status.Some?
    ensures Filled(f, Attempts) <==> f.attempts.Some?
  {
  }

  /** The first of the columns that is not filled. */
  function FirstUnfilled(f: Fields, cs: seq<Column>): Option<Column> {
    if cs == [] then None else if !Filled(f, cs[0]) then Some(cs[0]) else FirstUnfilled(f, cs[1..])
  }

  lemma UnfilledStep(f: Fields, c: Column, rest: seq<Column>)
    ensures FirstUnfilled(f, [c] + rest) == if !Filled(f, c) then Some(c) else FirstUnfilled(f, rest)
  {
    assert ([c] + rest)[1..] == rest;
  }

  lemma LateUnfilled(f: Fields)
    ensures FirstUnfilled(f, [ChangeId, DedupKey, Status, Attempts])
         == if !Filled(f, ChangeId) then Some(ChangeId) else if !Filled(f, DedupKey) then Some(DedupKey)
            else if !Filled(f, Status) then Some(Status) else if !Filled(f, Attempts) then Some(Attempts) else None
  {
    UnfilledStep(f, Attempts, []);
    UnfilledStep(f, Status, [Attempts]);
    UnfilledStep(f, DedupKey, [Status, Attempts]);
    UnfilledStep(f, ChangeId, [DedupKey, Status, Attempts]);
    assert [Attempts] + [] == [Attempts] && [Status] + [Attempts] == [Status, Attempts];
    assert [DedupKey] + [Status, Attempts] == [DedupKey, Status, Attempts];
    assert [ChangeId] + [DedupKey, Status, Attempts] == [ChangeId, DedupKey, Status, Attempts];
  }

  lemma EarlyUnfilled(f: Fields, late: seq<Column>)
    ensures FirstUnfilled(f, [Kind] + ([IncidentId] + ([Recipient] + ([Payload] + late))))
         == if !Filled(f, Kind) then Some(Kind) else if !Filled(f, IncidentId) then Some(IncidentId)
            else if !Filled(f, Recipient) then Some(Recipient) else if !Filled(f, Payload) then Some(Payload)
            else FirstUnfilled(f, late)
  {
    UnfilledStep(f, Payload, late);
    UnfilledStep(f, Recipient, [Payload] + late);
    UnfilledStep(f, IncidentId, [Recipient] + ([Payload] + late));
    UnfilledStep(f, Kind, [IncidentId] + ([Recipient] + ([Payload] + late)));
  }

  /** The error names the first required column, in the order of the builder, that is not
      filled, and there is none when all are. */
  lemma CheckNamesFirstUnfilled(f: Fields)
    ensures Check(f) == match FirstUnfilled(f, REQUIRED) case None => None case Some(c) => Some(ColumnName(c))
  {
    var late := [ChangeId, DedupKey, Status, Attempts];
    assert REQUIRED == [Kind] + ([IncidentId] + ([Recipient] + ([Payload] + late)));
    FilledMeans(f);
    EarlyUnfilled(f, late);
    LateUnfilled(f);
  }

  ghost predicate IsOutbox(c: Setup<Fields>) {
    c.check == Check && c.defaults == Defaults && StoreContract(c)
  }

  ghost predicate StoredComplete(es: seq<Event<Fields>>) {
    forall k, j :: 0 <= k < |es| && es[k].Inserted? && 0 <= j < |es[k].batch| ==> Complete(es[k].batch[j].body)
  }

  lemma PassedIsComplete(c: Setup<Fields>, es: seq<Event<Fields>>)
    requires c.check == Check && StoredPassed(c, es)
    ensures StoredComplete(es)
  {
    forall k, j | 0 <= k < |es| && es[k].Inserted? && 0 <= j < |es[k].batch|
      ensures Complete(es[k].batch[j].body)
    {
      assert Passed(c, es[k].batch[j]);
      CheckAcceptsExactly(es[k].batch[j].body);
    }
  }

  /** No outbox row reaches the store without a value for a column it must be given, from a
      bulk save whose hooks pass their own mutation on. */
  lemma BulkStoresCompleteRows(c: Setup<Fields>, hooks: seq<seq<MutationHook<Fields>>>, s: State<Fields>)
    requires IsOutbox(c) && Ready(c, hooks, s) && BuildersLawful(hooks, SAME_ARG)
    requires StoredPassed(c, s.trace)
    ensures StoredComplete(BulkRun(c, hooks, s).0.trace)
  {
    BulkStoresChecked(c, hooks, s);
    PassedIsComplete(c, BulkRun(c, hooks, s).0.trace);
  }

  /** ... nor from a single save, whatever its hooks pass on. */
  lemma SingleStoresCompleteRows(c: Setup<Fields>, own: nat, hooks: seq<MutationHook<Fields>>, s: State<Fields>)
    requires IsOutbox(c) && AllValid(hooks) && AllLawful(hooks, HookLaw(0, NO_PROMISE))
    requires StoredPassed(c, s.trace)
    ensures StoredComplete(SingleRun(c, own, hooks, s).0.trace)
  {
    SingleStoresChecked(c, own, hooks, s);
    PassedIsComplete(c, SingleRun(c, own, hooks, s).0.trace);
  }
}
