/**
 What a mutation records of the edits made through a builder, and what those records mean:
 edge sets, numeric deltas and nullable fields.
 */
module Mutations {
  import opened Wrappers

  // ---- Edge sets ----

  datatype EdgeOp = Add(ids: seq<int>) | Remove(ids: seq<int>) | Clear | Reset

  datatype Edges = Edges(added: set<int>, removed: set<int>, cleared: bool)

  const NO_EDITS := Edges({}, {}, false)

  function Ids<T(==)>(ids: seq<T>): set<T> {
    set k | k in ids
  }

  /** The effect of one call on the recorded sets. */
  function Recorded(e: Edges, op: EdgeOp): Edges {
    match op
    case Add(ids) => e.(added := e.added + Ids(ids))
    case Remove(ids) => e.(added := e.added - Ids(ids), removed := e.removed + Ids(ids))
    case Clear => e.(cleared := true)
    case Reset => NO_EDITS
  }

  function RecordAll(ops: seq<EdgeOp>): Edges {
    if ops == [] then NO_EDITS else Recorded(RecordAll(ops[..|ops| - 1]), ops[|ops| - 1])
  }

  /** The target set after clearing what is recorded as removed and then adding. */
  function Target(e: Edges, stored: set<int>): set<int> {
    (if e.cleared then {} else stored - e.removed) + e.added
  }

  /** Was Clear called since the last Reset? */
  predicate ClearedSinceReset(ops: seq<EdgeOp>) {
    if ops == [] then false
    else match ops[|ops| - 1]
      case Clear => true
      case Reset => false
      case _ => ClearedSinceReset(ops[..|ops| - 1])
  }

  /** The Adds and Removes since the last Reset, in order, from `start`. */
  function InOrder(ops: seq<EdgeOp>, start: set<int>): set<int> {
    if ops == [] then start
    else match ops[|ops| - 1]
      case Add(ids) => InOrder(ops[..|ops| - 1], start) + Ids(ids)
      case Remove(ids) => InOrder(ops[..|ops| - 1], start) - Ids(ids)
      case Clear => InOrder(ops[..|ops| - 1], start)
      case Reset => start
  }

  /** The recorded sets mean the calls in order, from the empty set if the edge was cleared. */
  lemma {:induction false} RecordedEdgesMeanCallsInOrder(ops: seq<EdgeOp>, stored: set<int>)
    ensures RecordAll(ops).cleared == ClearedSinceReset(ops)
    ensures (stored - RecordAll(ops).removed) + RecordAll(ops).added == InOrder(ops, stored)
    ensures RecordAll(ops).added == InOrder(ops, {})
    ensures Target(RecordAll(ops), stored) == InOrder(ops, if ClearedSinceReset(ops) then {} else stored)
  {
    if ops != [] {
      RecordedEdgesMeanCallsInOrder(ops[..|ops| - 1], stored);
    }
  }

  /** Running Clear where it is called instead. */
  function Literal(ops: seq<EdgeOp>, stored: set<int>): set<int> {
    if ops == [] then stored
    else match ops[|ops| - 1]
      case Add(ids) => Literal(ops[..|ops| - 1], stored) + Ids(ids)
      case Remove(ids) => Literal(ops[..|ops| - 1], stored) - Ids(ids)
      case Clear => {}
      case Reset => stored
  }

  /** Ids added before the last Clear since the last Reset and not named by a later call. */
  function Survivors(ops: seq<EdgeOp>): set<int> {
    if ops == [] then {}
    else match ops[|ops| - 1]
      case Add(ids) => Survivors(ops[..|ops| - 1]) - Ids(ids)
      case Remove(ids) => Survivors(ops[..|ops| - 1]) - Ids(ids)
      case Clear => RecordAll(ops[..|ops| - 1]).added
      case Reset => {}
  }

  lemma {:induction false} ClearForgetsOrder(ops: seq<EdgeOp>, stored: set<int>)
    ensures Target(RecordAll(ops), stored) == Literal(ops, stored) + Survivors(ops)
    ensures Literal(ops, stored) !! Survivors(ops)
    ensures !RecordAll(ops).cleared ==> Survivors(ops) == {}
  {
    if ops != [] {
      ClearForgetsOrder(ops[..|ops| - 1], stored);
    }
  }

  /** The stored set is the literal one exactly when nothing added before the last Clear
      goes unmentioned after it. */
  lemma StoredIsLiteralExactly(ops: seq<EdgeOp>, stored: set<int>)
    ensures Target(RecordAll(ops), stored) == Literal(ops, stored) <==> Survivors(ops) == {}
  {
    ClearForgetsOrder(ops, stored);
  }

  /** Adding an id and then clearing keeps the id. */
  lemma AddThenClearKeeps(id: int, stored: set<int>)
    ensures Target(RecordAll([Add([id]), Clear]), stored) == {id}
    ensures Literal([Add([id]), Clear], stored) == {}
  {
    var ops := [Add([id]), Clear];
    assert ops[..1] == [Add([id])] && ops[..1][..0] == [];
    assert Ids([id]) == {id};
    assert RecordAll(ops[..1]).added == {id};
  }

  // ---- Numbers ----

  const TWO_TO_63: int := 0x8000_0000_0000_0000

  /** 64-bit two's complement wrap-around. */
  function Wrap(x: int): int {
    (x + TWO_TO_63) % (2 * TWO_TO_63) - TWO_TO_63
  }

  /** The one 64-bit integer that differs by a multiple of two to the 64th. */
  lemma WrapIsTwosComplement(x: int, y: int)
    ensures -0x8000_0000_0000_0000 <= Wrap(x) < 0x8000_0000_0000_0000
    ensures (x - Wrap(x)) % 0x1_0000_0000_0000_0000 == 0
    ensures -0x8000_0000_0000_0000 <= y < 0x8000_0000_0000_0000 && (x - y) % 0x1_0000_0000_0000_0000 == 0 ==> y == Wrap(x)
  {
  }

  lemma WrapOnce(x: int, y: int)
    ensures Wrap(Wrap(x) + y) == Wrap(x + y)
  {
  }

  datatype NumOp = SetNum(v: int) | AddNum(d: int) | ResetNum

  datatype Num = Num(value: Option<int>, added: Option<int>)

  function NumRecorded(n: Num, op: NumOp): Num {
    match op
    case SetNum(v) => Num(Some(v), None)
    case AddNum(d) => n.(added := Some(if n.added.Some? then Wrap(n.added.value + d) else d))
    case ResetNum => Num(None, None)
  }

  function NumRecordAll(ops: seq<NumOp>): Num {
    if ops == [] then Num(None, None) else NumRecorded(NumRecordAll(ops[..|ops| - 1]), ops[|ops| - 1])
  }

  /** The recorded pair applied to a stored value: set first, then add. */
  function NumTarget(n: Num, stored: int): int {
    var base := if n.value.Some? then n.value.value else stored;
    if n.added.Some? then Wrap(base + n.added.value) else base
  }

  function NumInOrder(ops: seq<NumOp>, stored: int): int {
    if ops == [] then stored
    else match ops[|ops| - 1]
      case SetNum(v) => v
      case AddNum(d) => Wrap(NumInOrder(ops[..|ops| - 1], stored) + d)
      case ResetNum => stored
  }

  /** Was Add called after the last Set, both since the last Reset? */
  predicate AddAfterSet(ops: seq<NumOp>) {
    if ops == [] then false
    else match ops[|ops| - 1]
      case SetNum(_) => false
      case ResetNum => false
      case AddNum(_) => AddAfterSet(ops[..|ops| - 1]) || NumRecordAll(ops[..|ops| - 1]).value.Some?
  }

  /** The recorded pair means the calls in order, with wrap-around. Both halves are recorded,
      so that the update names the column twice, exactly when an Add follows a Set. */
  lemma {:induction false} RecordedNumberMeansCallsInOrder(ops: seq<NumOp>, stored: int)
    ensures NumTarget(NumRecordAll(ops), stored) == NumInOrder(ops, stored)
    ensures NumRecordAll(ops).value.Some? && NumRecordAll(ops).added.Some? <==> AddAfterSet(ops)
  {
    if ops != [] {
      var init, last := ops[..|ops| - 1], ops[|ops| - 1];
      RecordedNumberMeansCallsInOrder(init, stored);
      var n := NumRecordAll(init);
      if last.AddNum? && n.added.Some? {
        var base := if n.value.Some? then n.value.value else stored;
        WrapOnce(base + n.added.value, last.d);
        WrapOnce(n.added.value + last.d, base);
      }
    }
  }

  // ---- Nullable fields ----

  datatype NullOp<T> = SetVal(v: T) | ClearVal | ResetVal

  /** The field's value and its entry in clearedFields. */
  datatype Nul<T> = Nul(value: Option<T>, cleared: bool)

  function NulRecorded<T>(n: Nul<T>, op: NullOp<T>): Nul<T> {
    match op
    case SetVal(v) => n.(value := Some(v))
    case ClearVal => Nul(None, true)
    case ResetVal => Nul(None, false)
  }

  function NulRecordAll<T>(ops: seq<NullOp<T>>): Nul<T> {
    if ops == [] then Nul(None, false) else NulRecorded(NulRecordAll(ops[..|ops| - 1]), ops[|ops| - 1])
  }

  function NulInOrder<T>(ops: seq<NullOp<T>>, stored: Option<T>): Option<T> {
    if ops == [] then stored
    else match ops[|ops| - 1]
      case SetVal(v) => Some(v)
      case ClearVal => None
      case ResetVal => stored
  }

  /** Is there a Set after a Clear since the last Reset, with no Clear after the Set? */
  predicate SetAfterClear<T>(ops: seq<NullOp<T>>) {
    if ops == [] then false
    else match ops[|ops| - 1]
      case SetVal(_) => NulRecordAll(ops[..|ops| - 1]).cleared
      case ClearVal => false
      case ResetVal => false
  }

  /** The update says set and clear of one column at once exactly when a Set follows a Clear;
      otherwise what it says is the calls in order. */
  lemma {:induction false} RecordedNullableMeansCallsInOrder<T>(ops: seq<NullOp<T>>, stored: Option<T>)
    ensures var n := NulRecordAll(ops);
      && (n.value.Some? && n.cleared <==> SetAfterClear(ops))
      && (!SetAfterClear(ops) ==>
            NulInOrder(ops, stored) == if n.value.Some? then n.value else if n.cleared then None else stored)
  {
    if ops != [] {
      RecordedNullableMeansCallsInOrder(ops[..|ops| - 1], stored);
    }
  }

  // ---- The mutation object ----

  class IncidentMutation {
    var components: set<int>
    var removedComponents: set<int>
    var clearedComponents: bool
    var impact: Option<int>
    var addImpact: Option<int>
    var description: Option<string>
    var clearedDescription: bool

    function RecordedEdges(): Edges
      reads this
    {
      Edges(components, removedComponents, clearedComponents)
    }

    function RecordedImpact(): Num
      reads this
    {
      Num(impact, addImpact)
    }

    function RecordedDescription(): Nul<string>
      reads this
    {
      Nul(description, clearedDescription)
    }

    constructor ()
      ensures RecordedEdges() == RecordAll([]) && RecordedImpact() == NumRecordAll([]) && RecordedDescription() == NulRecordAll([])
    {
      components, removedComponents, clearedComponents := {}, {}, false;
      impact, addImpact, description, clearedDescription := None, None, None, false;
    }

    method AddComponentIDs(ids: seq<int>)
      modifies this`components
      ensures RecordedEdges() == Recorded(old(RecordedEdges()), Add(ids))
    {
      for i := 0 to |ids|
        invariant components == old(components) + Ids(ids[..i])
      {
        components := components + {ids[i]};
        assert ids[..i + 1] == ids[..i] + [ids[i]];
      }
      assert ids[..|ids|] == ids;
    }

    method RemoveComponentIDs(ids: seq<int>)
      modifies this`components, this`removedComponents
      ensures RecordedEdges() == Recorded(old(RecordedEdges()), Remove(ids))
    {
      for i := 0 to |ids|
        invariant components == old(components) - Ids(ids[..i])
        invariant removedComponents == old(removedComponents) + Ids(ids[..i])
      {
        components := components - {ids[i]};
        removedComponents := removedComponents + {ids[i]};
        assert ids[..i + 1] == ids[..i] + [ids[i]];
      }
      assert ids[..|ids|] == ids;
    }

    method ClearComponents()
      modifies this`clearedComponents
      ensures RecordedEdges() == Recorded(old(RecordedEdges()), Clear)
    {
      clearedComponents := true;
    }

    method ResetComponents()
      modifies this`components, this`removedComponents, this`clearedComponents
      ensures RecordedEdges() == Recorded(old(RecordedEdges()), Reset)
    {
      components, clearedComponents, removedComponents := {}, false, {};
    }

    method SetImpact(i: int)
      modifies this`impact, this`addImpact
      ensures RecordedImpact() == NumRecorded(old(RecordedImpact()), SetNum(i))
    {
      impact := Some(i);
      addImpact := None;
    }

    method AddImpact(i: int)
      modifies this`addImpact
      ensures RecordedImpact() == NumRecorded(old(RecordedImpact()), AddNum(i))
    {
      if addImpact.Some? {
        addImpact := Some(Wrap(addImpact.value + i));
      } else {
        addImpact := Some(i);
      }
    }

    method ResetImpact()
      modifies this`impact, this`addImpact
      ensures RecordedImpact() == NumRecorded(old(RecordedImpact()), ResetNum)
    {
      impact, addImpact := None, None;
    }

    method SetDescription(s: string)
      modifies this`description
      ensures RecordedDescription() == NulRecorded(old(RecordedDescription()), SetVal(s))
    {
      description := Some(s);
    }

    method ClearDescription()
      modifies this`description, this`clearedDescription
      ensures RecordedDescription() == NulRecorded(old(RecordedDescription()), ClearVal)
    {
      description := None;
      clearedDescription := true;
    }

    method ResetDescription()
      modifies this`description, this`clearedDescription
      ensures RecordedDescription() == NulRecorded(old(RecordedDescription()), ResetVal)
    {
      description := None;
      clearedDescription := false;
    }
  }
}
