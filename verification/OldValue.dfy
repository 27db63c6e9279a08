/**
 Old values of an update: a mutation made for an id fetches the entity at most once, on the
 first request, and every OldX call reads that one answer.
 */
module OldValue {
  import opened Wrappers

  /** What a fetch gives: the entity's fields, or the store's error. */
  datatype Fetch<E> = Found(e: E) | FetchError(code: int)

  datatype Answer<E> =
    | Value(e: E)
    | QueryFailed(code: int)
    | PostMutation        // asked for the first time after the mutation was done
    | NotUpdateOne
    | NoId

  /** sync.Once and the variables it guards. */
  datatype Memo<E> = NotAsked | Asked(a: Answer<E>)

  class Mutation<E> {
    const updateOne: bool
    const hasId: bool
    var done: bool
    var memo: Memo<E>
    var fetches: nat

    constructor (updateOne: bool, hasId: bool)
      ensures this.updateOne == updateOne && this.hasId == hasId
      ensures State() == Start()
    {
      this.updateOne, this.hasId := updateOne, hasId;
      done, memo, fetches := false, NotAsked, 0;
    }

    function State(): St<E>
      reads this
    {
      St(done, memo, fetches)
    }

    /** OldText and its kin, before the field is picked; `store` is what a fetch made now
        would give. */
    method Old(store: Fetch<E>) returns (a: Answer<E>)
      modifies this
      ensures (State(), Some(a)) == Step(updateOne, hasId, old(State()), Ask(store))
    {
      if !updateOne {
        return NotUpdateOne;
      }
      if !hasId {
        return NoId;
      }
      if memo.NotAsked? {
        if done {
          memo := Asked(PostMutation);
        } else {
          fetches := fetches + 1;
          memo := Asked(AnswerOf(store));
        }
      }
      a := memo.a;
    }

    /** The end of sqlSave. */
    method MarkDone()
      modifies this
      ensures (State(), None) == Step(updateOne, hasId, old(State()), Done)
    {
      done := true;
    }
  }

  function AnswerOf<E>(store: Fetch<E>): Answer<E> {
    match store
    case Found(e) => Value(e)
    case FetchError(code) => QueryFailed(code)
  }

  datatype St<E> = St(done: bool, memo: Memo<E>, fetches: nat)

  function Start<E>(): St<E> {
    St(false, NotAsked, 0)
  }

  /** A request for an old value while the store would answer `store`, or the save. */
  datatype Event<E> = Ask(store: Fetch<E>) | Done

  function Step<E>(updateOne: bool, hasId: bool, s: St<E>, e: Event<E>): (St<E>, Option<Answer<E>>) {
    match e
    case Done => (s.(done := true), None)
    case Ask(store) =>
      if !updateOne then (s, Some(NotUpdateOne))
      else if !hasId then (s, Some(NoId))
      else if s.memo.Asked? then (s, Some(s.memo.a))
      else if s.done then (s.(memo := Asked(PostMutation)), Some(PostMutation))
      else (St(s.done, Asked(AnswerOf(store)), s.fetches + 1), Some(AnswerOf(store)))
  }

  function After<E>(updateOne: bool, hasId: bool, es: seq<Event<E>>): St<E> {
    if es == [] then Start() else Step(updateOne, hasId, After(updateOne, hasId, es[..|es| - 1]), es[|es| - 1]).0
  }

  /** The answers of a run, in order. */
  function Answers<E>(updateOne: bool, hasId: bool, es: seq<Event<E>>): seq<Answer<E>> {
    if es == [] then []
    else
      var r := Step(updateOne, hasId, After(updateOne, hasId, es[..|es| - 1]), es[|es| - 1]).1;
      Answers(updateOne, hasId, es[..|es| - 1]) + if r.Some? then [r.value] else []
  }

  /** The first request of a run. */
  ghost predicate FirstAsk<E>(es: seq<Event<E>>, k: nat) {
    k < |es| && es[k].Ask? && forall j :: 0 <= j < k ==> es[j].Done?
  }

  /** The one answer of a run: the store at the first request, unless the save came before. */
  ghost function TheAnswer<E>(updateOne: bool, hasId: bool, es: seq<Event<E>>, k: nat): Answer<E>
    requires FirstAsk(es, k)
  {
    if !updateOne then NotUpdateOne
    else if !hasId then NoId
    else if k > 0 then PostMutation
    else match es[0].store
      case Found(e) => Value(e)
      case FetchError(code) => QueryFailed(code)
  }

  lemma {:induction false} NothingAskedYet<E>(updateOne: bool, hasId: bool, es: seq<Event<E>>)
    requires forall j :: 0 <= j < |es| ==> es[j].Done?
    ensures After(updateOne, hasId, es) == St(|es| > 0, NotAsked, 0) && Answers(updateOne, hasId, es) == []
  {
    if es != [] {
      NothingAskedYet(updateOne, hasId, es[..|es| - 1]);
    }
  }

  /** Whatever the store does between calls: all answers of a run are the same one, the store
      is asked at most once, and only by a first request that comes before the save. */
  lemma {:induction false} OldValuesAreOneSnapshot<E>(updateOne: bool, hasId: bool, es: seq<Event<E>>, k: nat)
    requires FirstAsk(es, k)
    ensures var a := TheAnswer(updateOne, hasId, es, k);
      && (forall j :: 0 <= j < |Answers(updateOne, hasId, es)| ==> Answers(updateOne, hasId, es)[j] == a)
      && After(updateOne, hasId, es).fetches == (if updateOne && hasId && k == 0 then 1 else 0)
      && (updateOne && hasId ==> After(updateOne, hasId, es).memo == Asked(a))
    decreases |es|
  {
    var init, last := es[..|es| - 1], es[|es| - 1];
    if k == |es| - 1 {
      NothingAskedYet(updateOne, hasId, init);
    } else {
      assert init[k] == es[k] && forall j :: 0 <= j < k ==> init[j] == es[j];
      OldValuesAreOneSnapshot(updateOne, hasId, init, k);
    }
  }
}
