/** The slots of the synchronous endpoint: a channel that bounds how many documents are masked at once,
    with a short queue in front of it and shedding beyond. */
module SyncSlots {
  import opened FiniteSets

  type RequestId = nat

  datatype Place = Arrived | InQueue | Masking | Shed | Canceled | Done

  datatype Slots = Slots(requests: map<RequestId, Place>, tokens: nat, capacity: nat, waits: bool)

  datatype Move =
    | Arrive(id: RequestId)
    | Try(id: RequestId)
    | Take(id: RequestId)
    | TimeOut(id: RequestId)
    | Cancel(id: RequestId)
    | Finish(id: RequestId)

  predicate At(s: Slots, id: RequestId, place: Place) {
    id in s.requests && s.requests[id] == place
  }

  /** A send needs room in the channel, a receive needs a token in it. */
  predicate Possible(s: Slots, m: Move) {
    match m
    case Arrive(id) => id !in s.requests
    case Try(id) => At(s, id, Arrived)
    case Take(id) => At(s, id, InQueue) && s.tokens < s.capacity
    case TimeOut(id) => At(s, id, InQueue)
    case Cancel(id) => At(s, id, InQueue)
    case Finish(id) => At(s, id, Masking) && s.tokens > 0
  }

  function Put(s: Slots, id: RequestId, place: Place, tokens: nat): Slots {
    s.(requests := s.requests[id := place], tokens := tokens)
  }

  function Make(s: Slots, m: Move): Slots
    requires Possible(s, m)
  {
    match m
    case Arrive(id) => Put(s, id, Arrived, s.tokens)
    case Try(id) =>
      if s.tokens < s.capacity then Put(s, id, Masking, s.tokens + 1)
      else if s.waits then Put(s, id, InQueue, s.tokens)
      else Put(s, id, Shed, s.tokens)
    case Take(id) => Put(s, id, Masking, s.tokens + 1)
    case TimeOut(id) => Put(s, id, Shed, s.tokens)
    case Cancel(id) => Put(s, id, Canceled, s.tokens)
    case Finish(id) => Put(s, id, Done, s.tokens - 1)
  }

  predicate Allowed(s: Slots, moves: seq<Move>)
    decreases |moves|
  {
    moves == [] || (Possible(s, moves[0]) && Allowed(Make(s, moves[0]), moves[1..]))
  }

  function After(s: Slots, moves: seq<Move>): Slots
    requires Allowed(s, moves)
    decreases |moves|
  {
    if moves == [] then s else After(Make(s, moves[0]), moves[1..])
  }

  function Open(capacity: nat, waits: bool): Slots {
    Slots(map[], 0, capacity, waits)
  }

  function Maskers(s: Slots): set<RequestId> {
    set id | id in s.requests && s.requests[id] == Masking
  }

  predicate Balanced(s: Slots) {
    s.tokens == |Maskers(s)| && s.tokens <= s.capacity
  }

  lemma AMoveKeepsTheBalance(s: Slots, m: Move)
    requires Balanced(s) && Possible(s, m)
    ensures Balanced(Make(s, m)) && Make(s, m).capacity == s.capacity && Make(s, m).waits == s.waits
  {
    var t := Make(s, m);
    assert Maskers(t) - {m.id} == Maskers(s) - {m.id};
    OneMove(Maskers(s), Maskers(t), m.id);
  }

  /** In every run the tokens are the requests being masked, never more than there are slots, and a finished
      request can always give its slot back. */
  lemma {:induction false} NeverMoreThanTheSlots(s: Slots, moves: seq<Move>)
    requires Balanced(s) && Allowed(s, moves)
    ensures Balanced(After(s, moves)) && After(s, moves).capacity == s.capacity && After(s, moves).waits == s.waits
    ensures forall id :: At(After(s, moves), id, Masking) ==> Possible(After(s, moves), Finish(id))
    decreases |moves|
  {
    if moves == [] {
      forall id | At(s, id, Masking)
        ensures s.tokens > 0
      {
        assert id in Maskers(s);
      }
    } else {
      AMoveKeepsTheBalance(s, moves[0]);
      NeverMoreThanTheSlots(Make(s, moves[0]), moves[1..]);
    }
  }

  /** A request is refused at once exactly when every slot is being used and there is no queue; a queued one
      gets a slot only when one is free. */
  lemma ShedAtOnceIff(capacity: nat, waits: bool, moves: seq<Move>, id: RequestId)
    requires Allowed(Open(capacity, waits), moves) && Possible(After(Open(capacity, waits), moves), Try(id))
    ensures
      var s := After(Open(capacity, waits), moves);
      && (At(Make(s, Try(id)), id, Shed) <==> |Maskers(s)| == capacity && !waits)
      && (At(Make(s, Try(id)), id, InQueue) <==> |Maskers(s)| == capacity && waits)
      && (At(Make(s, Try(id)), id, Masking) <==> |Maskers(s)| < capacity)
  {
    assert Maskers(Open(capacity, waits)) == {};
    NeverMoreThanTheSlots(Open(capacity, waits), moves);
  }

  /** Some move of the request takes it to the place. */
  ghost predicate CanGet(s: Slots, id: RequestId, place: Place) {
    exists m: Move :: m.id == id && Possible(s, m) && At(Make(s, m), id, place)
  }

  /** Exactly where a request can get from where it is. */
  lemma PlacesAreReachedIff(s: Slots, id: RequestId)
    ensures CanGet(s, id, Arrived) <==> id !in s.requests
    ensures CanGet(s, id, Masking) <==> (At(s, id, Arrived) || At(s, id, InQueue)) && s.tokens < s.capacity
    ensures CanGet(s, id, InQueue) <==> At(s, id, Arrived) && s.tokens >= s.capacity && s.waits
    ensures CanGet(s, id, Shed) <==> (At(s, id, Arrived) && s.tokens >= s.capacity && !s.waits) || At(s, id, InQueue)
    ensures CanGet(s, id, Canceled) <==> At(s, id, InQueue)
    ensures CanGet(s, id, Done) <==> At(s, id, Masking) && s.tokens > 0
  {
    assert Possible(s, Arrive(id)) ==> At(Make(s, Arrive(id)), id, Arrived);
    assert Possible(s, Try(id)) ==> At(Make(s, Try(id)), id, Make(s, Try(id)).requests[id]);
    assert Possible(s, Take(id)) ==> At(Make(s, Take(id)), id, Masking);
    assert Possible(s, TimeOut(id)) ==> At(Make(s, TimeOut(id)), id, Shed);
    assert Possible(s, Cancel(id)) ==> At(Make(s, Cancel(id)), id, Canceled);
    assert Possible(s, Finish(id)) ==> At(Make(s, Finish(id)), id, Done);
  }
}
