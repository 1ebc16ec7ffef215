/** Events from the DSP side to the UI (cpp/thread/Event_stream.h): a stream
    hands out subscriptions, each kept alive by a token its subscriber holds,
    and the emitter calls every subscriber whose token is still held.

    Ownership is modelled by flags: a token or an emitter is `alive` while
    some owner still holds it, and a subscriber dropping its token sets the
    flag to false. A callback is an identifier; a call is the pair of that
    identifier and the arguments. */
module EventStream {

  /** `Event_stream::Token`: its only state is whether it is still held. */
  class Token {
    var alive: bool

    constructor ()
      ensures alive
    {
      alive := true;
    }
  }

  /** `Event_emitter`: the subscribers, keyed by their token. */
  class Emitter<A> {
    var alive: bool
    var subscribers: map<Token, nat>

    constructor ()
      ensures alive && subscribers == map[]
    {
      alive := true;
      subscribers := map[];
    }

    /** `emit(args...)`: a walk over the subscribers in the unordered map's
        own order (any order), erasing each whose token has expired and
        calling each other one once with the arguments. Returns the calls
        and the tokens they were made for, in walk order. */
    method Emit(args: A) returns (calls: seq<(nat, A)>, order: seq<Token>)
      requires alive
      modifies this
      ensures alive
      ensures subscribers.Keys == set t | t in old(subscribers) && t.alive
      ensures forall t | t in subscribers :: subscribers[t] == old(subscribers)[t]
      ensures |order| == |calls|
      ensures forall i, j | 0 <= i < j < |order| :: order[i] != order[j]
      ensures forall t :: t in order <==> t in old(subscribers) && t.alive
      ensures forall i | 0 <= i < |order| :: order[i] in old(subscribers) && calls[i] == (old(subscribers)[order[i]], args)
    {
      ghost var subs0 := subscribers;
      calls, order := [], [];
      var remaining := subscribers.Keys;
      while remaining != {}
        invariant alive
        invariant remaining <= subs0.Keys
        invariant subscribers.Keys == set t | t in subs0 && (t in remaining || t.alive)
        invariant forall t | t in subscribers :: subscribers[t] == subs0[t]
        invariant |order| == |calls|
        invariant forall i, j | 0 <= i < j < |order| :: order[i] != order[j]
        invariant forall t :: t in order <==> t in subs0 && t !in remaining && t.alive
        invariant forall i | 0 <= i < |order| :: order[i] in subs0 && calls[i] == (subs0[order[i]], args)
        decreases |remaining|
      {
        var t :| t in remaining;
        if !t.alive {
          subscribers := subscribers - {t};
        } else {
          calls := calls + [(subscribers[t], args)];
          order := order + [t];
        }
        remaining := remaining - {t};
      }
    }
  }

  /** `Event_stream`: a weak reference to its emitter. */
  class Stream<A> {
    const emitter: Emitter<A>

    constructor (emitter: Emitter<A>)
      ensures this.emitter == emitter
    {
      this.emitter := emitter;
    }

    /** `subscribe(callback)`: always a fresh, held token; the callback is
        registered under it exactly when the emitter is still alive. */
    method Subscribe(callback: nat) returns (token: Token)
      modifies emitter
      ensures fresh(token) && token.alive
      ensures emitter.alive == old(emitter.alive)
      ensures old(emitter.alive) ==> emitter.subscribers == old(emitter.subscribers)[token := callback]
      ensures !old(emitter.alive) ==> emitter.subscribers == old(emitter.subscribers)
    {
      token := new Token();
      if emitter.alive {
        emitter.subscribers := emitter.subscribers[token := callback];
      }
    }
  }

  /** `make_event()`: a new emitter, with no subscribers, and a stream that
      refers to it. */
  method MakeEvent<A>() returns (stream: Stream<A>, emitter: Emitter<A>)
    ensures fresh(stream) && fresh(emitter)
    ensures stream.emitter == emitter
    ensures emitter.alive && emitter.subscribers == map[]
  {
    emitter := new Emitter<A>();
    stream := new Stream<A>(emitter);
  }

  /** A sequence without repeats has as many elements as its set. */
  lemma {:induction false} DistinctCardinality<T>(s: seq<T>)
    requires forall i, j | 0 <= i < j < |s| :: s[i] != s[j]
    ensures |set x | x in s| == |s|
  {
    if s != [] {
      var rest := s[1..];
      assert forall i, j | 0 <= i < j < |rest| :: rest[i] != rest[j] by {
        forall i, j | 0 <= i < j < |rest| ensures rest[i] != rest[j] {
          assert rest[i] == s[i + 1] && rest[j] == s[j + 1];
        }
      }
      DistinctCardinality(rest);
      assert s[0] !in rest by {
        forall i | 0 <= i < |rest| ensures rest[i] != s[0] {
          assert rest[i] == s[i + 1];
        }
      }
      assert (set x | x in s) == (set x | x in rest) + {s[0]};
    }
  }

  /** Two subscribers, one of which drops its token before an emit: only the
      other is called, once, and the dropped one is no longer registered. */
  method DroppedSubscriberNotCalled() returns (calls: seq<(nat, int)>, remaining: set<nat>)
    ensures calls == [(2, 7)]
    ensures remaining == {2}
  {
    var stream, emitter := MakeEvent<int>();
    var first := stream.Subscribe(1);
    var second := stream.Subscribe(2);
    first.alive := false;
    var order;
    calls, order := emitter.Emit(7);
    assert (set t | t in order) == {second};
    DistinctCardinality(order);
    assert order == [second];
    remaining := set t | t in emitter.subscribers :: emitter.subscribers[t];
    assert emitter.subscribers.Keys == {second};
  }

  /** After the emitter is gone, subscribing registers nothing. */
  method SubscribeAfterEmitterGone() returns (registered: bool)
    ensures !registered
  {
    var stream, emitter := MakeEvent<int>();
    emitter.alive := false;
    var token := stream.Subscribe(1);
    registered := token in emitter.subscribers;
  }
}
