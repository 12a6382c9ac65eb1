/**
 Runs of a bounded buffer in front of a store: pushes, drains, and what the store ends up holding.
 The store is left open; `apply` is one update, `drop` what a refused push does to it.
 */
module BufferRuns {
  import opened Replay
  import opened Suffixes

  datatype System<!S, !U> = System(apply: (S, U) -> S, drop: S -> S, maxSize: nat, flushBatch: nat)

  datatype BufferState<S, U> = BufferState(q: seq<U>, drops: nat, store: S)

  datatype Event<U> = Pushed(u: U) | Drained

  ghost function Push<S, U>(sys: System<S, U>, s: BufferState<S, U>, u: U): BufferState<S, U> {
    if |s.q| >= sys.maxSize then BufferState(s.q, s.drops + 1, sys.drop(s.store))
    else s.(q := s.q + [u])
  }

  ghost function BatchSize<S, U>(sys: System<S, U>, q: seq<U>): nat {
    if |q| <= sys.flushBatch then |q| else sys.flushBatch
  }

  ghost function Drain<S, U>(sys: System<S, U>, s: BufferState<S, U>): BufferState<S, U> {
    var n := BatchSize(sys, s.q);
    s.(q := s.q[n..], store := ApplyAll(sys.apply, s.store, s.q[..n]))
  }

  ghost function Flush<S, U>(sys: System<S, U>, s: BufferState<S, U>): BufferState<S, U> {
    s.(q := [], store := ApplyAll(sys.apply, s.store, s.q))
  }

  ghost function Step<S, U>(sys: System<S, U>, s: BufferState<S, U>, e: Event<U>): BufferState<S, U> {
    match e
    case Pushed(u) => Push(sys, s, u)
    case Drained => Drain(sys, s)
  }

  ghost function Run<S, U>(sys: System<S, U>, start: S, events: seq<Event<U>>): BufferState<S, U> {
    if events == [] then BufferState([], 0, start)
    else Step(sys, Run(sys, start, events[..|events| - 1]), events[|events| - 1])
  }

  /** The updates that were not dropped, in push order. */
  ghost function Accepted<S, U>(sys: System<S, U>, start: S, events: seq<Event<U>>): seq<U> {
    if events == [] then []
    else
      var earlier, e := events[..|events| - 1], events[|events| - 1];
      Accepted(sys, start, earlier) + Admitted(sys, Run(sys, start, earlier), e)
  }

  ghost function Admitted<S, U>(sys: System<S, U>, s: BufferState<S, U>, e: Event<U>): seq<U> {
    if e.Pushed? && |s.q| < sys.maxSize then [e.u] else []
  }

  ghost function PushCount<U>(events: seq<Event<U>>): nat {
    if events == [] then 0 else PushCount(events[..|events| - 1]) + if events[|events| - 1].Pushed? then 1 else 0
  }

  /** The queue is bounded, holds the latest accepted updates, and every push is accepted or counted as dropped. */
  lemma {:induction false} NothingLost<S, U>(sys: System<S, U>, start: S, events: seq<Event<U>>)
    ensures var s, accepted := Run(sys, start, events), Accepted(sys, start, events);
            && |s.q| <= sys.maxSize
            && IsSuffix(s.q, accepted)
            && |accepted| + s.drops == PushCount(events)
  {
    if events != [] {
      var earlier := events[..|events| - 1];
      NothingLost(sys, start, earlier);
      var s, accepted := Run(sys, start, earlier), Accepted(sys, start, earlier);
      match events[|events| - 1]
      case Drained => SuffixDrop(s.q, accepted, BatchSize(sys, s.q));
      case Pushed(u) => SuffixSnoc(s.q, accepted, u); assert accepted + [] == accepted;
    }
  }

  /** Draining early makes no difference to what a flush leaves. */
  lemma DrainKeepsFlush<S, U>(sys: System<S, U>, s: BufferState<S, U>)
    ensures Flush(sys, Drain(sys, s)) == Flush(sys, s)
  {
    var n := BatchSize(sys, s.q);
    ApplyAllConcat(sys.apply, s.store, s.q[..n], s.q[n..]);
    assert s.q[..n] + s.q[n..] == s.q;
  }

  // ---- Drops that the updates cannot see ----

  /** `same` is kept by the updates that are `apart`; in a `quiet` store a drop changes nothing `same` can see. */
  ghost predicate Transparent<S(!new), U(!new)>(sys: System<S, U>, same: (S, S) -> bool, quiet: S -> bool,
    apart: U -> bool)
  {
    && (forall a :: same(a, a)) && (forall a, b, c :: same(a, b) && same(b, c) ==> same(a, c))
    && (forall a, b, u :: same(a, b) && apart(u) ==> same(sys.apply(a, u), sys.apply(b, u)))
    && (forall a, u :: quiet(a) && apart(u) ==> quiet(sys.apply(a, u)))
    && (forall a :: quiet(a) ==> same(sys.drop(a), a) && quiet(sys.drop(a)))
  }

  lemma {:induction false} ApplyAllSame<S(!new), U(!new)>(sys: System<S, U>, same: (S, S) -> bool, quiet: S -> bool,
    apart: U -> bool, a: S, b: S, us: seq<U>)
    requires Transparent(sys, same, quiet, apart) && same(a, b) && forall i :: 0 <= i < |us| ==> apart(us[i])
    ensures same(ApplyAll(sys.apply, a, us), ApplyAll(sys.apply, b, us))
    ensures quiet(a) ==> quiet(ApplyAll(sys.apply, a, us))
  {
    if us != [] { ApplyAllSame(sys, same, quiet, apart, a, b, us[..|us| - 1]); }
  }

  /** One event keeps the flushed store the same as the direct one. */
  lemma StepSame<S(!new), U(!new)>(sys: System<S, U>, same: (S, S) -> bool, quiet: S -> bool, apart: U -> bool,
    s: BufferState<S, U>, e: Event<U>, direct: S)
    requires Transparent(sys, same, quiet, apart) && quiet(s.store) && same(Flush(sys, s).store, direct)
    requires forall i :: 0 <= i < |s.q| ==> apart(s.q[i])
    requires forall i :: 0 <= i < |Admitted(sys, s, e)| ==> apart(Admitted(sys, s, e)[i])
    ensures same(Flush(sys, Step(sys, s, e)).store, ApplyAll(sys.apply, direct, Admitted(sys, s, e)))
    ensures quiet(Step(sys, s, e).store)
  {
    if e.Drained? {
      DrainKeepsFlush(sys, s);
      ApplyAllSame(sys, same, quiet, apart, s.store, s.store, s.q[..BatchSize(sys, s.q)]);
    } else if |s.q| >= sys.maxSize {
      ApplyAllSame(sys, same, quiet, apart, sys.drop(s.store), s.store, s.q);
    } else {
      ApplyAllConcat(sys.apply, s.store, s.q, [e.u]);
      assert Admitted(sys, s, e) == [e.u] && Admitted(sys, s, e)[0] == e.u;
      ApplyAllSame(sys, same, quiet, apart, Flush(sys, s).store, direct, [e.u]);
    }
  }

  /**
   After any run of pushes and drains and a final flush, the store is what applying the accepted
   updates directly, in push order, would have made it, as far as `same` can see.
   */
  lemma {:induction false} BufferedEqualsDirect<S(!new), U(!new)>(sys: System<S, U>, same: (S, S) -> bool,
    quiet: S -> bool, apart: U -> bool, start: S, events: seq<Event<U>>)
    requires Transparent(sys, same, quiet, apart) && quiet(start)
    requires forall i :: 0 <= i < |Accepted(sys, start, events)| ==> apart(Accepted(sys, start, events)[i])
    ensures var s := Run(sys, start, events);
            && same(Flush(sys, s).store, ApplyAll(sys.apply, start, Accepted(sys, start, events)))
            && quiet(s.store)
  {
    if events != [] {
      var earlier, e := events[..|events| - 1], events[|events| - 1];
      var s, before := Run(sys, start, earlier), Accepted(sys, start, earlier);
      var more := Admitted(sys, s, e);
      assert Accepted(sys, start, events) == before + more;
      forall i | 0 <= i < |before| ensures apart(before[i]) { assert before[i] == (before + more)[i]; }
      forall i | 0 <= i < |more| ensures apart(more[i]) { assert more[i] == (before + more)[|before| + i]; }
      BufferedEqualsDirect(sys, same, quiet, apart, start, earlier);
      NothingLost(sys, start, earlier);
      StepSame(sys, same, quiet, apart, s, e, ApplyAll(sys.apply, start, before));
      ApplyAllConcat(sys.apply, start, before, more);
    }
  }
}
