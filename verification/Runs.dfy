/** Runs of a labelled transition system, given by which labels are enabled and what they do. */
module Runs {
  ghost predicate EnabledRun<S, L>(enabled: (S, L) -> bool, step: (S, L) -> S, s: S, ls: seq<L>)
    decreases |ls|
  {
    ls == [] || (enabled(s, ls[0]) && EnabledRun(enabled, step, step(s, ls[0]), ls[1..]))
  }

  ghost function After<S, L>(step: (S, L) -> S, s: S, ls: seq<L>): S
    decreases |ls|
  {
    if ls == [] then s else After(step, step(s, ls[0]), ls[1..])
  }

  ghost predicate Reachable<S, L(!new)>(enabled: (S, L) -> bool, step: (S, L) -> S, init: S, s: S) {
    exists ls: seq<L> :: EnabledRun(enabled, step, init, ls) && After(step, init, ls) == s
  }

  lemma {:induction false} RunSnoc<S, L>(enabled: (S, L) -> bool, step: (S, L) -> S, s: S, ls: seq<L>, l: L)
    requires EnabledRun(enabled, step, s, ls) && enabled(After(step, s, ls), l)
    ensures EnabledRun(enabled, step, s, ls + [l])
    ensures After(step, s, ls + [l]) == step(After(step, s, ls), l)
    decreases |ls|
  {
    if ls == [] {
      assert ls + [l] == [l];
      assert EnabledRun(enabled, step, step(s, l), []);
    } else {
      RunSnoc(enabled, step, step(s, ls[0]), ls[1..], l);
      assert (ls + [l])[1..] == ls[1..] + [l];
    }
  }

  lemma RunCons<S, L>(enabled: (S, L) -> bool, step: (S, L) -> S, s: S, l: L, rest: seq<L>)
    requires enabled(s, l) && EnabledRun(enabled, step, step(s, l), rest)
    ensures EnabledRun(enabled, step, s, [l] + rest)
    ensures After(step, s, [l] + rest) == After(step, step(s, l), rest)
  {
    assert ([l] + rest)[1..] == rest;
  }

  lemma ReachStep<S, L(!new)>(enabled: (S, L) -> bool, step: (S, L) -> S, init: S, s: S, l: L)
    requires Reachable(enabled, step, init, s) && enabled(s, l)
    ensures Reachable(enabled, step, init, step(s, l))
  {
    var ls: seq<L> :| EnabledRun(enabled, step, init, ls) && After(step, init, ls) == s;
    RunSnoc(enabled, step, init, ls, l);
  }

  /** What every enabled step keeps, every run keeps. */
  lemma {:induction false} Invariance<S(!new), L(!new)>(enabled: (S, L) -> bool, step: (S, L) -> S, inv: S -> bool,
                                                        s: S, ls: seq<L>)
    requires forall s: S, l: L :: inv(s) && enabled(s, l) ==> inv(step(s, l))
    requires inv(s) && EnabledRun(enabled, step, s, ls)
    ensures inv(After(step, s, ls))
    decreases |ls|
  {
    if ls == [] {
    } else {
      Invariance(enabled, step, inv, step(s, ls[0]), ls[1..]);
    }
  }

  /** A run along which a measure falls has no more steps than the measure allows. */
  lemma {:induction false} Bounded<S(!new), L(!new)>(enabled: (S, L) -> bool, step: (S, L) -> S, inv: S -> bool,
                                                     measure: S -> nat, s: S, ls: seq<L>)
    requires forall s: S, l: L :: inv(s) && enabled(s, l) ==> inv(step(s, l)) && measure(step(s, l)) < measure(s)
    requires inv(s) && EnabledRun(enabled, step, s, ls)
    ensures inv(After(step, s, ls)) && |ls| + measure(After(step, s, ls)) <= measure(s)
    decreases |ls|
  {
    if ls == [] {
    } else {
      Bounded(enabled, step, inv, measure, step(s, ls[0]), ls[1..]);
    }
  }

  /** A run without its silent steps. */
  ghost function Erased<S, L>(step: (S, L) -> S, silent: (S, L) -> bool, s: S, ls: seq<L>): seq<L>
    decreases |ls|
  {
    if ls == [] then []
    else (if silent(s, ls[0]) then [] else [ls[0]]) + Erased(step, silent, step(s, ls[0]), ls[1..])
  }

  /** A run to a goal, if there is always a step that brings it closer. */
  lemma {:induction false} Attainable<S(!new), L(!new)>(enabled: (S, L) -> bool, step: (S, L) -> S, inv: S -> bool,
                                                        goal: S -> bool, measure: S -> nat, s: S) returns (ls: seq<L>)
    requires forall s: S :: inv(s) && !goal(s) ==>
               exists l: L :: enabled(s, l) && inv(step(s, l)) && measure(step(s, l)) < measure(s)
    requires inv(s)
    ensures EnabledRun(enabled, step, s, ls) && goal(After(step, s, ls))
    decreases measure(s)
  {
    if goal(s) {
      ls := [];
    } else {
      var l: L :| enabled(s, l) && inv(step(s, l)) && measure(step(s, l)) < measure(s);
      var rest := Attainable(enabled, step, inv, goal, measure, step(s, l));
      ls := [l] + rest;
      assert ls[1..] == rest;
    }
  }

  /** Somewhere along the run `event` happens. */
  ghost predicate Happens<S, L>(step: (S, L) -> S, event: (S, L) -> bool, s: S, ls: seq<L>)
    decreases |ls|
  {
    ls != [] && (event(s, ls[0]) || Happens(step, event, step(s, ls[0]), ls[1..]))
  }

  /** A flag that exactly the event raises, and nothing lowers. */
  lemma {:induction false} Flagged<S(!new), L(!new)>(enabled: (S, L) -> bool, step: (S, L) -> S, inv: S -> bool,
                                                     event: (S, L) -> bool, flag: S -> bool, s: S, ls: seq<L>)
    requires forall s: S, l: L :: inv(s) && enabled(s, l) ==>
               inv(step(s, l)) && (flag(step(s, l)) <==> flag(s) || event(s, l))
    requires inv(s) && EnabledRun(enabled, step, s, ls)
    ensures flag(After(step, s, ls)) <==> flag(s) || Happens(step, event, s, ls)
    decreases |ls|
  {
    if ls == [] {
    } else {
      Flagged(enabled, step, inv, event, flag, step(s, ls[0]), ls[1..]);
    }
  }

  /** What the steps of a run return. */
  ghost function Outputs<S, L, R>(step: (S, L) -> S, respond: (S, L) -> R, s: S, ls: seq<L>): seq<R>
    decreases |ls|
  {
    if ls == [] then [] else [respond(s, ls[0])] + Outputs(step, respond, step(s, ls[0]), ls[1..])
  }

  /** What the other steps return. */
  ghost function Heard<S, L, R>(step: (S, L) -> S, silent: (S, L) -> bool, respond: (S, L) -> R, s: S, ls: seq<L>): seq<R>
    decreases |ls|
  {
    if ls == [] then []
    else (if silent(s, ls[0]) then [] else [respond(s, ls[0])]) + Heard(step, silent, respond, step(s, ls[0]), ls[1..])
  }

  /** If alike states allow the same steps, which return the same and keep them alike, and a silent step leads to an
      alike state, then a run without its silent steps is a run from any alike state, returns the same, and ends
      alike. */
  lemma {:induction false} Erasing<S(!new), L(!new), R>(enabled: (S, L) -> bool, step: (S, L) -> S,
                                                        respond: (S, L) -> R, alike: (S, S) -> bool,
                                                        silent: (S, L) -> bool, s: S, t: S, ls: seq<L>)
    requires forall s: S, t: S, l: L :: alike(s, t) && enabled(s, l) ==>
               enabled(t, l) && respond(t, l) == respond(s, l) && alike(step(s, l), step(t, l))
    requires forall s: S, t: S, l: L :: alike(s, t) && enabled(s, l) && silent(s, l) ==> alike(step(s, l), t)
    requires alike(s, t) && EnabledRun(enabled, step, s, ls)
    ensures EnabledRun(enabled, step, t, Erased(step, silent, s, ls))
    ensures Outputs(step, respond, t, Erased(step, silent, s, ls)) == Heard(step, silent, respond, s, ls)
    ensures alike(After(step, s, ls), After(step, t, Erased(step, silent, s, ls)))
    decreases |ls|
  {
    if ls == [] {
    } else {
      var l, rest := ls[0], Erased(step, silent, step(s, ls[0]), ls[1..]);
      var later := Heard(step, silent, respond, step(s, l), ls[1..]);
      if silent(s, l) {
        Erasing(enabled, step, respond, alike, silent, step(s, l), t, ls[1..]);
        assert Erased(step, silent, s, ls) == rest && Heard(step, silent, respond, s, ls) == later;
      } else {
        Erasing(enabled, step, respond, alike, silent, step(s, l), step(t, l), ls[1..]);
        RunCons(enabled, step, t, l, rest);
        assert ([l] + rest)[1..] == rest;
      }
    }
  }

  /** `ls` takes exactly the steps that `call` makes of `es`, in order; in between come other steps, enabled where they
      are taken.  Of the steps `on` the list nothing is required but what they are. */
  ghost predicate Interleaved<S, L, E>(enabled: (S, L) -> bool, step: (S, L) -> S, on: L -> bool, other: L -> bool,
                                       call: E -> L, s: S, es: seq<E>, ls: seq<L>)
    decreases |ls|
  {
    if ls == [] then es == []
    else if on(ls[0]) then
      es != [] && ls[0] == call(es[0]) && Interleaved(enabled, step, on, other, call, step(s, ls[0]), es[1..], ls[1..])
    else
      && enabled(s, ls[0]) && other(ls[0])
      && Interleaved(enabled, step, on, other, call, step(s, ls[0]), es, ls[1..])
  }

  /** The steps that are not on the list. */
  function Off<S, L>(on: L -> bool): (S, L) -> bool {
    (s, l) => !on(l)
  }

  function Mapped<E, R>(f: E -> R, es: seq<E>): seq<R> {
    if es == [] then [] else [f(es[0])] + Mapped(f, es[1..])
  }

  /** If every step of the list is enabled after those before it, and other steps keep what they lead to, then the
      interleaving is a run, and the steps of the list return what they should. */
  lemma {:induction false} Interleaving<S(!new), L(!new), E(!new), R>(
      enabled: (S, L) -> bool, step: (S, L) -> S, respond: (S, L) -> R, on: L -> bool, other: L -> bool, call: E -> L,
      reply: E -> R, holds: (S, seq<E>) -> bool, next: (seq<E>, E) -> bool, s: S, done: seq<E>, es: seq<E>, ls: seq<L>)
    requires forall s: S, done: seq<E>, e: E :: holds(s, done) && next(done, e) ==>
               && enabled(s, call(e)) && respond(s, call(e)) == reply(e)
               && holds(step(s, call(e)), done + [e])
    requires forall s: S, done: seq<E>, l: L :: holds(s, done) && enabled(s, l) && !on(l) && other(l) ==>
               holds(step(s, l), done)
    requires forall k :: 0 <= k < |es| ==> next(done + es[..k], es[k])
    requires holds(s, done) && Interleaved(enabled, step, on, other, call, s, es, ls)
    ensures EnabledRun(enabled, step, s, ls) && holds(After(step, s, ls), done + es)
    ensures Heard(step, Off(on), respond, s, ls) == Mapped(reply, es)
    decreases |ls|
  {
    if ls == [] {
      assert done + es == done;
    } else if on(ls[0]) {
      var e, rest := es[0], es[1..];
      assert done + es[..0] == done;
      assert done + [e] + rest == done + es;
      forall k | 0 <= k < |rest| ensures next(done + [e] + rest[..k], rest[k]) {
        assert done + [e] + rest[..k] == done + es[..k + 1];
      }
      Interleaving(enabled, step, respond, on, other, call, reply, holds, next, step(s, ls[0]), done + [e], rest, ls[1..]);
    } else {
      Interleaving(enabled, step, respond, on, other, call, reply, holds, next, step(s, ls[0]), done, es, ls[1..]);
      assert Heard(step, Off(on), respond, s, ls)
          == [] + Heard(step, Off(on), respond, step(s, ls[0]), ls[1..]);
    }
  }

  /** The `k`-th step of a run. */
  lemma {:induction false} RunStep<S, L, R>(enabled: (S, L) -> bool, step: (S, L) -> S, respond: (S, L) -> R,
                                            s: S, ls: seq<L>, k: nat)
    requires EnabledRun(enabled, step, s, ls) && k < |ls|
    ensures enabled(After(step, s, ls[..k]), ls[k])
    ensures After(step, s, ls[..k + 1]) == step(After(step, s, ls[..k]), ls[k])
    ensures |Outputs(step, respond, s, ls)| == |ls|
    ensures Outputs(step, respond, s, ls)[k] == respond(After(step, s, ls[..k]), ls[k])
    decreases |ls|
  {
    OutputsLength(step, respond, s, ls);
    if k == 0 {
      assert After(step, s, ls[..1]) == After(step, step(s, ls[0]), ls[..1][1..]);
    } else {
      RunStep(enabled, step, respond, step(s, ls[0]), ls[1..], k - 1);
      assert ls[..k][1..] == ls[1..][..k - 1] && ls[..k + 1][1..] == ls[1..][..k];
    }
  }

  lemma {:induction false} OutputsLength<S, L, R>(step: (S, L) -> S, respond: (S, L) -> R, s: S, ls: seq<L>)
    ensures |Outputs(step, respond, s, ls)| == |ls|
    decreases |ls|
  {
    if ls == [] {
    } else {
      OutputsLength(step, respond, step(s, ls[0]), ls[1..]);
    }
  }

  /** Following a list of labels from its `k`-th on, when each leads from one stage to the next. */
  lemma {:induction false} Follow<S(!new), L, R>(enabled: (S, L) -> bool, step: (S, L) -> S, respond: (S, L) -> R,
                                                 at: (S, nat) -> bool, s: S, ls: seq<L>, rs: seq<R>, k: nat)
    requires |ls| == |rs| && k <= |ls| && at(s, k)
    requires forall s: S, k: nat :: k < |ls| && at(s, k) ==>
               enabled(s, ls[k]) && at(step(s, ls[k]), k + 1) && respond(s, ls[k]) == rs[k]
    ensures EnabledRun(enabled, step, s, ls[k..]) && at(After(step, s, ls[k..]), |ls|)
    ensures Outputs(step, respond, s, ls[k..]) == rs[k..]
    decreases |ls| - k
  {
    if k == |ls| {
    } else {
      assert ls[k..][0] == ls[k] && ls[k..][1..] == ls[k + 1..];
      Follow(enabled, step, respond, at, step(s, ls[k]), ls, rs, k + 1);
      assert rs[k..] == [rs[k]] + rs[k + 1..];
    }
  }

  /** Counting a condition. */
  function Count(b: bool): nat {
    if b then 1 else 0
  }
}
