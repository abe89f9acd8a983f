/** The lock/post/wait/signal protocol with any number of calling threads: `Delegate::Call` and `Delegate::Proxy`,
    and, with requests that never chain, `NaClFs::PostMessage` and `PostMessageFromMainThread`.  What a request does
    is left open; it may go back to the browser up to `maxChain` times before the main thread signals.  The main
    thread may take waiting events in any order, and a signal may wake any blocked thread. */
module Rendezvous {
  import opened Runs

  datatype Pc = Away | Entering | Holding | Posted | Blocked | Woken | Leaving
  datatype Thread = Thread(pc: Pc, calls: nat)
  datatype Task = Task(caller: nat, hops: nat)
  datatype Main = Resting | Running(task: Task) | Finishing | Signalling | Releasing
  datatype Owner = Nobody | Caller(i: nat) | MainThread

  /** `calls` is how many calls a thread has yet to begin. */
  datatype Sys = Sys(threads: seq<Thread>, owner: Owner, tasks: seq<Task>, main: Main, maxChain: nat)

  datatype Label =
    | Begin(i: nat) | Lock(i: nat) | Post(i: nat, hops: nat) | Wait(i: nat) | Wake(i: nat) | Return(i: nat)
    | Take(k: nat) | Chain | Finish | MainLock | Signal(i: nat) | MainUnlock

  predicate At(s: Sys, i: nat, pc: Pc) {
    i < |s.threads| && s.threads[i].pc == pc
  }

  predicate Enabled(s: Sys, l: Label) {
    match l
    case Begin(i) => At(s, i, Away) && s.threads[i].calls > 0
    case Lock(i) => At(s, i, Entering) && s.owner.Nobody?
    case Post(i, hops) => At(s, i, Holding) && hops <= s.maxChain
    case Wait(i) => At(s, i, Posted)
    case Wake(i) => At(s, i, Woken) && s.owner.Nobody?
    case Return(i) => At(s, i, Leaving)
    case Take(k) => s.main.Resting? && k < |s.tasks|
    case Chain => s.main.Running? && s.main.task.hops > 0
    case Finish => s.main.Running?
    case MainLock => s.main.Finishing? && s.owner.Nobody?
    case Signal(i) => s.main.Signalling? && (At(s, i, Blocked) || NobodyBlocked(s))
    case MainUnlock => s.main.Releasing?
  }

  predicate NobodyBlocked(s: Sys) {
    forall i :: 0 <= i < |s.threads| ==> !s.threads[i].pc.Blocked?
  }

  function Move(s: Sys, i: nat, pc: Pc): Sys
    requires i < |s.threads|
  {
    s.(threads := s.threads[i := s.threads[i].(pc := pc)])
  }

  function Step(s: Sys, l: Label): Sys {
    if !Enabled(s, l) then s
    else match l
    case Begin(i) => s.(threads := s.threads[i := Thread(Entering, s.threads[i].calls - 1)])
    case Lock(i) => Move(s, i, Holding).(owner := Caller(i))
    case Post(i, hops) => Move(s, i, Posted).(tasks := s.tasks + [Task(i, hops)])
    case Wait(i) => Move(s, i, Blocked).(owner := Nobody)
    case Wake(i) => Move(s, i, Leaving).(owner := Caller(i))
    case Return(i) => Move(s, i, Away).(owner := Nobody)
    case Take(k) => s.(tasks := s.tasks[..k] + s.tasks[k + 1..], main := Running(s.tasks[k]))
    case Chain => s.(tasks := s.tasks + [Task(s.main.task.caller, s.main.task.hops - 1)], main := Resting)
    case Finish => s.(main := Finishing)
    case MainLock => s.(main := Signalling, owner := MainThread)
    case Signal(i) => if At(s, i, Blocked) then Move(s, i, Woken).(main := Releasing) else s.(main := Releasing)
    case MainUnlock => s.(main := Resting, owner := Nobody)
  }

  // Counting

  predicate IsLive(t: Thread) { t.pc.Posted? || t.pc.Blocked? }

  /** Threads blocked in the wait, or holding the lock after posting. */
  function Live(threads: seq<Thread>): nat {
    if threads == [] then 0 else Count(IsLive(threads[0])) + Live(threads[1..])
  }

  /** Requests posted and not yet signalled. */
  function Unsignalled(s: Sys): nat {
    |s.tasks| + Count(s.main.Running? || s.main.Finishing? || s.main.Signalling?)
  }

  predicate HoldsLock(pc: Pc) { pc.Holding? || pc.Posted? || pc.Leaving? }

  ghost predicate Inv(s: Sys) {
    && Live(s.threads) == Unsignalled(s)
    && (forall i :: 0 <= i < |s.threads| ==> (HoldsLock(s.threads[i].pc) <==> s.owner == Caller(i)))
    && (s.owner.Caller? ==> s.owner.i < |s.threads|)
    && (s.owner.MainThread? <==> s.main.Signalling? || s.main.Releasing?)
  }

  lemma {:induction false} LiveUpdate(threads: seq<Thread>, i: nat, t: Thread)
    requires i < |threads|
    ensures Live(threads[i := t]) == Live(threads) - Count(IsLive(threads[i])) + Count(IsLive(t))
  {
    if i == 0 {
      assert threads[0 := t][1..] == threads[1..];
    } else {
      LiveUpdate(threads[1..], i - 1, t);
      assert threads[i := t][1..] == threads[1..][i - 1 := t];
    }
  }

  lemma {:induction false} LiveWitness(threads: seq<Thread>) returns (i: nat)
    requires Live(threads) > 0
    ensures i < |threads| && IsLive(threads[i])
  {
    if IsLive(threads[0]) {
      i := 0;
    } else {
      i := LiveWitness(threads[1..]);
      i := i + 1;
    }
  }

  lemma {:induction false} LivePositive(threads: seq<Thread>, i: nat)
    requires i < |threads| && IsLive(threads[i])
    ensures Live(threads) > 0
  {
    LiveUpdate(threads, i, threads[i].(pc := Away));
  }

  /** A signal always finds a blocked thread: nobody can be between posting and waiting while the main thread holds
      the lock. */
  lemma SignalFindsWaiter(s: Sys) returns (i: nat)
    requires Inv(s) && s.main.Signalling?
    ensures At(s, i, Blocked)
  {
    i := LiveWitness(s.threads);
  }

  lemma CallerStepKeepsInv(s: Sys, l: Label)
    requires Inv(s) && Enabled(s, l) && (l.Begin? || l.Lock? || l.Post? || l.Wait? || l.Wake? || l.Return?)
    ensures Inv(Step(s, l))
  {
    LiveUpdate(s.threads, l.i, Step(s, l).threads[l.i]);
  }

  lemma MainStepKeepsInv(s: Sys, l: Label)
    requires Inv(s) && Enabled(s, l)
    requires l.Take? || l.Chain? || l.Finish? || l.MainLock? || l.Signal? || l.MainUnlock?
    ensures Inv(Step(s, l))
  {
    if l.Signal? {
      var w := SignalFindsWaiter(s);
      LiveUpdate(s.threads, l.i, s.threads[l.i].(pc := Woken));
    }
  }

  lemma StepKeepsInv(s: Sys, l: Label)
    requires Inv(s) && Enabled(s, l)
    ensures Inv(Step(s, l))
  {
    if l.Begin? || l.Lock? || l.Post? || l.Wait? || l.Wake? || l.Return? {
      CallerStepKeepsInv(s, l);
    } else {
      MainStepKeepsInv(s, l);
    }
  }

  // Runs

  function Start(n: nat, calls: nat, maxChain: nat): Sys {
    Sys(seq(n, _ => Thread(Away, calls)), Nobody, [], Resting, maxChain)
  }

  lemma {:induction false} AllAway(threads: seq<Thread>)
    requires forall i :: 0 <= i < |threads| ==> threads[i].pc.Away?
    ensures Live(threads) == 0
  {
    if threads == [] {
    } else {
      AllAway(threads[1..]);
    }
  }

  lemma ReachableInv(n: nat, calls: nat, maxChain: nat, s: Sys)
    requires Reachable(Enabled, Step, Start(n, calls, maxChain), s)
    ensures Inv(s) && |s.threads| == n
  {
    var init := Start(n, calls, maxChain);
    var ls: seq<Label> :| EnabledRun(Enabled, Step, init, ls) && After(Step, init, ls) == s;
    AllAway(init.threads);
    forall s: Sys, l: Label | Inv(s) && |s.threads| == n && Enabled(s, l)
      ensures Inv(Step(s, l)) && |Step(s, l).threads| == n
    {
      StepKeepsInv(s, l);
    }
    Invariance(Enabled, Step, (s: Sys) => Inv(s) && |s.threads| == n, init, ls);
  }

  /** No lost wakeup, for any number of threads: blocked threads and threads that posted under the lock are as many
      as the unsignalled requests, and every signal has a thread to wake. */
  lemma NoLostWakeup(n: nat, calls: nat, maxChain: nat, s: Sys)
    requires Reachable(Enabled, Step, Start(n, calls, maxChain), s)
    ensures Live(s.threads) == Unsignalled(s)
    ensures s.main.Signalling? ==> !NobodyBlocked(s)
    ensures Unsignalled(s) == 0 ==> NobodyBlocked(s)
  {
    ReachableInv(n, calls, maxChain, s);
    if s.main.Signalling? {
      var i := SignalFindsWaiter(s);
    }
    forall i | 0 <= i < |s.threads| && s.threads[i].pc.Blocked? ensures Unsignalled(s) > 0 {
      LivePositive(s.threads, i);
    }
  }

  // Every run ends with every call returned

  function CallCost(maxChain: nat): nat { 2 * maxChain + 12 }

  function ThreadWeight(t: Thread, maxChain: nat): nat {
    t.calls * CallCost(maxChain)
    + (match t.pc
       case Away => 0
       case Leaving => 1
       case Woken => 2
       case Blocked => 3
       case Posted => 4
       case Holding => 2 * maxChain + 10
       case Entering => 2 * maxChain + 11)
  }

  function ThreadsWeight(threads: seq<Thread>, maxChain: nat): nat {
    if threads == [] then 0 else ThreadWeight(threads[0], maxChain) + ThreadsWeight(threads[1..], maxChain)
  }

  function TasksWeight(tasks: seq<Task>): nat {
    if tasks == [] then 0 else 2 * tasks[0].hops + 5 + TasksWeight(tasks[1..])
  }

  function Measure(s: Sys): nat {
    ThreadsWeight(s.threads, s.maxChain) + TasksWeight(s.tasks)
    + (match s.main
       case Resting => 0
       case Running(task) => 2 * task.hops + 4
       case Finishing => 3
       case Signalling => 2
       case Releasing => 1)
  }

  lemma {:induction false} ThreadsWeightUpdate(threads: seq<Thread>, i: nat, t: Thread, c: nat)
    requires i < |threads|
    ensures ThreadsWeight(threads[i := t], c)
            == ThreadsWeight(threads, c) - ThreadWeight(threads[i], c) + ThreadWeight(t, c)
  {
    if i == 0 {
      assert threads[0 := t][1..] == threads[1..];
    } else {
      ThreadsWeightUpdate(threads[1..], i - 1, t, c);
      assert threads[i := t][1..] == threads[1..][i - 1 := t];
    }
  }

  lemma {:induction false} TasksWeightAppend(a: seq<Task>, b: seq<Task>)
    ensures TasksWeight(a + b) == TasksWeight(a) + TasksWeight(b)
  {
    if a == [] {
      assert a + b == b;
    } else {
      TasksWeightAppend(a[1..], b);
      assert (a + b)[1..] == a[1..] + b;
    }
  }

  lemma TasksWeightRemove(tasks: seq<Task>, k: nat)
    requires k < |tasks|
    ensures TasksWeight(tasks[..k] + tasks[k + 1..]) == TasksWeight(tasks) - (2 * tasks[k].hops + 5)
  {
    TasksWeightAppend(tasks[..k], tasks[k + 1..]);
    TasksWeightAppend(tasks[..k], tasks[k..]);
    assert tasks == tasks[..k] + tasks[k..] && tasks[k..][1..] == tasks[k + 1..];
  }

  lemma BeginWeight(calls: nat, maxChain: nat)
    requires calls > 0
    ensures ThreadWeight(Thread(Entering, calls - 1), maxChain) < ThreadWeight(Thread(Away, calls), maxChain)
  {
    assert calls * CallCost(maxChain) == (calls - 1) * CallCost(maxChain) + CallCost(maxChain);
  }

  lemma CallerStepDecreases(s: Sys, l: Label)
    requires Inv(s) && Enabled(s, l) && (l.Begin? || l.Lock? || l.Post? || l.Wait? || l.Wake? || l.Return?)
    ensures Measure(Step(s, l)) < Measure(s)
  {
    var t, t' := s.threads[l.i], Step(s, l).threads[l.i];
    ThreadsWeightUpdate(s.threads, l.i, t', s.maxChain);
    if l.Begin? {
      BeginWeight(t.calls, s.maxChain);
    } else {
      assert ThreadWeight(t', s.maxChain) < ThreadWeight(t, s.maxChain);
      if l.Post? {
        TasksWeightAppend(s.tasks, [Task(l.i, l.hops)]);
        assert TasksWeight([Task(l.i, l.hops)]) == 2 * l.hops + 5 + TasksWeight([]);
        assert ThreadWeight(t, s.maxChain) - ThreadWeight(t', s.maxChain) == 2 * s.maxChain + 6;
      }
    }
  }

  lemma MainStepDecreases(s: Sys, l: Label)
    requires Inv(s) && Enabled(s, l)
    requires l.Take? || l.Chain? || l.Finish? || l.MainLock? || l.Signal? || l.MainUnlock?
    ensures Measure(Step(s, l)) < Measure(s)
  {
    match l
    case Take(k) => TasksWeightRemove(s.tasks, k);
    case Chain =>
      var again := Task(s.main.task.caller, s.main.task.hops - 1);
      TasksWeightAppend(s.tasks, [again]);
      assert TasksWeight([again]) == 2 * again.hops + 5 + TasksWeight([]);
    case Signal(i) =>
      if At(s, i, Blocked) { ThreadsWeightUpdate(s.threads, i, s.threads[i].(pc := Woken), s.maxChain); }
    case _ =>
  }

  lemma StepDecreases(s: Sys, l: Label)
    requires Inv(s) && Enabled(s, l)
    ensures Measure(Step(s, l)) < Measure(s)
  {
    if l.Begin? || l.Lock? || l.Post? || l.Wait? || l.Wake? || l.Return? {
      CallerStepDecreases(s, l);
    } else {
      MainStepDecreases(s, l);
    }
  }

  predicate AllReturned(s: Sys) {
    && (forall i :: 0 <= i < |s.threads| ==> s.threads[i] == Thread(Away, 0))
    && s.tasks == [] && s.main.Resting?
  }

  lemma OwnerMoves(s: Sys) returns (l: Label)
    requires Inv(s) && s.owner.Caller?
    ensures Enabled(s, l)
  {
    var i := s.owner.i;
    match s.threads[i].pc
    case Holding => l := Post(i, 0);
    case Posted => l := Wait(i);
    case _ => l := Return(i);
  }

  lemma NeverStuck(s: Sys) returns (l: Label)
    requires Inv(s) && !AllReturned(s)
    ensures Enabled(s, l)
  {
    if s.owner.Caller? {
      l := OwnerMoves(s);
    } else {
      match s.main
      case Running(_) => l := Finish;
      case Finishing => l := MainLock;
      case Signalling =>
        var i := SignalFindsWaiter(s);
        l := Signal(i);
      case Releasing => l := MainUnlock;
      case Resting =>
        if s.tasks != [] {
          l := Take(0);
        } else {
          var i :| 0 <= i < |s.threads| && s.threads[i] != Thread(Away, 0);
          if IsLive(s.threads[i]) { LivePositive(s.threads, i); }
          l := if s.threads[i].pc.Away? then Begin(i) else if s.threads[i].pc.Entering? then Lock(i) else Wake(i);
        }
    }
  }

  /** No thread stays blocked: every run is finite, and one that cannot be continued has every call returned and
      nothing left to do. */
  lemma RunsEndReturned(s: Sys, ls: seq<Label>)
    requires Inv(s) && EnabledRun(Enabled, Step, s, ls)
    ensures var s' := After(Step, s, ls);
            && |ls| <= Measure(s) - Measure(s')
            && (AllReturned(s') || exists l: Label :: Enabled(s', l))
  {
    forall s: Sys, l: Label | Inv(s) && Enabled(s, l)
      ensures Inv(Step(s, l)) && Measure(Step(s, l)) < Measure(s)
    {
      StepKeepsInv(s, l);
      StepDecreases(s, l);
    }
    Bounded(Enabled, Step, Inv, Measure, s, ls);
    if !AllReturned(After(Step, s, ls)) {
      var l := NeverStuck(After(Step, s, ls));
    }
  }

  // Whose request was it?

  /** A thread has left `Call`, so its `Arguments` are gone, while an event still refers to them. */
  ghost predicate Dangling(s: Sys) {
    exists i: nat :: (At(s, i, Leaving) || At(s, i, Away))
                     && ((exists k :: 0 <= k < |s.tasks| && s.tasks[k].caller == i)
                         || (s.main.Running? && s.main.task.caller == i))
  }

  lemma SingleCallerIsSafe(s: Sys)
    requires Inv(s) && |s.threads| <= 1
    ensures !Dangling(s)
  {
    if i: nat :| At(s, i, Leaving) || At(s, i, Away) {
      assert Live(s.threads[1..]) == 0;
    }
  }

  /** One call of thread `i` up to the wait. */
  lemma CallUpToWait(init: Sys, s: Sys, i: nat) returns (s': Sys)
    requires Reachable(Enabled, Step, init, s) && At(s, i, Away) && s.threads[i].calls > 0 && s.owner.Nobody?
    ensures Reachable(Enabled, Step, init, s')
    ensures s' == Move(s, i, Blocked).(threads := s.threads[i := Thread(Blocked, s.threads[i].calls - 1)],
                                       tasks := s.tasks + [Task(i, 0)])
  {
    var calls := s.threads[i].calls - 1;
    ReachStep(Enabled, Step, init, s, Begin(i));
    var s1 := Step(s, Begin(i));
    ReachStep(Enabled, Step, init, s1, Lock(i));
    var s2 := Step(s1, Lock(i));
    ReachStep(Enabled, Step, init, s2, Post(i, 0));
    var s3 := Step(s2, Post(i, 0));
    ReachStep(Enabled, Step, init, s3, Wait(i));
    s' := Step(s3, Wait(i));
    assert s'.threads == s.threads[i := Thread(Blocked, calls)];
  }

  /** With two threads a signal meant for one can wake the other. */
  lemma TwoCallersDangle(n: nat, calls: nat, maxChain: nat) returns (s: Sys)
    requires n >= 2 && calls >= 1
    ensures Reachable(Enabled, Step, Start(n, calls, maxChain), s) && Dangling(s)
  {
    var init := Start(n, calls, maxChain);
    var none: seq<Label> := [];
    assert EnabledRun(Enabled, Step, init, none) && After(Step, init, none) == init;
    s := CallUpToWait(init, init, 0);
    s := CallUpToWait(init, s, 1);
    assert s.tasks == [Task(0, 0), Task(1, 0)];
    s := FirstTaskWakes(init, s, 1);
    assert At(s, 1, Leaving) && s.tasks[0].caller == 1;
  }

  /** The main thread takes the first task and gets the lock. */
  lemma FirstTaskSignals(init: Sys, s: Sys) returns (s': Sys)
    requires Reachable(Enabled, Step, init, s) && s.main.Resting? && s.owner.Nobody? && s.tasks != []
    ensures Reachable(Enabled, Step, init, s')
    ensures s' == s.(main := Signalling, owner := MainThread, tasks := s.tasks[1..])
  {
    ReachStep(Enabled, Step, init, s, Take(0));
    s' := Step(s, Take(0));
    ReachStep(Enabled, Step, init, s', Finish);
    s' := Step(s', Finish);
    ReachStep(Enabled, Step, init, s', MainLock);
    s' := Step(s', MainLock);
    assert s.tasks[..0] + s.tasks[1..] == s.tasks[1..];
  }

  /** The main thread finishes the first task, and the signal wakes thread `i`. */
  lemma FirstTaskWakes(init: Sys, s: Sys, i: nat) returns (s': Sys)
    requires Reachable(Enabled, Step, init, s) && s.main.Resting? && s.owner.Nobody?
    requires s.tasks != [] && At(s, i, Blocked)
    ensures Reachable(Enabled, Step, init, s') && At(s', i, Leaving) && s'.tasks == s.tasks[1..]
  {
    s' := FirstTaskSignals(init, s);
    ReachStep(Enabled, Step, init, s', Signal(i));
    s' := Step(s', Signal(i));
    ReachStep(Enabled, Step, init, s', MainUnlock);
    s' := Step(s', MainUnlock);
    ReachStep(Enabled, Step, init, s', Wake(i));
    s' := Step(s', Wake(i));
  }

  lemma NobodyCalls(n: nat, maxChain: nat, s: Sys)
    requires Reachable(Enabled, Step, Start(n, 0, maxChain), s)
    ensures s == Start(n, 0, maxChain)
  {
    var init := Start(n, 0, maxChain);
    assert forall l: Label :: !Enabled(init, l);
    var ls: seq<Label> :| EnabledRun(Enabled, Step, init, ls) && After(Step, init, ls) == s;
    assert ls == [];
  }

  /** The wait has no predicate, so a call returns with its own request finished in every run exactly when there is
      at most one calling thread (or nobody calls at all). */
  lemma SafeExactlyForOneCaller(n: nat, calls: nat, maxChain: nat)
    ensures (forall s :: Reachable(Enabled, Step, Start(n, calls, maxChain), s) ==> !Dangling(s))
            <==> n <= 1 || calls == 0
  {
    if n <= 1 || calls == 0 {
      forall s | Reachable(Enabled, Step, Start(n, calls, maxChain), s) ensures !Dangling(s) {
        ReachableInv(n, calls, maxChain, s);
        if n <= 1 {
          SingleCallerIsSafe(s);
        } else {
          NobodyCalls(n, maxChain, s);
        }
      }
    } else {
      var s := TwoCallersDangle(n, calls, maxChain);
    }
  }
}
