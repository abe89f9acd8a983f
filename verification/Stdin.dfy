/** Blocking reads of standard input, and what they share with reads of files.  The file system's mutex starts locked
    and serves as a binary semaphore: a message handler pushes one byte and unlocks, a reader that finds no data locks
    and tries again.  So does a reader of a file whose read was answered -2.  Each try, answer, push, lock and unlock
    is one step; any number of threads may read. */
module Stdin {
  import opened Console
  import opened Runs

  /** `Trying` and `Waiting` are in a read of standard input, `Asking` and `Parked` in a read of a file. */
  datatype Reader = Away | Trying(nbytes: nat, blocking: bool) | Waiting(nbytes: nat) | Asking | Parked

  /** `pushing`: a handler has pushed and not yet unlocked.  `arrived`, `fetched` and `acquired` record the input
      characters handled, the bytes returned to readers in order, and the readers' acquisitions of the mutex.
      Reads ask for at least `least` bytes. */
  datatype Pipe = Pipe(readers: seq<Reader>, buffer: string, locked: bool, pushing: bool,
                       arrived: string, fetched: string, acquired: nat, least: nat)

  datatype Label = Call(i: nat, nbytes: nat, blocking: bool) | Try(i: nat) | Acquire(i: nat)
                 | CallFile(i: nat) | Answer(i: nat, code: int) | Handle(m: Message, beyond: char) | Unlock

  predicate Enabled(s: Pipe, l: Label) {
    match l
    case Call(i, nbytes, _) => i < |s.readers| && s.readers[i].Away? && nbytes >= s.least
    case Try(i) => i < |s.readers| && s.readers[i].Trying?
    case Acquire(i) => i < |s.readers| && (s.readers[i].Waiting? || s.readers[i].Parked?) && !s.locked
    case CallFile(i) => i < |s.readers| && s.readers[i].Away?
    case Answer(i, _) => i < |s.readers| && s.readers[i].Asking?
    case Handle(_, _) => !s.pushing
    case Unlock => s.pushing
  }

  function Step(s: Pipe, l: Label): Pipe {
    if !Enabled(s, l) then s
    else match l
    case Call(i, nbytes, blocking) => s.(readers := s.readers[i := Trying(nbytes, blocking)])
    case Try(i) =>
      var r := s.readers[i];
      var data := Taken(s.buffer, r.nbytes);
      var next := if data == "" && r.blocking then Waiting(r.nbytes) else Away;
      s.(readers := s.readers[i := next], buffer := Left(s.buffer, r.nbytes), fetched := s.fetched + data)
    case Acquire(i) =>
      var next := if s.readers[i].Parked? then Asking else Trying(s.readers[i].nbytes, true);
      s.(readers := s.readers[i := next], locked := true, acquired := s.acquired + 1)
    case CallFile(i) => s.(readers := s.readers[i := Asking])
    case Answer(i, code) => s.(readers := s.readers[i := if code == -2 then Parked else Away])
    case Handle(m, beyond) =>
      if IsInput(m)
      then s.(buffer := s.buffer + [Carried(m, beyond)], arrived := s.arrived + [Carried(m, beyond)], pushing := true)
      else s
    case Unlock => s.(locked := false, pushing := false)
  }

  function Start(readers: nat, least: nat): Pipe {
    Pipe(seq(readers, _ => Away), "", true, false, "", "", 0, least)
  }

  ghost predicate IsRun(readers: nat, least: nat, ls: seq<Label>) {
    EnabledRun(Enabled, Step, Start(readers, least), ls)
  }

  ghost function Ran(readers: nat, least: nat, ls: seq<Label>): Pipe {
    After(Step, Start(readers, least), ls)
  }

  lemma StartReached(init: Pipe)
    ensures Reachable(Enabled, Step, init, init)
  {
    var none: seq<Label> := [];
    assert EnabledRun(Enabled, Step, init, none) && After(Step, init, none) == init;
  }

  /** A try is one read of a port delegate on standard input: it fetches and leaves what that does, and the reader waits
      exactly if the answer is -2. */
  lemma TryIsRead(s: Pipe, i: nat)
    requires Enabled(s, Try(i))
    ensures var r, s' := s.readers[i], Step(s, Try(i));
            var (result, data, rest) := ReadAnswer(Named("/dev/stdin").(blocking := r.blocking), s.buffer, r.nbytes);
            && s'.fetched == s.fetched + data && s'.buffer == rest
            && s'.readers[i] == (if result == -2 then Waiting(r.nbytes) else Away)
  {
  }

  // What holds for any number of readers

  /** Nothing is lost, duplicated or reordered, and every lock taken was paid for by a message. */
  predicate Conserves(s: Pipe) {
    && s.fetched + s.buffer == s.arrived
    && s.acquired + Count(!s.locked) + Count(s.pushing) <= |s.arrived|
  }

  lemma StepConserves(s: Pipe, l: Label)
    requires Conserves(s) && Enabled(s, l)
    ensures Conserves(Step(s, l))
  {
    match l
    case Try(i) =>
      var n := s.readers[i].nbytes;
      assert s.buffer == Taken(s.buffer, n) + Left(s.buffer, n);
      assert s.fetched + (Taken(s.buffer, n) + Left(s.buffer, n)) == s.fetched + Taken(s.buffer, n) + Left(s.buffer, n);
    case Handle(m, beyond) =>
      if IsInput(m) {
        assert s.fetched + (s.buffer + [Carried(m, beyond)]) == s.fetched + s.buffer + [Carried(m, beyond)];
      }
    case _ =>
  }

  /** The input characters of a run, in order. */
  function Typed(ls: seq<Label>): string {
    if ls == [] then ""
    else (if ls[0].Handle? && IsInput(ls[0].m) then [Carried(ls[0].m, ls[0].beyond)] else "") + Typed(ls[1..])
  }

  lemma {:induction false} ArrivedIsTyped(s: Pipe, ls: seq<Label>)
    requires EnabledRun(Enabled, Step, s, ls)
    ensures After(Step, s, ls).arrived == s.arrived + Typed(ls)
    decreases |ls|
  {
    if ls == [] {
      assert s.arrived + "" == s.arrived;
    } else {
      var now := if ls[0].Handle? && IsInput(ls[0].m) then [Carried(ls[0].m, ls[0].beyond)] else "";
      ArrivedIsTyped(Step(s, ls[0]), ls[1..]);
      assert Step(s, ls[0]).arrived == s.arrived + now;
      assert s.arrived + now + Typed(ls[1..]) == s.arrived + (now + Typed(ls[1..]));
    }
  }

  /** In every run, with any number of readers: the bytes returned so far followed by the buffer are the characters
      of the messages in order, and the mutex was taken at most once per message. */
  lemma StdinIsFifo(readers: nat, least: nat, ls: seq<Label>)
    requires IsRun(readers, least, ls)
    ensures var s := Ran(readers, least, ls);
            && s.fetched + s.buffer == Typed(ls)
            && s.acquired <= |Typed(ls)|
  {
    forall s: Pipe, l: Label | Conserves(s) && Enabled(s, l) ensures Conserves(Step(s, l)) {
      StepConserves(s, l);
    }
    Invariance(Enabled, Step, Conserves, Start(readers, least), ls);
    ArrivedIsTyped(Start(readers, least), ls);
    assert "" + Typed(ls) == Typed(ls);
  }

  /** The messages handled in a run. */
  function Messages(ls: seq<Label>): seq<Message> {
    if ls == [] then [] else (if ls[0].Handle? then [ls[0].m] else []) + Messages(ls[1..])
  }

  function KeyMessages(keys: string): seq<Message> {
    if keys == "" then [] else [KeyMessage(keys[0])] + KeyMessages(keys[1..])
  }

  lemma {:induction false} TypedKeys(ls: seq<Label>, keys: string)
    requires Messages(ls) == KeyMessages(keys)
    ensures Typed(ls) == keys
    decreases |ls|
  {
    if ls == [] {
    } else if ls[0].Handle? {
      assert Messages(ls)[0] == ls[0].m && Messages(ls)[1..] == Messages(ls[1..]);
      assert KeyMessages(keys)[1..] == KeyMessages(keys[1..]);
      KeyArrives(keys[0], ls[0].beyond);
      TypedKeys(ls[1..], keys[1..]);
      assert keys == [keys[0]] + keys[1..];
    } else {
      assert Messages(ls) == Messages(ls[1..]);
      TypedKeys(ls[1..], keys);
    }
  }

  /** In every run whose messages are what the page posts for some keys, with any number of readers: what the readers
      got so far, followed by what is buffered, are these keys in order. */
  lemma KeysReachReaders(readers: nat, least: nat, ls: seq<Label>, keys: string)
    requires IsRun(readers, least, ls) && Messages(ls) == KeyMessages(keys)
    ensures Ran(readers, least, ls).fetched + Ran(readers, least, ls).buffer == keys
  {
    StdinIsFifo(readers, least, ls);
    TypedKeys(ls, keys);
  }

  // Sleeping on data

  /** Data is there, no handler is about to unlock, nobody is trying to read, and a reader waits for a mutex that is
      locked: only another message can wake it. */
  predicate SleepsOnData(s: Pipe) {
    && s.buffer != "" && !s.pushing && s.locked
    && (exists i :: 0 <= i < |s.readers| && s.readers[i].Waiting?)
    && (forall i :: 0 <= i < |s.readers| ==> !s.readers[i].Trying?)
  }

  /** With one reader that asks for something. */
  predicate Awake(s: Pipe) {
    && |s.readers| == 1 && s.least >= 1
    && (s.readers[0].Trying? ==> s.readers[0].nbytes >= 1)
    && (s.readers[0].Waiting? ==> s.readers[0].nbytes >= 1)
    && (s.readers[0].Waiting? && s.buffer != "" && !s.pushing ==> !s.locked)
  }

  lemma StepKeepsAwake(s: Pipe, l: Label)
    requires Awake(s) && Enabled(s, l)
    ensures Awake(Step(s, l))
  {
  }

  lemma AlwaysAwake(least: nat, ls: seq<Label>)
    requires least >= 1 && IsRun(1, least, ls)
    ensures Awake(Ran(1, least, ls))
  {
    forall s: Pipe, l: Label | Awake(s) && Enabled(s, l) ensures Awake(Step(s, l)) {
      StepKeepsAwake(s, l);
    }
    Invariance(Enabled, Step, Awake, Start(1, least), ls);
  }

  lemma NoReaders(least: nat, ls: seq<Label>)
    requires IsRun(0, least, ls)
    ensures Ran(0, least, ls).readers == []
  {
    Invariance(Enabled, Step, (s: Pipe) => s.readers == [], Start(0, least), ls);
  }

  /** Messages arriving one after the other unlock the mutex once for all. */
  lemma {:induction false} Arrivals(init: Pipe, s: Pipe, n: nat) returns (s': Pipe)
    requires Reachable(Enabled, Step, init, s) && !s.pushing && n >= 1
    ensures Reachable(Enabled, Step, init, s') && !s'.pushing && !s'.locked
    ensures s'.readers == s.readers && |s'.buffer| == |s.buffer| + n && s'.least == s.least
    decreases n
  {
    var m := KeyMessage('x');
    ReachStep(Enabled, Step, init, s, Handle(m, 'x'));
    var s1 := Step(s, Handle(m, 'x'));
    ReachStep(Enabled, Step, init, s1, Unlock);
    s' := Step(s1, Unlock);
    if n > 1 {
      s' := Arrivals(init, s', n - 1);
    }
  }

  lemma CallAndWait(init: Pipe, s: Pipe, i: nat, nbytes: nat) returns (s': Pipe)
    requires Reachable(Enabled, Step, init, s) && i < |s.readers| && s.readers[i].Away? && nbytes >= s.least
    requires s.buffer == "" || nbytes == 0
    ensures Reachable(Enabled, Step, init, s') && s' == s.(readers := s.readers[i := Waiting(nbytes)])
  {
    ReachStep(Enabled, Step, init, s, Call(i, nbytes, true));
    var s1 := Step(s, Call(i, nbytes, true));
    ReachStep(Enabled, Step, init, s1, Try(i));
    s' := Step(s1, Try(i));
    assert s'.readers == s.readers[i := Waiting(nbytes)];
    assert s.fetched + "" == s.fetched;
  }

  /** Two readers: two messages unlock once, the first reader takes that, and the second is left behind. */
  lemma TwoReadersSleep(readers: nat, least: nat) returns (s: Pipe)
    requires readers >= 2
    ensures Reachable(Enabled, Step, Start(readers, least), s) && SleepsOnData(s)
  {
    var init, n := Start(readers, least), if least == 0 then 1 else least;
    StartReached(init);
    s := CallAndWait(init, init, 0, n);
    s := CallAndWait(init, s, 1, n);
    s := Arrivals(init, s, n + 1);
    ReachStep(Enabled, Step, init, s, Acquire(0));
    s := Step(s, Acquire(0));
    ReachStep(Enabled, Step, init, s, Try(0));
    s := Step(s, Try(0));
    assert s.readers[1].Waiting?;
  }

  /** A read of nothing waits although there is data, and uses up the unlock. */
  lemma EmptyReadSleeps() returns (s: Pipe)
    ensures Reachable(Enabled, Step, Start(1, 0), s) && SleepsOnData(s)
  {
    var init := Start(1, 0);
    StartReached(init);
    s := Arrivals(init, init, 1);
    s := CallAndWait(init, s, 0, 0);
    ReachStep(Enabled, Step, init, s, Acquire(0));
    s := Step(s, Acquire(0));
    ReachStep(Enabled, Step, init, s, Try(0));
    s := Step(s, Try(0));
    assert s.readers[0].Waiting?;
  }

  /** Readers never sleep on data, in every interleaving, exactly when there is at most one reader and it never asks
      for zero bytes. */
  lemma NeverSleepsOnData(readers: nat, least: nat)
    ensures (forall s :: Reachable(Enabled, Step, Start(readers, least), s) ==> !SleepsOnData(s))
            <==> readers == 0 || (readers == 1 && least >= 1)
  {
    if readers >= 2 {
      var s := TwoReadersSleep(readers, least);
    } else if readers == 1 && least == 0 {
      var s := EmptyReadSleeps();
    } else {
      forall s | Reachable(Enabled, Step, Start(readers, least), s) ensures !SleepsOnData(s) {
        var init := Start(readers, least);
        var ls: seq<Label> :| EnabledRun(Enabled, Step, init, ls) && After(Step, init, ls) == s;
        if readers == 0 {
          NoReaders(least, ls);
        } else {
          AlwaysAwake(least, ls);
        }
      }
    }
  }

  /** With one reader asking for at least one byte: whenever it waits, data is there and no handler is about to
      unlock, the mutex is free. */
  lemma WaitingReaderCanProceed(least: nat, ls: seq<Label>)
    requires least >= 1 && IsRun(1, least, ls)
    ensures var s := Ran(1, least, ls);
            |s.readers| == 1 && (s.readers[0].Waiting? && s.buffer != "" && !s.pushing ==> Enabled(s, Acquire(0)))
  {
    AlwaysAwake(least, ls);
  }

  // Reads of files

  /** A reader that waits for the mutex, for standard input or for a file. */
  predicate Sleeping(r: Reader) {
    r.Waiting? || r.Parked?
  }

  /** While the mutex is locked and no handler is about to unlock it, a sleeping reader sleeps on until an input
      message comes, whatever the other threads do. */
  lemma {:induction false} OnlyMessagesWake(s: Pipe, ls: seq<Label>, i: nat)
    requires EnabledRun(Enabled, Step, s, ls) && Typed(ls) == ""
    requires s.locked && !s.pushing && i < |s.readers| && Sleeping(s.readers[i])
    ensures var s' := After(Step, s, ls); |s'.readers| == |s.readers| && s'.readers[i] == s.readers[i]
    decreases |ls|
  {
    if ls == [] {
    } else {
      OnlyMessagesWake(Step(s, ls[0]), ls[1..], i);
    }
  }

  lemma {:induction false} SilentTyping(s: Pipe, ls: seq<Label>)
    requires EnabledRun(Enabled, Step, s, ls) && Typed(ls) == "" && s.locked && !s.pushing
    ensures After(Step, s, ls).locked && !After(Step, s, ls).pushing
    decreases |ls|
  {
    if ls == [] {
    } else {
      SilentTyping(Step(s, ls[0]), ls[1..]);
    }
  }

  /** One call of a file's delegate ends the read exactly if it is not answered -2.  If it is, before anything has been
      typed, the read of the file does not end until a key is typed, in any run. */
  lemma FileReadWaitsForInput(readers: nat, least: nat, before: seq<Label>, i: nat, code: int, later: seq<Label>)
    requires IsRun(readers, least, before) && Typed(before) == "" && Typed(later) == ""
    requires Enabled(Ran(readers, least, before), Answer(i, code))
    requires EnabledRun(Enabled, Step, Step(Ran(readers, least, before), Answer(i, code)), later)
    ensures var s := Step(Ran(readers, least, before), Answer(i, code));
            && i < |s.readers| && (s.readers[i].Away? <==> code != -2)
            && (code == -2 ==> |After(Step, s, later).readers| == |s.readers| && After(Step, s, later).readers[i].Parked?)
  {
    SilentTyping(Start(readers, least), before);
    if code == -2 {
      OnlyMessagesWake(Step(Ran(readers, least, before), Answer(i, code)), later, i);
    }
  }
}
