/** Calls of the asynchronous system played step by step, to show that states can be reached. */
module Scripts {
  import opened Wrappers
  import opened Html5
  import opened AtomicFile
  import opened AsyncCall
  import opened Runs

  /** Nothing is in progress. */
  predicate Quiet(s: Sys) {
    && s.caller.Idle? && s.main.Resting? && s.owner.Nobody? && s.posted == 0 && s.pending == []
    && s.mounted && !s.d.waiting && !s.d.querying
  }

  lemma StartCall(init: Sys, s: Sys, op: Op)
    requires Reachable(Enabled, Step, init, s) && Quiet(s) && Legal(op, s.d)
    ensures Reachable(Enabled, Step, init, Called(s, op))
  {
    ReachStep(Enabled, Step, init, s, Begin(op));
    var s1 := Step(s, Begin(op));
    ReachStep(Enabled, Step, init, s1, Lock);
    var s2 := Step(s1, Lock);
    ReachStep(Enabled, Step, init, s2, Post);
    var s3 := Step(s2, Post);
    ReachStep(Enabled, Step, init, s3, Wait);
    var s4 := Step(s3, Wait);
    ReachStep(Enabled, Step, init, s4, Take);
    assert Step(s4, Take) == Called(s, op);
  }

  function Returned(s: Sys): Sys {
    s.(caller := Idle, main := Resting, owner := Nobody, trace := s.trace + [EntryOf(s)])
  }

  lemma FinishCall(init: Sys, s: Sys)
    requires Reachable(Enabled, Step, init, s) && s.caller.Blocked? && s.main.Finishing? && s.owner.Nobody?
    ensures Reachable(Enabled, Step, init, Returned(s))
  {
    ReachStep(Enabled, Step, init, s, MainLock);
    var s1 := Step(s, MainLock);
    ReachStep(Enabled, Step, init, s1, Signal);
    var s2 := Step(s1, Signal);
    ReachStep(Enabled, Step, init, s2, MainUnlock);
    var s3 := Step(s2, MainUnlock);
    ReachStep(Enabled, Step, init, s3, Wake);
    var s4 := Step(s3, Wake);
    ReachStep(Enabled, Step, init, s4, Return);
    assert Step(s4, Return) == Returned(s);
  }

  /** One handler run. */
  lemma HandlerRun(init: Sys, s: Sys) returns (s': Sys)
    requires Reachable(Enabled, Step, init, s) && s.main.Running? && Legal(s.args.op, s.d)
    ensures Reachable(Enabled, Step, init, s') && s' == Proxy(s, PP_OK_COMPLETIONPENDING)
  {
    ReachStep(Enabled, Step, init, s, Switch(PP_OK_COMPLETIONPENDING));
    s' := Step(s, Switch(PP_OK_COMPLETIONPENDING));
  }

  /** The completion of the only pending request. */
  lemma Completion(init: Sys, s: Sys, o: Outcome) returns (s': Sys)
    requires Reachable(Enabled, Step, init, s) && s.main.Resting?
    requires |s.pending| == 1 && ValidOutcome(s.pending[0], ViewOf(s), o)
    ensures Reachable(Enabled, Step, init, s') && s' == Step(s, Complete(o))
  {
    ReachStep(Enabled, Step, init, s, Complete(o));
    s' := Step(s, Complete(o));
  }

  /** The run so far, with one more call at the end. */
  predicate OneMore(s: Sys, s': Sys, op: Op) {
    && |s'.trace| == |s.trace| + 1 && s'.trace[..|s.trace|] == s.trace
    && s'.trace[|s.trace|].op == op
  }

  /** `FileIO::Open` has completed with 0, and the handler is about to run again. */
  predicate Granted(s: Sys, s': Sys, oflag: OFlag) {
    && s'.main.Running? && s'.main.callback == 0 && s'.caller.Blocked? && s'.owner.Nobody?
    && s'.posted == 0 && s'.pending == [] && s'.mounted && s'.args.op == Open(oflag) && s'.trace == s.trace
    && s'.d == s.d.(io := true, waiting := true, querying := false) && s'.contents == Truncated(oflag, s.contents)
    && s'.standing == Standing(true, ForReading(oflag), ForWriting(oflag))
  }

  lemma GrantOpen(init: Sys, s: Sys, oflag: OFlag) returns (s': Sys)
    requires Reachable(Enabled, Step, init, s) && Quiet(s)
    requires MayOpen(oflag.creat, oflag.excl, s.standing.present)
    ensures Reachable(Enabled, Step, init, s') && Granted(s, s', oflag)
  {
    StartCall(init, s, Open(oflag));
    s' := HandlerRun(init, Called(s, Open(oflag)));
    s' := Completion(init, s', Outcome(0, Regular, []));
  }

  /** An open that the browser grants. */
  lemma OpenOnce(init: Sys, s: Sys, oflag: OFlag) returns (s': Sys)
    requires Reachable(Enabled, Step, init, s) && Quiet(s)
    requires MayOpen(oflag.creat, oflag.excl, s.standing.present)
    ensures Reachable(Enabled, Step, init, s') && Quiet(s') && OneMore(s, s', Open(oflag))
    ensures s'.trace[|s.trace|].result == Code(0)
    ensures s'.contents == Truncated(oflag, s.contents) && s'.d.io && s'.d.info.size == |s'.contents|
    ensures s'.standing == Standing(true, ForReading(oflag), ForWriting(oflag))
    ensures s'.d.offset == if oflag.append then |s'.contents| else s.d.offset
  {
    s' := GrantOpen(init, s, oflag);
    s' := HandlerRun(init, s');
    s' := Completion(init, s', Outcome(0, Regular, []));
    s' := HandlerRun(init, s');
    FinishCall(init, s');
    s' := Returned(s');
  }

  lemma SeekOnce(init: Sys, s: Sys, delta: int, whence: Whence) returns (s': Sys)
    requires Reachable(Enabled, Step, init, s) && Quiet(s) && whence != SeekBad
    ensures Reachable(Enabled, Step, init, s') && Quiet(s')
    ensures s'.contents == s.contents && s'.standing == s.standing && s'.d == s.d.(offset := s'.d.offset)
    ensures |s'.trace| == |s.trace| + 1 && s'.trace[..|s.trace|] == s.trace
    ensures s'.trace[|s.trace|].op == Seek(delta, whence) && s'.trace[|s.trace|].result == Code(s'.d.offset)
    ensures s'.d.offset == delta + (match whence case SeekSet => 0 case SeekCur => s.d.offset case _ => s.d.info.size)
  {
    StartCall(init, s, Seek(delta, whence));
    s' := HandlerRun(init, Called(s, Seek(delta, whence)));
    FinishCall(init, s');
    s' := Returned(s');
  }

  /** A read of one byte that is there. */
  lemma ReadOne(init: Sys, s: Sys) returns (s': Sys)
    requires Reachable(Enabled, Step, init, s) && Quiet(s) && s.d.io && s.standing.readable
    requires 0 <= s.d.offset < |s.contents|
    ensures Reachable(Enabled, Step, init, s') && Quiet(s') && OneMore(s, s', Read(1))
    ensures s'.trace[|s.trace|].result == Code(1)
    ensures s'.trace[|s.trace|].buf == s.contents[s.d.offset..s.d.offset + 1]
  {
    StartCall(init, s, Read(1));
    s' := HandlerRun(init, Called(s, Read(1)));
    s' := Completion(init, s', Outcome(1, Regular, []));
    s' := HandlerRun(init, s');
    FinishCall(init, s');
    s' := Returned(s');
    assert [] + s.contents[s.d.offset..s.d.offset + 1] == s.contents[s.d.offset..s.d.offset + 1];
  }

  /** A write that stores all of it. */
  lemma WriteAll(init: Sys, s: Sys, data: seq<byte>) returns (s': Sys)
    requires Reachable(Enabled, Step, init, s) && Quiet(s) && s.d.io && s.standing.writable
    requires 0 <= s.d.offset && data != []
    ensures Reachable(Enabled, Step, init, s') && Quiet(s') && OneMore(s, s', Write(data))
    ensures s'.trace[|s.trace|].result == Code(|data|)
    ensures s'.contents == Overlay(s.contents, s.d.offset, data) && s'.d.io && s'.standing == s.standing
  {
    StartCall(init, s, Write(data));
    s' := HandlerRun(init, Called(s, Write(data)));
    s' := Completion(init, s', Outcome(|data|, Regular, []));
    s' := HandlerRun(init, s');
    FinishCall(init, s');
    s' := Returned(s');
    assert data[..|data|] == data;
  }

  /** The initial state, once the file system object is there. */
  function Ready(file: Option<seq<byte>>, junk: FileInfo, mounted: bool): Sys {
    Initial(file, junk, mounted).(mounted := true)
  }

  lemma InitialReached(file: Option<seq<byte>>, junk: FileInfo, mounted: bool)
    ensures Reachable(Enabled, Step, Initial(file, junk, mounted), Ready(file, junk, mounted))
    ensures Quiet(Ready(file, junk, mounted))
  {
    var init, none: seq<Label> := Initial(file, junk, mounted), [];
    assert EnabledRun(Enabled, Step, init, none) && After(Step, init, none) == init;
    if !mounted {
      ReachStep(Enabled, Step, init, init, Elsewhere);
    }
  }
}
