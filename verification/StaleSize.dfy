/** A run in which the cached size is not the real size: on an empty file, a write that stores nothing after a seek
    raises it, lseek to the end returns it, and an fstat whose query fails reports it as a success. */
module StaleSize {
  import opened Wrappers
  import opened Html5
  import opened AtomicFile
  import opened AsyncCall
  import opened Runs
  import opened Scripts

  const READ_WRITE: OFlag := OFlag(ReadWrite, true, false, false, false)

  lemma WriteNothing(init: Sys, s: Sys) returns (s': Sys)
    requires Reachable(Enabled, Step, init, s) && Quiet(s) && s.d.io && s.standing.writable
    requires s.d.info.size < s.d.offset
    ensures Reachable(Enabled, Step, init, s') && Quiet(s')
    ensures s'.contents == s.contents && s'.d.io && s'.d.info.size == s.d.offset
    ensures |s'.trace| == |s.trace| + 1 && s'.trace[..|s.trace|] == s.trace
    ensures s'.trace[|s.trace|].op == Write([]) && s'.trace[|s.trace|].result == Code(0)
  {
    StartCall(init, s, Write([]));
    s' := HandlerRun(init, Called(s, Write([])));
    s' := Completion(init, s', Outcome(0, Regular, []));
    s' := HandlerRun(init, s');
    FinishCall(init, s');
    s' := Returned(s');
  }

  lemma FstatFailing(init: Sys, s: Sys) returns (s': Sys)
    requires Reachable(Enabled, Step, init, s) && Quiet(s) && s.d.io
    ensures Reachable(Enabled, Step, init, s') && Quiet(s') && s'.contents == s.contents
    ensures |s'.trace| == |s.trace| + 1 && s'.trace[..|s.trace|] == s.trace
    ensures s'.trace[|s.trace|].op == Fstat && s'.trace[|s.trace|].codes == [-2]
    ensures s'.trace[|s.trace|].result == Code(0) && s'.trace[|s.trace|].st == Some(StatBuf(s.d.info.kind, s.d.info.size))
  {
    StartCall(init, s, Fstat);
    s' := HandlerRun(init, Called(s, Fstat));
    s' := Completion(init, s', Outcome(-2, Regular, []));
    s' := HandlerRun(init, s');
    FinishCall(init, s');
    s' := Returned(s');
  }

  /** The file is opened, and a write of nothing at 5 raises the cached size. */
  lemma RaisedSize(init: Sys, s: Sys) returns (s': Sys)
    requires Reachable(Enabled, Step, init, s) && Quiet(s) && s.contents == [] && s.trace == []
    ensures Reachable(Enabled, Step, init, s') && Quiet(s') && s'.contents == [] && s'.d.io && s'.d.info.size == 5
    ensures |s'.trace| == 3 && s'.trace[0].op == Open(READ_WRITE) && s'.trace[0].result == Code(0)
  {
    var s1 := OpenOnce(init, s, READ_WRITE);
    var s2 := SeekOnce(init, s1, 5, SeekSet);
    s' := WriteNothing(init, s2);
    assert s'.trace[0] == s2.trace[0] == s1.trace[0];
  }

  /** A reachable state after five calls on an empty file: it is still empty, but the seek to the end returned 5 and
      the fstat reported 5. */
  lemma EmptyFileOfSizeFive(junk: FileInfo) returns (s: Sys)
    ensures Reachable(Enabled, Step, Initial(Some([]), junk, true), s)
    ensures s.caller.Idle? && s.contents == [] && |s.trace| == 5
    ensures s.trace[0].op == Open(READ_WRITE) && s.trace[0].result == Code(0)
    ensures s.trace[3].op == Seek(0, SeekEnd) && s.trace[3].result == Code(5)
    ensures s.trace[4].op == Fstat && s.trace[4].result == Code(0)
    ensures s.trace[4].st.Some? && s.trace[4].st.value.size == 5
  {
    var init := Initial(Some([]), junk, true);
    InitialReached(Some([]), junk, true);
    var s3 := RaisedSize(init, init);
    var s4 := SeekOnce(init, s3, 0, SeekEnd);
    s := FstatFailing(init, s4);
    assert s.trace[0] == s4.trace[0] == s3.trace[0];
    assert s.trace[3] == s4.trace[3];
  }
}
