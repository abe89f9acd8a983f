/** What the flags of an open mean, to the point: for each file and each combination of flags, exactly when an open can
    succeed, when a read through it can return bytes, and when a write through it can store bytes. */
module OpenModes {
  import opened Wrappers
  import opened Html5
  import opened AtomicFile
  import opened AsyncCall
  import opened Runs
  import opened Scripts

  ghost predicate CanReach(file: Option<seq<byte>>, junk: FileInfo, mounted: bool, s: Sys) {
    Reachable(Enabled, Step, Initial(file, junk, mounted), s)
  }

  lemma ReachedByRun(file: Option<seq<byte>>, junk: FileInfo, mounted: bool, s: Sys) returns (ls: seq<Label>)
    requires CanReach(file, junk, mounted, s)
    ensures IsRun(file, junk, mounted, ls) && Ran(file, junk, mounted, ls) == s
  {
    var init := Initial(file, junk, mounted);
    ls :| EnabledRun(Enabled, Step, init, ls) && After(Step, init, ls) == s;
  }

  /** The first call was this open, and it returned 0. */
  predicate OpenedWith(s: Sys, oflag: OFlag) {
    s.trace != [] && s.trace[0].op == Open(oflag) && s.trace[0].result == Code(0)
  }

  lemma OpenedFrom(file: Option<seq<byte>>, junk: FileInfo, mounted: bool, s: Sys, oflag: OFlag)
    requires CanReach(file, junk, mounted, s) && OpenedWith(s, oflag)
    ensures (file.Some? || oflag.creat) && !(file.Some? && oflag.creat && oflag.excl)
    ensures Atomic(s.trace[0]) && RunFrom(s.trace[0].post, s.trace[1..])
    ensures s.trace[0].pre.contents == ContentsOf(file)
  {
    var ls := ReachedByRun(file, junk, mounted, s);
    CallsAreAtomic(file, junk, mounted, ls);
    OpenGrants(s.trace[0]);
  }

  /** An open can succeed exactly if the file is there or O_CREAT is given, and not if it is there and both O_CREAT and
      O_EXCL are. */
  lemma OpenSucceedsExactly(file: Option<seq<byte>>, junk: FileInfo, mounted: bool, oflag: OFlag)
    ensures (exists s: Sys :: CanReach(file, junk, mounted, s) && OpenedWith(s, oflag))
            <==> (file.Some? || oflag.creat) && !(file.Some? && oflag.creat && oflag.excl)
  {
    if s: Sys :| CanReach(file, junk, mounted, s) && OpenedWith(s, oflag) {
      OpenedFrom(file, junk, mounted, s, oflag);
    }
    if MayOpen(oflag.creat, oflag.excl, file.Some?) {
      InitialReached(file, junk, mounted);
      var s := OpenOnce(Initial(file, junk, mounted), Ready(file, junk, mounted), oflag);
      assert CanReach(file, junk, mounted, s) && OpenedWith(s, oflag);
    }
  }

  /** A later call, without another open, was a read that returned bytes, or a write that stored some. */
  predicate HasRead(s: Sys) {
    exists i :: 1 <= i < |s.trace| && s.trace[i].op.Read? && s.trace[i].buf != []
  }

  predicate HasWritten(s: Sys) {
    exists i :: 1 <= i < |s.trace| && s.trace[i].op.Write? && s.trace[i].result.Code? && s.trace[i].result.code > 0
  }

  ghost predicate CanReadAfter(file: Option<seq<byte>>, junk: FileInfo, mounted: bool, oflag: OFlag) {
    exists s: Sys :: CanReach(file, junk, mounted, s) && OpenedWith(s, oflag) && NoOpens(s.trace[1..]) && HasRead(s)
  }

  ghost predicate CanWriteAfter(file: Option<seq<byte>>, junk: FileInfo, mounted: bool, oflag: OFlag) {
    exists s: Sys :: CanReach(file, junk, mounted, s) && OpenedWith(s, oflag) && NoOpens(s.trace[1..]) && HasWritten(s)
  }

  lemma WritingNeedsWrite(file: Option<seq<byte>>, junk: FileInfo, mounted: bool, s: Sys, oflag: OFlag)
    requires CanReach(file, junk, mounted, s) && OpenedWith(s, oflag) && NoOpens(s.trace[1..]) && HasWritten(s)
    ensures oflag.access == WriteOnly || oflag.access == ReadWrite
  {
    OpenedFrom(file, junk, mounted, s, oflag);
    var es := s.trace[1..];
    var i :| 1 <= i < |s.trace| && s.trace[i].op.Write? && s.trace[i].result.Code? && s.trace[i].result.code > 0;
    assert es[i - 1] == s.trace[i];
    if oflag.access == ReadOnly || oflag.access == NoAccess {
      ReadOnlyNeverChanges(s.trace[0], es);
    }
  }

  lemma ReadingNeedsRead(file: Option<seq<byte>>, junk: FileInfo, mounted: bool, s: Sys, oflag: OFlag)
    requires CanReach(file, junk, mounted, s) && OpenedWith(s, oflag) && NoOpens(s.trace[1..]) && HasRead(s)
    ensures oflag.access == ReadWrite || (oflag.access == ReadOnly && !oflag.trunc && ContentsOf(file) != [])
  {
    OpenedFrom(file, junk, mounted, s, oflag);
    var open, es := s.trace[0], s.trace[1..];
    var i :| 1 <= i < |s.trace| && s.trace[i].op.Read? && s.trace[i].buf != [];
    assert es[i - 1] == s.trace[i];
    if oflag.access == WriteOnly || oflag.access == NoAccess {
      WriteOnlyNeverReads(open, es);
    } else if oflag.access == ReadOnly {
      OpenGrants(open);
      UnwritableRun(open.post, es);
      RunAt(open.post, es, i - 1);
    }
  }

  lemma WriteWitness(file: Option<seq<byte>>, junk: FileInfo, mounted: bool, oflag: OFlag)
    requires MayOpen(oflag.creat, oflag.excl, file.Some?) && ForWriting(oflag)
    ensures CanWriteAfter(file, junk, mounted, oflag)
  {
    var init := Initial(file, junk, mounted);
    InitialReached(file, junk, mounted);
    var s1 := OpenOnce(init, Ready(file, junk, mounted), oflag);
    var s := WriteAll(init, s1, [0]);
    assert s.trace[0] == s1.trace[0] && s.trace[1].op.Write?;
    assert CanReach(file, junk, mounted, s) && OpenedWith(s, oflag) && NoOpens(s.trace[1..]) && HasWritten(s);
  }

  /** Reading the first byte, after a seek to it. */
  lemma ReadFirst(init: Sys, s: Sys) returns (s': Sys)
    requires Reachable(Enabled, Step, init, s) && Quiet(s) && s.d.io && s.standing.readable && s.contents != []
    ensures Reachable(Enabled, Step, init, s') && |s'.trace| == |s.trace| + 2 && s'.trace[..|s.trace|] == s.trace
    ensures s'.trace[|s.trace|].op.Seek? && s'.trace[|s.trace| + 1].op.Read? && s'.trace[|s.trace| + 1].buf != []
  {
    var s1 := SeekOnce(init, s, 0, SeekSet);
    s' := ReadOne(init, s1);
    assert s'.trace[|s.trace|] == s'.trace[..|s1.trace|][|s.trace|];
    assert s'.trace[..|s.trace|] == s'.trace[..|s1.trace|][..|s.trace|];
  }

  lemma ReadWitness(file: Option<seq<byte>>, junk: FileInfo, mounted: bool, oflag: OFlag)
    requires MayOpen(oflag.creat, oflag.excl, file.Some?) && ForReading(oflag)
    requires !oflag.trunc && ContentsOf(file) != []
    ensures CanReadAfter(file, junk, mounted, oflag)
  {
    var init := Initial(file, junk, mounted);
    InitialReached(file, junk, mounted);
    var s1 := OpenOnce(init, Ready(file, junk, mounted), oflag);
    var s := ReadFirst(init, s1);
    assert s.trace[0] == s.trace[..|s1.trace|][0];
    assert CanReach(file, junk, mounted, s) && OpenedWith(s, oflag) && NoOpens(s.trace[1..]) && HasRead(s);
  }

  lemma WriteReadWitness(file: Option<seq<byte>>, junk: FileInfo, mounted: bool, oflag: OFlag)
    requires MayOpen(oflag.creat, oflag.excl, file.Some?) && oflag.access == ReadWrite
    ensures CanReadAfter(file, junk, mounted, oflag)
  {
    var init := Initial(file, junk, mounted);
    InitialReached(file, junk, mounted);
    var s1 := OpenOnce(init, Ready(file, junk, mounted), oflag);
    var s2 := WriteAll(init, s1, [0]);
    var s := ReadFirst(init, s2);
    assert s.trace[0] == s.trace[..|s2.trace|][0] && s.trace[1] == s.trace[..|s2.trace|][1];
    assert s2.trace[0] == s2.trace[..|s1.trace|][0];
    assert CanReach(file, junk, mounted, s) && OpenedWith(s, oflag) && NoOpens(s.trace[1..]) && HasRead(s);
  }

  /** A write through an open can store bytes exactly if the open can succeed and asked for O_WRONLY or O_RDWR. */
  lemma WritesExactlyIfOpenedForWriting(file: Option<seq<byte>>, junk: FileInfo, mounted: bool, oflag: OFlag)
    ensures CanWriteAfter(file, junk, mounted, oflag)
            <==> && (file.Some? || oflag.creat) && !(file.Some? && oflag.creat && oflag.excl)
                 && (oflag.access == WriteOnly || oflag.access == ReadWrite)
  {
    if CanWriteAfter(file, junk, mounted, oflag) {
      var s: Sys :| CanReach(file, junk, mounted, s) && OpenedWith(s, oflag) && NoOpens(s.trace[1..]) && HasWritten(s);
      OpenedFrom(file, junk, mounted, s, oflag);
      WritingNeedsWrite(file, junk, mounted, s, oflag);
    }
    if MayOpen(oflag.creat, oflag.excl, file.Some?) && ForWriting(oflag) {
      WriteWitness(file, junk, mounted, oflag);
    }
  }

  /** A read through an open can return bytes exactly if the open can succeed and asked for O_RDWR, or for O_RDONLY
      without emptying a file that has some. */
  lemma ReadsExactlyIfOpenedForReading(file: Option<seq<byte>>, junk: FileInfo, mounted: bool, oflag: OFlag)
    ensures CanReadAfter(file, junk, mounted, oflag)
            <==> && (file.Some? || oflag.creat) && !(file.Some? && oflag.creat && oflag.excl)
                 && (oflag.access == ReadWrite
                     || (oflag.access == ReadOnly && !oflag.trunc && ContentsOf(file) != []))
  {
    if CanReadAfter(file, junk, mounted, oflag) {
      var s: Sys :| CanReach(file, junk, mounted, s) && OpenedWith(s, oflag) && NoOpens(s.trace[1..]) && HasRead(s);
      OpenedFrom(file, junk, mounted, s, oflag);
      ReadingNeedsRead(file, junk, mounted, s, oflag);
    }
    if MayOpen(oflag.creat, oflag.excl, file.Some?) {
      if oflag.access == ReadWrite {
        WriteReadWitness(file, junk, mounted, oflag);
      } else if oflag.access == ReadOnly && !oflag.trunc && ContentsOf(file) != [] {
        ReadWitness(file, junk, mounted, oflag);
      }
    }
  }
}
