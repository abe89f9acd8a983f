/** What each call of the file system returns and does, told from the resolved path, the completion codes of the
    browser, and whether the call came from the main thread. */
module Outcomes {
  import opened Wrappers
  import opened Errno
  import opened Paths
  import opened Console
  import opened Ownership
  import A = AtomicFile
  import H = Html5

  /** The paths that the browser is never asked about. */
  predicate StartsLikeDevice(full: string) {
    |full| >= 8 && full[..8] == "/dev/std"
  }

  predicate NamesDevice(full: string) {
    full == "/dev/stdin" || full == "/dev/stdout" || full == "/dev/stderr"
  }

  lemma DevicePaths(full: string)
    ensures IsPort(full) <==> StartsLikeDevice(full)
    ensures NamesDevice(full) ==> StartsLikeDevice(full)
    ensures DeviceStatus(full) == if NamesDevice(full) then 0 else ENODEV
  {
    if IsPort(full) {
      assert full[..8] == "/dev/std";
    }
    if full == "/dev/stdin" {
      assert "/dev/stdin"[..8] == "/dev/std";
    } else if full == "/dev/stdout" {
      assert "/dev/stdout"[..8] == "/dev/std";
    } else if full == "/dev/stderr" {
      assert "/dev/stderr"[..8] == "/dev/std";
    }
  }

  /** The code that ended an open or stat that failed; 0 if the browser refused before there was any. */
  function LastCode(e: A.Entry): int {
    if e.codes == [] then 0 else e.codes[|e.codes| - 1]
  }

  /** A regular file or a directory was found: both requests completed with 0, or the first found no file. */
  predicate FoundSomething(e: A.Entry) {
    e.Own() == [0, 0] || e.Own() == [H.PP_ERROR_NOTAFILE]
  }

  predicate FoundDirectory(e: A.Entry) {
    e.Own() == [H.PP_ERROR_NOTAFILE] || (e.Own() == [0, 0] && e.post.info.kind == H.Directory)
  }

  function StatError(e: A.Entry): int {
    H.PPErrorToErrNo(if e.Own() == [] then e.issued else LastCode(e))
  }

  /** What stat says of a path. */
  function StatReply(full: string, a: Answer): int {
    if StartsLikeDevice(full) then (if NamesDevice(full) then 0 else ENODEV)
    else match a
         case MainThread => EIO
         case Answered(e) => if FoundSomething(e) then 0 else StatError(e)
  }

  lemma StatResult(full: string, a: Answer)
    requires AnswersNew(a, H.Stat)
    ensures a.Answered? ==> a.entry.result.Code?
    ensures PathResult(full, a) == StatReply(full, a)
    ensures PathResult(full, a) == 0 && !StartsLikeDevice(full) ==> (SawDirectory(full, a) <==> FoundDirectory(a.entry))
    ensures a.Answered? && !FoundSomething(a.entry) ==> StatError(a.entry) > 0
  {
    DevicePaths(full);
  }

  lemma StatOutcome(w: World, name: string, a: Answer)
    requires Enabled(w, Stat(name, a))
    ensures Respond(w, Stat(name, a)) == Status(StatReply(FullPath(w.cwd, name), a))
  {
    StatResult(FullPath(w.cwd, name), a);
  }

  /** chdir is accepted exactly for what the browser knows as a directory: when `FileIO::Open` found no file, or when
      the file that was opened turned out to be a directory.  Then the working directory moves, and otherwise it stays;
      what exists but is no directory gets -1, and everything else the error of stat. */
  lemma ChDirOutcome(w: World, name: string, a: Answer)
    requires Enabled(w, ChDir(name, a))
    ensures var full, op := FullPath(w.cwd, name), ChDir(name, a);
            var entered := !StartsLikeDevice(full) && a.Answered? && FoundDirectory(a.entry);
            && (entered <==> Respond(w, op) == Status(0))
            && Step(w, op).cwd == (if entered then NextCwd(w.cwd, name) else w.cwd)
            && (!entered ==> Respond(w, op) == Status(if StatReply(full, a) == 0 then -1 else StatReply(full, a)))
  {
    StatResult(FullPath(w.cwd, name), a);
    DevicePaths(FullPath(w.cwd, name));
  }

  /** What open returns when it fails. */
  function OpenError(full: string, a: Answer): int {
    if StartsLikeDevice(full) then ENODEV
    else match a
         case MainThread => EIO
         case Answered(e) => H.PPErrorToErrNo(LastCode(e))
  }

  predicate OpenSucceeds(full: string, a: Answer) {
    if StartsLikeDevice(full) then NamesDevice(full) else a.Answered? && a.entry.Own() == [0, 0]
  }

  lemma OpenResult(full: string, oflag: H.OFlag, a: Answer)
    requires AnswersNew(a, H.Open(oflag))
    ensures a.Answered? ==> a.entry.result.Code?
    ensures PathResult(full, a) == if OpenSucceeds(full, a) then 0 else OpenError(full, a)
    ensures !OpenSucceeds(full, a) ==> OpenError(full, a) > 0
  {
    DevicePaths(full);
  }

  /** open gives a new descriptor exactly for one of the three devices, or for a file whose two requests completed with
      0; behind it is a device of that name, or the file as the open left it.  Otherwise nothing is bound. */
  lemma OpenOutcome(w: World, path: string, oflag: H.OFlag, a: Answer)
    requires Enabled(w, Open(Some(path), oflag, a))
    ensures var full, op, fd := FullPath(w.cwd, path), Open(Some(path), oflag, a), |w.table.slots|;
            var t := Step(w, op).table;
            if OpenSucceeds(full, a)
            then && Respond(w, op) == Descriptor(fd) && GetDelegate(t, fd) == Some(|w.table.delegates|)
                 && |t.delegates| == |w.table.delegates| + 1
                 && t.delegates[|w.table.delegates|]
                    == (if StartsLikeDevice(full) then Port(Named(full))
                        else Html5(a.entry.pre, [a.entry], a.entry.post))
            else Respond(w, op) == Status(OpenError(full, a)) && t.slots == w.table.slots
  {
    var full := FullPath(w.cwd, path);
    OpenResult(full, oflag, a);
    DevicePaths(full);
    if a.Answered? {
      assert [] + [a.entry] == [a.entry];
    }
  }

  /** The three device names: id 0 for reading, 1 and 2 for writing. */
  lemma OpenDevices(w: World, path: string, oflag: H.OFlag, a: Answer)
    requires Enabled(w, Open(Some(path), oflag, a)) && NamesDevice(FullPath(w.cwd, path))
    ensures var full, t := FullPath(w.cwd, path), Step(w, Open(Some(path), oflag, a)).table;
            && |t.delegates| == |w.table.delegates| + 1
            && t.delegates[|w.table.delegates|]
               == Port(if full == "/dev/stdin" then Device(0, true, false, true)
                       else if full == "/dev/stdout" then Device(1, false, true, true)
                       else Device(2, false, true, true))
  {
    OpenOutcome(w, path, oflag, a);
    DevicePaths(FullPath(w.cwd, path));
    ThreeDevices(FullPath(w.cwd, path));
  }

  /** What mkdir says of a path. */
  function MkDirReply(full: string, a: Answer): int {
    if StartsLikeDevice(full) then -1
    else match a
         case MainThread => EIO
         case Answered(e) => if e.Own() == [] then -1 else LastCode(e)
  }

  lemma MkDirSays(full: string, a: Answer)
    requires AnswersNew(a, H.MkDir)
    ensures MkDirResult(full, a) == MkDirReply(full, a)
  {
    DevicePaths(full);
    MkDirReturnsCode(a);
  }

  /** mkdir returns its own completion code, -1 if the browser refused it, and is not for devices. */
  lemma MkDirOutcome(w: World, path: string, a: Answer)
    requires Enabled(w, MkDir(Some(path), a))
    ensures Respond(w, MkDir(Some(path), a))
            == Status(MkDirReply(FullPath(w.cwd, path), a))
  {
    MkDirSays(FullPath(w.cwd, path), a);
  }

  lemma OpenDirFinds(full: string, a: Answer)
    requires AnswersNew(a, H.OpenDir)
    ensures FoundDir(full, a) <==> !StartsLikeDevice(full) && a.Answered?
    ensures FoundDir(full, a) ==> a.entry.post.dir == Some(H.Dir([], 0, false))
  {
    DevicePaths(full);
  }

  /** opendir always gives a DIR pointer, to a directory that is not loaded, except for devices and on the main
      thread. */
  lemma OpenDirOutcome(w: World, path: string, a: Answer)
    requires Enabled(w, OpenDir(Some(path), a))
    ensures var full, op, dir := FullPath(w.cwd, path), OpenDir(Some(path), a), |w.table.dirs|;
            if !StartsLikeDevice(full) && a.Answered?
            then Respond(w, op) == Stream(Some(dir)) && IsOpenDir(Step(w, op).table, dir)
                 && a.entry.post.dir == Some(H.Dir([], 0, false))
            else Respond(w, op) == Stream(None) && Step(w, op).table.dirs == w.table.dirs
  {
    OpenDirFinds(FullPath(w.cwd, path), a);
  }

  /** close of a live descriptor succeeds, and the descriptor is gone, except for a file on the main thread; close of
      any other number is EBADF and does nothing. */
  lemma CloseOutcome(w: World, fd: int, a: Answer)
    requires Sound(w) && Enabled(w, Close(fd, a))
    ensures var op, d := Close(fd, a), GetDelegate(w.table, fd);
            if d.None? then Respond(w, op) == Status(EBADF) && Step(w, op) == w
            else if w.table.delegates[d.value].Html5? && a.MainThread? then
              Respond(w, op) == Status(EIO) && Step(w, op) == w
            else
              && Respond(w, op) == Status(0) && GetDelegate(Step(w, op).table, fd) == None
              && Step(w, op).table.slots == w.table.slots[fd := None]
  {
    var d := GetDelegate(w.table, fd);
    if d.Some? {
      assert IsBoundRight(w.table.delegates[d.value]);
    }
  }

  /** closedir succeeds, except on the main thread. */
  lemma CloseDirOutcome(w: World, dir: nat, a: Answer)
    requires Sound(w) && Enabled(w, CloseDir(dir, a))
    ensures var op := CloseDir(dir, a);
            if a.MainThread? then Respond(w, op) == Status(EIO) && Step(w, op) == w
            else Respond(w, op) == Status(0) && Step(w, op).table.dirs == w.table.dirs[dir := None]
  {
    assert IsAdoptedRight(w.table.delegates[w.table.dirs[dir].value]);
  }

  /** fstat, read, write and lseek on a number that is no live descriptor, and on the main thread on a file. */
  lemma UseRefused(w: World, fd: int, call: H.Op, a: Answer, device: int)
    requires Enabled(w, Use(fd, call, a, device))
    requires var d := GetDelegate(w.table, fd); d.None? || (w.table.delegates[d.value].Html5? && a.MainThread?)
    ensures Step(w, Use(fd, call, a, device)) == w
    ensures Respond(w, Use(fd, call, a, device))
            == Status(if !call.Fstat? then -1 else if GetDelegate(w.table, fd).None? then EBADF else EIO)
  {
    var d := GetDelegate(w.table, fd);
    if d.Some? {
      assert w.table.delegates[d.value := w.table.delegates[d.value]] == w.table.delegates;
    }
  }

  /** fstat, read, write and lseek on a file return what its requests completed with. */
  lemma UseOfFile(w: World, fd: int, call: H.Op, e: A.Entry, device: int)
    requires Enabled(w, Use(fd, call, Answered(e), device)) && GetDelegate(w.table, fd).Some?
    requires w.table.delegates[GetDelegate(w.table, fd).value].Html5?
    ensures e.pre == w.table.delegates[GetDelegate(w.table, fd).value].view && e.op == call
    ensures Respond(w, Use(fd, call, Answered(e), device))
            == Status(match call
                      case Fstat => if e.codes == [] then H.PPErrorToErrNo(e.issued) else 0
                      case Seek(delta, SeekSet) => delta
                      case Seek(delta, SeekCur) => e.pre.offset + delta
                      case Seek(delta, SeekEnd) => e.pre.info.size + delta
                      case Seek(_, _) => -1
                      case _ => if e.codes == [] then -1 else e.codes[0])
  {
  }

  /** On a live device: fstat and lseek return 0, a write returns its whole length on an output and -1 on standard
      input, a read is refused on an output. */
  lemma UseOfDevice(w: World, fd: int, call: H.Op, a: Answer, device: int)
    requires Sound(w) && Enabled(w, Use(fd, call, a, device)) && GetDelegate(w.table, fd).Some?
    requires w.table.delegates[GetDelegate(w.table, fd).value].Port?
    ensures var id := w.table.delegates[GetDelegate(w.table, fd).value].device.id;
            && Step(w, Use(fd, call, a, device)) == w && 0 <= id <= 2
            && match (Respond(w, Use(fd, call, a, device)), call)
               case (Status(r), Read(n)) => if id == 0 then 0 < r <= n || r == -2 || r == -1 else r == -1
               case (Status(r), Write(data)) => r == if id == 0 then -1 else |data|
               case (Status(r), _) => r == 0
               case _ => false
  {
    assert IsBoundRight(w.table.delegates[GetDelegate(w.table, fd).value]);
  }

  /** readdir and rewinddir on an open directory: nothing on the main thread, otherwise what the delegate answered. */
  lemma UseDirOutcome(w: World, dir: nat, call: H.Op, a: Answer)
    requires Sound(w) && Enabled(w, UseDir(dir, call, a))
    ensures var op := UseDir(dir, call, a);
            && (call.RewindDir? ==> Respond(w, op) == Void)
            && (call.ReadDir? ==> Respond(w, op) == Name(if a.MainThread? then None else a.entry.result.name))
            && (a.MainThread? ==> Step(w, op) == w)
  {
    var d := w.table.dirs[dir].value;
    assert IsAdoptedRight(w.table.delegates[d]);
    assert w.table.delegates[d := w.table.delegates[d]] == w.table.delegates;
  }

  /** A NULL path is refused before anything is created. */
  lemma NullPaths(w: World, oflag: H.OFlag, a: Answer)
    ensures Enabled(w, Open(None, oflag, a)) ==>
              Respond(w, Open(None, oflag, a)) == Status(EFAULT) && Step(w, Open(None, oflag, a)) == w
    ensures Enabled(w, MkDir(None, a)) ==> Respond(w, MkDir(None, a)) == Status(-1) && Step(w, MkDir(None, a)) == w
    ensures Enabled(w, OpenDir(None, a)) ==>
              Respond(w, OpenDir(None, a)) == Stream(None) && Step(w, OpenDir(None, a)) == w
  {
  }
}
