/** Descriptors and DIR pointers on top of the asynchronous delegates: what a delegate answers in any interleaving may
    be given to the table as answers, whatever calls on other descriptors, directories and paths come in between.  So
    the results about the table hold of asynchronous delegates. */
module AsyncDescriptors {
  import opened Wrappers
  import opened Paths
  import opened Runs
  import opened Ownership
  import opened Failures
  import A = AtomicFile
  import C = AsyncCall
  import H = Html5

  /** What a caller holds on to: a descriptor, or a DIR pointer. */
  datatype Handle = Fd(fd: nat) | Pointer(dir: nat)

  function Place(w: World, h: Handle): Option<nat> {
    match h
    case Fd(fd) => GetDelegate(w.table, fd)
    case Pointer(dir) => if dir < |w.table.dirs| then w.table.dirs[dir] else None
  }

  /** Behind the handle is a browser-file delegate with this past and view. */
  predicate Holds(w: World, h: Handle, born: A.View, past: seq<A.Entry>, view: A.View) {
    && Place(w, h).Some? && Place(w, h).value < |w.table.delegates|
    && w.table.delegates[Place(w, h).value] == Html5(born, past, view)
  }

  /** The handle that the next successful open, or opendir, returns. */
  predicate IsNext(w: World, h: Handle) {
    match h
    case Fd(fd) => fd == |w.table.slots|
    case Pointer(dir) => dir == |w.table.dirs|
  }

  predicate Begins(h: Handle, past: seq<A.Entry>) {
    match h
    case Fd(_) => FromOpen(past)
    case Pointer(_) => FromOpenDir(past)
  }

  predicate Suits(h: Handle, call: H.Op) {
    match h
    case Fd(_) => DescriptorCall(call)
    case Pointer(_) => DirCall(call)
  }

  /** The call on the file system that makes `e` the first call of a delegate, and one that makes it a later one. */
  function Opening(h: Handle, path: string, e: A.Entry): Op
    requires h.Fd? ==> e.op.Open?
  {
    match h
    case Fd(_) => Open(Some(path), e.op.oflag, Answered(e))
    case Pointer(_) => OpenDir(Some(path), Answered(e))
  }

  function CallOn(h: Handle, e: A.Entry): Op {
    match h
    case Fd(fd) => Use(fd, e.op, Answered(e), 0)
    case Pointer(dir) => UseDir(dir, e.op, Answered(e))
  }

  function NewHandle(h: Handle): Reply {
    match h
    case Fd(fd) => Descriptor(fd)
    case Pointer(dir) => Stream(Some(dir))
  }

  /** What the delegate returned, as a reply. */
  function ReplyTo(e: A.Entry): Reply {
    match e.result
    case Code(code) => Status(code)
    case Dirent(name) => Name(name)
    case _ => Void
  }

  predicate On(op: Op, h: Handle) {
    match h
    case Fd(fd) => op.Use? && op.fd == fd
    case Pointer(dir) => op.UseDir? && op.dir == dir
  }

  predicate Closes(op: Op, h: Handle) {
    match h
    case Fd(fd) => op.Close? && op.fd == fd
    case Pointer(dir) => op.CloseDir? && op.dir == dir
  }

  function OnHandle(h: Handle): Op -> bool {
    op => On(op, h)
  }

  function KeepsOpen(h: Handle): Op -> bool {
    op => !Closes(op, h)
  }

  function CallsOn(h: Handle): A.Entry -> Op {
    e => CallOn(h, e)
  }

  /** The replies to the calls on the handle. */
  ghost function RepliesOn(h: Handle, w: World, ops: seq<Op>): seq<Reply> {
    Heard(Step, Off(OnHandle(h)), Respond, w, ops)
  }

  /** `ops` makes exactly the calls `es` on the handle, in order; in between come calls that are legal where they are
      made and do not close the handle. */
  ghost predicate Woven(w: World, h: Handle, es: seq<A.Entry>, ops: seq<Op>) {
    Interleaved(Enabled, Step, OnHandle(h), KeepsOpen(h), CallsOn(h), w, es, ops)
  }

  lemma OwnUse(w: World, h: Handle, born: A.View, past: seq<A.Entry>, e: A.Entry)
    requires Sound(w) && Holds(w, h, born, past, e.pre) && A.Atomic(e) && Suits(h, e.op) && h.Fd?
    ensures Enabled(w, CallOn(h, e)) && Respond(w, CallOn(h, e)) == ReplyTo(e)
    ensures Holds(Step(w, CallOn(h, e)), h, born, past + [e], e.post)
  {
  }

  lemma OwnUseDir(w: World, h: Handle, born: A.View, past: seq<A.Entry>, e: A.Entry)
    requires Sound(w) && Holds(w, h, born, past, e.pre) && A.Atomic(e) && Suits(h, e.op) && h.Pointer?
    ensures Enabled(w, CallOn(h, e)) && Respond(w, CallOn(h, e)) == ReplyTo(e)
    ensures Holds(Step(w, CallOn(h, e)), h, born, past + [e], e.post)
  {
  }

  /** The next call on the handle is legal, is answered by the delegate, and takes it on. */
  lemma OwnStep(w: World, h: Handle, born: A.View, past: seq<A.Entry>, e: A.Entry)
    requires Sound(w) && Holds(w, h, born, past, e.pre) && A.Atomic(e) && Suits(h, e.op)
    ensures Enabled(w, CallOn(h, e)) && Respond(w, CallOn(h, e)) == ReplyTo(e)
    ensures Sound(Step(w, CallOn(h, e))) && Holds(Step(w, CallOn(h, e)), h, born, past + [e], e.post)
  {
    if h.Fd? { OwnUse(w, h, born, past, e); } else { OwnUseDir(w, h, born, past, e); }
    ApplyKeepsSound(w, CallOn(h, e));
  }

  /** Nothing else has the delegate behind the handle. */
  lemma HandleIsAlone(w: World, h: Handle)
    requires Conserved(w.table) && Place(w, h).Some?
    ensures forall k :: 0 <= k < |w.table.slots| && h != Fd(k) ==> w.table.slots[k] != Place(w, h)
    ensures forall k :: 0 <= k < |w.table.dirs| && h != Pointer(k) ==> w.table.dirs[k] != Place(w, h)
  {
    match h
    case Fd(fd) => SlotIsAlone(w.table, fd);
    case Pointer(dir) => DirIsAlone(w.table, dir);
  }

  /** Places and delegates are only appended. */
  predicate Extends(t: Table, t': Table) {
    t.delegates <= t'.delegates && t.slots <= t'.slots && t.dirs <= t'.dirs
  }

  lemma ExtendingHolds(w: World, w': World, h: Handle, born: A.View, past: seq<A.Entry>, view: A.View)
    requires Holds(w, h, born, past, view) && Extends(w.table, w'.table)
    ensures Holds(w', h, born, past, view)
  {
  }

  lemma CreatingExtends(t: Table, d: Delegate)
    requires t.inUse == []
    ensures Extends(t, DeleteTemporary(Create(t, d))) && Extends(t, Bind(Create(t, d))) && Extends(t, Adopt(Create(t, d)))
  {
  }

  lemma AskingExtends(w: World, full: string, a: Answer)
    requires w.table.inUse == []
    ensures Extends(w.table, Asked(w, full, a).table)
  {
    CreatingExtends(w.table, AskedDelegate(full, a));
  }

  lemma OpenExtends(w: World, path: Option<string>, oflag: H.OFlag, a: Answer)
    requires Enabled(w, Open(path, oflag, a))
    ensures Extends(w.table, ApplyOpen(w, path, oflag, a).0.table)
  {
    if path.Some? { CreatingExtends(w.table, OpenedDelegate(FullPath(w.cwd, path.value), a)); }
  }

  lemma OpenDirExtends(w: World, path: Option<string>, a: Answer)
    requires Enabled(w, OpenDir(path, a))
    ensures Extends(w.table, ApplyOpenDir(w, path, a).0.table)
  {
    if path.Some? {
      AskingExtends(w, FullPath(w.cwd, path.value), a);
      CreatingExtends(w.table, AskedDelegate(FullPath(w.cwd, path.value), a));
    }
  }

  lemma StatExtends(w: World, name: string, a: Answer)
    requires Enabled(w, Stat(name, a))
    ensures Extends(w.table, ApplyStat(w, name, a).0.table)
  {
    AskingExtends(w, FullPath(w.cwd, name), a);
  }

  lemma MkDirExtends(w: World, path: Option<string>, a: Answer)
    requires Enabled(w, MkDir(path, a))
    ensures Extends(w.table, ApplyMkDir(w, path, a).0.table)
  {
    if path.Some? { AskingExtends(w, FullPath(w.cwd, path.value), a); }
  }

  lemma ChDirExtends(w: World, name: string, a: Answer)
    requires Enabled(w, ChDir(name, a))
    ensures Extends(w.table, ApplyChDir(w, name, a).0.table)
  {
    AskingExtends(w, FullPath(w.cwd, name), a);
  }

  lemma OtherPath(w: World, h: Handle, born: A.View, past: seq<A.Entry>, view: A.View, op: Op)
    requires Enabled(w, op) && Holds(w, h, born, past, view)
    requires op.Open? || op.Stat? || op.MkDir? || op.OpenDir? || op.ChDir?
    ensures Holds(Apply(w, op).0, h, born, past, view)
  {
    match op {
      case Open(path, oflag, a) => OpenExtends(w, path, oflag, a);
      case OpenDir(path, a) => OpenDirExtends(w, path, a);
      case Stat(name, a) => StatExtends(w, name, a);
      case MkDir(path, a) => MkDirExtends(w, path, a);
      case ChDir(name, a) => ChDirExtends(w, name, a);
    }
    ExtendingHolds(w, Apply(w, op).0, h, born, past, view);
  }

  lemma OtherClose(w: World, h: Handle, born: A.View, past: seq<A.Entry>, view: A.View, op: Op)
    requires Sound(w) && Enabled(w, op) && Holds(w, h, born, past, view)
    requires (op.Close? || op.CloseDir?) && !Closes(op, h)
    ensures Holds(Apply(w, op).0, h, born, past, view)
  {
  }

  lemma UpdatingHolds(w: World, h: Handle, born: A.View, past: seq<A.Entry>, view: A.View, d: nat, next: Delegate)
    requires Holds(w, h, born, past, view) && d < |w.table.delegates| && Place(w, h) != Some(d)
    ensures Holds(w.(table := Update(w.table, d, next)), h, born, past, view)
  {
  }

  lemma OtherUse(w: World, h: Handle, born: A.View, past: seq<A.Entry>, view: A.View, op: Op)
    requires Conserved(w.table) && Enabled(w, op) && Holds(w, h, born, past, view) && op.Use? && !On(op, h)
    ensures Holds(Apply(w, op).0, h, born, past, view)
  {
    HandleIsAlone(w, h);
    if GetDelegate(w.table, op.fd).Some? {
      var d := w.table.slots[op.fd].value;
      UpdatingHolds(w, h, born, past, view, d, Told(w.table.delegates[d], op.answer));
    }
  }

  lemma OtherUseDir(w: World, h: Handle, born: A.View, past: seq<A.Entry>, view: A.View, op: Op)
    requires Conserved(w.table) && Enabled(w, op) && Holds(w, h, born, past, view) && op.UseDir? && !On(op, h)
    ensures Holds(Apply(w, op).0, h, born, past, view)
  {
    HandleIsAlone(w, h);
    var d := w.table.dirs[op.dir].value;
    UpdatingHolds(w, h, born, past, view, d, Told(w.table.delegates[d], op.answer));
  }

  /** A call that is not on the handle and does not close it leaves the delegate behind it alone. */
  lemma OtherStep(w: World, h: Handle, born: A.View, past: seq<A.Entry>, view: A.View, op: Op)
    requires Sound(w) && Enabled(w, op) && Holds(w, h, born, past, view) && !On(op, h) && !Closes(op, h)
    ensures Sound(Step(w, op)) && Holds(Step(w, op), h, born, past, view)
  {
    ApplyKeepsSound(w, op);
    if op.Close? || op.CloseDir? { OtherClose(w, h, born, past, view, op); }
    else if op.Use? { OtherUse(w, h, born, past, view, op); }
    else if op.UseDir? { OtherUseDir(w, h, born, past, view, op); }
    else { OtherPath(w, h, born, past, view, op); }
  }

  /** The handle has made the calls `past`. */
  ghost predicate HasMade(w: World, h: Handle, born: A.View, past: seq<A.Entry>) {
    Sound(w) && Holds(w, h, born, past, A.End(born, past))
  }

  predicate IsNextCall(h: Handle, born: A.View, past: seq<A.Entry>, e: A.Entry) {
    A.Atomic(e) && e.pre == A.End(born, past) && e.post == A.End(born, past + [e]) && Suits(h, e.op)
  }

  /** Calls of a delegate that has made its first call, with other calls in between. */
  lemma WovenRun(w: World, h: Handle, born: A.View, past: seq<A.Entry>, es: seq<A.Entry>, ops: seq<Op>)
    requires HasMade(w, h, born, past) && Woven(w, h, es, ops)
    requires forall k :: 0 <= k < |es| ==> IsNextCall(h, born, past + es[..k], es[k])
    ensures IsRun(w, ops) && HasMade(Ran(w, ops), h, born, past + es)
    ensures RepliesOn(h, w, ops) == Mapped(ReplyTo, es)
  {
    forall w: World, past: seq<A.Entry>, e: A.Entry | HasMade(w, h, born, past) && IsNextCall(h, born, past, e)
      ensures && Enabled(w, CallOn(h, e)) && Respond(w, CallOn(h, e)) == ReplyTo(e)
              && HasMade(Step(w, CallOn(h, e)), h, born, past + [e])
    {
      OwnStep(w, h, born, past, e);
    }
    forall w: World, past: seq<A.Entry>, op: Op
      | HasMade(w, h, born, past) && Enabled(w, op) && !On(op, h) && !Closes(op, h)
      ensures HasMade(Step(w, op), h, born, past)
    {
      OtherStep(w, h, born, past, A.End(born, past), op);
    }
    Interleaving(Enabled, Step, Respond, OnHandle(h), KeepsOpen(h), CallsOn(h), ReplyTo,
                 (w, past) => HasMade(w, h, born, past), (past, e) => IsNextCall(h, born, past, e), w, past, es, ops);
  }

  lemma BoundHolds(w: World, fd: nat, full: string, e: A.Entry)
    requires w.table.inUse == [] && fd == |w.table.slots| && !IsPort(full)
    ensures Holds(w.(table := Bind(Create(w.table, OpenedDelegate(full, Answered(e))))), Fd(fd), e.pre, [e], e.post)
  {
    assert [] + [e] == [e];
  }

  lemma AdoptedHolds(w: World, dir: nat, full: string, e: A.Entry)
    requires w.table.inUse == [] && dir == |w.table.dirs| && !IsPort(full)
    ensures Holds(w.(table := Adopt(Create(w.table, AskedDelegate(full, Answered(e))))), Pointer(dir), e.pre, [e], e.post)
  {
    assert [] + [e] == [e];
  }

  lemma OpenBinds(w: World, h: Handle, path: string, e: A.Entry)
    requires Sound(w) && IsNext(w, h) && h.Fd? && !IsPort(FullPath(w.cwd, path))
    requires A.Atomic(e) && IsNew(e.pre) && e.op.Open? && e.result == H.Code(0)
    ensures Enabled(w, Opening(h, path, e)) && Respond(w, Opening(h, path, e)) == NewHandle(h)
    ensures Holds(Step(w, Opening(h, path, e)), h, e.pre, [e], e.post)
  {
    BoundHolds(w, h.fd, FullPath(w.cwd, path), e);
  }

  lemma OpenDirAdopts(w: World, h: Handle, path: string, e: A.Entry)
    requires Sound(w) && IsNext(w, h) && h.Pointer? && !IsPort(FullPath(w.cwd, path))
    requires A.Atomic(e) && IsNew(e.pre) && e.op.OpenDir? && e.result == H.DirPtr(true)
    ensures Enabled(w, Opening(h, path, e)) && Respond(w, Opening(h, path, e)) == NewHandle(h)
    ensures Holds(Step(w, Opening(h, path, e)), h, e.pre, [e], e.post)
  {
    AdoptedHolds(w, h.dir, FullPath(w.cwd, path), e);
  }

  lemma FirstView(start: A.View, es: seq<A.Entry>)
    requires A.RunFrom(start, es) && es != []
    ensures A.Atomic(es[0]) && es[0].pre == start && A.End(start, [es[0]]) == es[0].post
  {
    A.RunAt(start, es, 0);
    assert es[..1] == [es[0]];
  }

  /** The opening call of an atomic run of a new delegate. */
  lemma FirstStep(w: World, h: Handle, path: string, start: A.View, es: seq<A.Entry>)
    requires Sound(w) && IsNext(w, h) && !IsPort(FullPath(w.cwd, path))
    requires IsNew(start) && A.RunFrom(start, es) && Begins(h, es)
    ensures var op := Opening(h, path, es[0]);
            && Enabled(w, op) && Respond(w, op) == NewHandle(h)
            && HasMade(Step(w, op), h, start, [es[0]])
  {
    FirstView(start, es);
    if h.Fd? { OpenBinds(w, h, path, es[0]); } else { OpenDirAdopts(w, h, path, es[0]); }
    ApplyKeepsSound(w, Opening(h, path, es[0]));
  }

  lemma LaterCall(h: Handle, start: A.View, es: seq<A.Entry>, k: nat)
    requires A.RunFrom(start, es) && Begins(h, es) && k < |es| - 1
    ensures IsNextCall(h, start, [es[0]] + es[1..][..k], es[1..][k])
  {
    A.RunAt(start, es, k + 1);
    var past, e := es[..k + 1], es[k + 1];
    assert [es[0]] + es[1..][..k] == past;
    assert past + [e] == es[..k + 2];
  }

  /** The opening call and every call after it. */
  lemma AllCalls(h: Handle, start: A.View, es: seq<A.Entry>)
    requires A.RunFrom(start, es) && Begins(h, es)
    ensures forall k :: 0 <= k < |es[1..]| ==> IsNextCall(h, start, [es[0]] + es[1..][..k], es[1..][k])
  {
    forall k | 0 <= k < |es[1..]| ensures IsNextCall(h, start, [es[0]] + es[1..][..k], es[1..][k]) {
      LaterCall(h, start, es, k);
    }
  }

  /** The opening call and then `ops` are a run in which the handle's calls return what the delegate returned, and
      after which the handle has the past `es` and the view `view`. */
  ghost predicate Performed(w: World, opening: Op, h: Handle, start: A.View, es: seq<A.Entry>, view: A.View,
                            ops: seq<Op>)
    requires es != []
  {
    var w1 := Step(w, opening);
    && IsRun(w, [opening] + ops) && Ran(w, [opening] + ops) == Ran(w1, ops)
    && Respond(w, opening) == NewHandle(h) && RepliesOn(h, w1, ops) == Mapped(ReplyTo, es[1..])
    && Holds(Ran(w1, ops), h, start, es, view)
  }

  lemma IsPerformed(w: World, opening: Op, h: Handle, start: A.View, es: seq<A.Entry>, view: A.View, ops: seq<Op>)
    requires es != [] && Enabled(w, opening) && Respond(w, opening) == NewHandle(h)
    requires IsRun(Step(w, opening), ops) && Holds(Ran(Step(w, opening), ops), h, start, es, view)
    requires RepliesOn(h, Step(w, opening), ops) == Mapped(ReplyTo, es[1..])
    ensures Performed(w, opening, h, start, es, view, ops)
  {
    RunCons(Enabled, Step, w, opening, ops);
  }

  /** All calls after the opening one. */
  lemma UseOpened(w1: World, h: Handle, start: A.View, es: seq<A.Entry>, ops: seq<Op>)
    requires A.RunFrom(start, es) && Begins(h, es) && Woven(w1, h, es[1..], ops)
    requires HasMade(w1, h, start, [es[0]])
    ensures IsRun(w1, ops) && Holds(Ran(w1, ops), h, start, es, A.End(start, es))
    ensures RepliesOn(h, w1, ops) == Mapped(ReplyTo, es[1..])
  {
    AllCalls(h, start, es);
    WovenRun(w1, h, start, [es[0]], es[1..], ops);
    assert [es[0]] + es[1..] == es;
  }

  /** An atomic run of a new delegate, made through a descriptor or a DIR pointer. */
  lemma OpenAndUse(w: World, h: Handle, path: string, start: A.View, es: seq<A.Entry>, ops: seq<Op>)
    requires Sound(w) && IsNext(w, h) && !IsPort(FullPath(w.cwd, path))
    requires IsNew(start) && A.RunFrom(start, es) && Begins(h, es)
    requires Woven(Step(w, Opening(h, path, es[0])), h, es[1..], ops)
    ensures Performed(w, Opening(h, path, es[0]), h, start, es, A.End(start, es), ops)
  {
    FirstStep(w, h, path, start, es);
    UseOpened(Step(w, Opening(h, path, es[0])), h, start, es, ops);
    IsPerformed(w, Opening(h, path, es[0]), h, start, es, A.End(start, es), ops);
  }

  /** An asynchronous run of a delegate, in any interleaving, that opened a file or a directory and then passed on
      calls of its descriptor or DIR pointer.  Made through the table, from any sound state and with any legal calls
      on other handles and on paths in between: every call is legal, the open returns the next handle, each call
      returns what the delegate returned, and at the end the handle has exactly the view that the delegate has. */
  lemma AsyncAnswersAreLegal(w: World, h: Handle, path: string, ops: seq<Op>, file: Option<seq<H.byte>>,
                             junk: H.FileInfo, mounted: bool, ls: seq<C.Label>, trace: seq<A.Entry>)
    requires Sound(w) && IsNext(w, h) && !IsPort(FullPath(w.cwd, path))
    requires C.IsRun(file, junk, mounted, ls)
    requires C.Ran(file, junk, mounted, ls).caller.Idle? && C.Ran(file, junk, mounted, ls).trace == trace
    requires Begins(h, trace) && Woven(Step(w, Opening(h, path, trace[0])), h, trace[1..], ops)
    ensures Performed(w, Opening(h, path, trace[0]), h, C.NewView(file, junk), trace,
                      C.ViewOf(C.Ran(file, junk, mounted, ls)), ops)
  {
    C.CallsAreAtomic(file, junk, mounted, ls);
    OpenAndUse(w, h, path, C.NewView(file, junk), trace, ops);
  }
}
