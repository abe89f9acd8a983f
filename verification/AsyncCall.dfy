/** One blocking call on top of the main thread: `Delegate::Call`, `Delegate::Proxy` and the handlers of `Html5`,
    as a transition system with one calling thread, the main thread, the mutex, the posted task, the request the
    browser works on, and the file.  Every interleaving and every choice of completion is a run of it.

    Assumptions: an accepted request completes once, in a later main-thread turn; there are no spurious wakeups;
    nobody else changes the file. */
module AsyncCall {
  import opened Wrappers
  import opened Html5
  import opened AtomicFile
  import opened Runs

  /** What a completion brings. */
  datatype Outcome = Outcome(result: int, kind: FileType, names: seq<string>)

  datatype Caller = Idle | Entering | Holding | Posted | Blocked | Woken | Leaving
  datatype Main = Resting | Running(callback: int, via: Option<(Request, Outcome)>) | Finishing | Signalling | Releasing
  datatype Owner = Nobody | CallerThread | MainThread

  /** `Arguments`, on the caller's stack.  The source keeps the completion code in a union with the result; here it
      is part of the running main thread. */
  datatype Args = Args(op: Op, chaining: bool, result: Result, buf: seq<byte>, st: Option<StatBuf>)

  /** `start` to `listed` record the call in progress, `trace` the calls that returned, and `lost` that the browser
      refused a request whose answer the code does not look at. */
  datatype Sys = Sys(caller: Caller, main: Main, owner: Owner, posted: nat, pending: seq<Request>,
                     args: Args, d: Delegate, mounted: bool,
                     contents: seq<byte>, standing: Standing,
                     start: View, mountedAtStart: bool, hops: nat, codes: seq<int>, issued: int, listed: seq<string>,
                     trace: seq<Entry>, lost: bool)

  function ViewOf(s: Sys): View {
    View(s.contents, s.d.offset, s.d.info, s.d.io, s.d.dir, s.standing)
  }

  function EntryOf(s: Sys): Entry {
    Entry(s.start, s.args.op, s.codes, s.issued, s.listed, s.args.result, s.args.buf, s.args.st, ViewOf(s),
          s.mountedAtStart, s.hops)
  }

  // The steps.  `Elsewhere`: between calls, a call on another delegate has created the shared file system object.

  datatype Label =
    | Elsewhere | Begin(op: Op) | Lock | Post | Wait | Wake | Return
    | Take | Complete(outcome: Outcome) | Switch(issued: int) | MainLock | Signal | MainUnlock

  /** How the browser may complete a request on the file of `v`.  An open honours create and exclusive, and reads and
      writes succeed only through a FileIO that was opened for them. */
  predicate ValidOutcome(q: Request, v: View, o: Outcome) {
    match q
    case OpenFile(flags) => o.result == 0 ==> MayOpen(flags.create, flags.exclusive, v.standing.present)
    case ReadAt(offset, n) =>
      && (o.result >= 0 ==> v.standing.readable)
      && (o.result > 0 ==> 0 <= offset && o.result <= n && offset + o.result <= |v.contents|)
      && (o.result == 0 && n > 0 ==> offset >= |v.contents|)
    case WriteAt(offset, data) =>
      && (o.result >= 0 ==> v.standing.writable)
      && (o.result > 0 ==> 0 <= offset && o.result <= |data|)
    case _ => true
  }

  datatype Delivery = Delivery(view: View, buf: seq<byte>, listed: seq<string>)

  /** What the browser does to the file, the FileInfo, the caller's buffer and the directory list on completion. */
  function Deliver(q: Request, o: Outcome, v: View): Delivery
    requires ValidOutcome(q, v, o)
  {
    match q
    case OpenFile(flags) =>
      var contents := if flags.truncate then [] else v.contents;
      Delivery(if o.result != 0 then v
               else v.(contents := contents, standing := Standing(true, flags.read, flags.write)), [], [])
    case QueryInfo => Delivery(if o.result == 0 then v.(info := FileInfo(|v.contents|, o.kind)) else v, [], [])
    case ReadAt(offset, _) => Delivery(v, if o.result > 0 then v.contents[offset..offset + o.result] else [], [])
    case WriteAt(offset, data) =>
      Delivery(if o.result > 0 then v.(contents := Overlay(v.contents, offset, data[..o.result])) else v, [], [])
    case ListEntries =>
      if o.result == 0 && v.dir.Some?
      then Delivery(v.(dir := Some(v.dir.value.(entries := v.dir.value.entries + o.names, read := true))), [], o.names)
      else Delivery(v, [], [])
    case _ => Delivery(v, [], [])
  }

  function WithView(s: Sys, v: View): Sys {
    s.(contents := v.contents, standing := v.standing,
       d := s.d.(offset := v.offset, info := v.info, io := v.io, dir := v.dir))
  }

  predicate Enabled(s: Sys, l: Label) {
    match l
    case Elsewhere => s.caller.Idle?
    case Begin(op) => s.caller.Idle? && Legal(op, s.d)
    case Lock => s.caller.Entering? && s.owner.Nobody?
    case Post => s.caller.Holding?
    case Wait => s.caller.Posted?
    case Wake => s.caller.Woken? && s.owner.Nobody?
    case Return => s.caller.Leaving?
    case Take => s.main.Resting? && s.posted > 0
    case Complete(o) => s.main.Resting? && |s.pending| > 0 && ValidOutcome(s.pending[0], ViewOf(s), o)
    case Switch(_) => s.main.Running? && Legal(s.args.op, s.d)
    case MainLock => s.main.Finishing? && s.owner.Nobody?
    case Signal => s.main.Signalling?
    case MainUnlock => s.main.Releasing?
  }

  function Step(s: Sys, l: Label): Sys {
    if !Enabled(s, l) then s
    else match l
    case Elsewhere => s.(mounted := true)
    case Begin(op) =>
      s.(caller := Entering, args := Args(op, false, NoResult, [], None),
         start := ViewOf(s), mountedAtStart := s.mounted, hops := 0, codes := [], issued := 0,
         listed := [])
    case Lock => s.(caller := Holding, owner := CallerThread)
    case Post => s.(caller := Posted, posted := s.posted + 1)
    case Wait => s.(caller := Blocked, owner := Nobody)
    case Wake => s.(caller := Leaving, owner := CallerThread)
    case Return => s.(caller := Idle, owner := Nobody, trace := s.trace + [EntryOf(s)])
    case Take => s.(posted := s.posted - 1, main := Running(0, None))
    case Complete(o) =>
      var q := s.pending[0];
      var got := Deliver(q, o, ViewOf(s));
      WithView(s, got.view).(pending := s.pending[1..], main := Running(o.result, Some((q, o))),
                             codes := s.codes + [o.result], listed := s.listed + got.listed,
                             args := s.args.(buf := s.args.buf + got.buf))
    case Switch(issued) => Proxy(s, issued)
    case MainLock => s.(main := Signalling, owner := MainThread)
    case Signal => s.(main := Releasing, caller := if s.caller.Blocked? then Woken else s.caller)
    case MainUnlock => s.(main := Resting, owner := Nobody)
  }

  /** The browser refuses a request whose answer the code does not look at. */
  predicate Refuses(s: Sys, issued: int)
    requires s.main.Running?
  {
    Unchecked(s.args.op, s.d, s.mounted, s.main.callback) && issued != PP_OK_COMPLETIONPENDING
  }

  /** `Delegate::Proxy`: re-enter the handler; signal only if it did not chain. */
  function Proxy(s: Sys, issued: int): Sys
    requires s.main.Running? && Legal(s.args.op, s.d)
  {
    var t := Handle(s.args.op, s.d, s.mounted, s.main.callback, issued);
    s.(d := t.d, mounted := t.mounted, hops := s.hops + 1, issued := issued, lost := s.lost || Refuses(s, issued),
       args := s.args.(chaining := t.chaining, result := t.result,
                       st := if t.st.Some? then t.st else s.args.st),
       pending := s.pending + (if t.request.Some? then [t.request.value] else []),
       main := if t.chaining then Resting else Finishing)
  }

  // The invariant

  predicate UsesMount(op: Op) {
    op.Open? || op.Stat? || op.MkDir? || op.OpenDir?
  }

  predicate FlagsAre(s: Sys, waiting: bool, querying: bool) {
    s.d.waiting == waiting && s.d.querying == querying
  }

  /** Which requests a call may make. */
  predicate Asks(op: Op, start: View, q: Request) {
    match q
    case MountFs => UsesMount(op)
    case OpenFile(flags) => (op.Open? && flags == ToPPFlags(op.oflag)) || (op.Stat? && flags == NO_FLAGS)
    case QueryInfo => op.Open? || op.Stat? || op.Fstat?
    case ReadAt(offset, n) => op == Read(n) && offset == start.offset
    case WriteAt(offset, data) => op == Write(data) && offset == start.offset
    case MakeDirectory => op.MkDir?
    case ListEntries => op.ReadDir? && start.dir.Some? && !start.dir.value.read
  }

  predicate Chained(op: Op, q: Request) {
    q.QueryInfo? && !op.Fstat?
  }

  /** The file was there to be opened by open or stat. */
  predicate CouldOpen(op: Op, start: View) {
    match op
    case Open(oflag) => MayOpen(oflag.creat, oflag.excl, start.standing.present)
    case _ => start.standing.present
  }

  /** The view while request `q` is pending. */
  function Before(op: Op, start: View, q: Request): View {
    if q.OpenFile? then start.(io := true)
    else if q.QueryInfo? && op.Open? then FileOpened(op.oflag, start)
    else if q.QueryInfo? && op.Stat? then FileStatted(start)
    else start
  }

  /** How often the handler has run when `q` is pending. */
  function HopsAt(op: Op, q: Request, mountedAtStart: bool): nat {
    if q.MountFs? then 1
    else 1 + Count(UsesMount(op) && !mountedAtStart) + Count(Chained(op, q))
  }

  /** The call's progress when its request `q` is the last thing it asked for. */
  predicate Asked(s: Sys, q: Request) {
    && Asks(s.args.op, s.start, q)
    && (q.MountFs? ==> !s.mountedAtStart)
    && (Chained(s.args.op, q) ==> CouldOpen(s.args.op, s.start))
    && FlagsAre(s, !q.MountFs? && !Chained(s.args.op, q), Chained(s.args.op, q))
    && s.mounted == (s.mountedAtStart || UsesMount(s.args.op))
    && s.hops == HopsAt(s.args.op, q, s.mountedAtStart)
    && s.args.st == None
  }

  /** The completion codes so far: the mount's, if there was one, and a 0 for every request that led on. */
  predicate CodesOk(s: Sys, q: Request, codes: seq<int>) {
    && |codes| == HopsAt(s.args.op, q, s.mountedAtStart) - 1
    && (Chained(s.args.op, q) ==> codes[|codes| - 1] == 0)
  }

  predicate Waiting(s: Sys, q: Request) {
    && Asked(s, q) && CodesOk(s, q, s.codes)
    && ViewOf(s) == Before(s.args.op, s.start, q) && s.args.buf == [] && s.listed == []
  }

  predicate Answered(s: Sys, q: Request, o: Outcome) {
    var before := Before(s.args.op, s.start, q);
    && Asked(s, q)
    && |s.codes| > 0 && s.codes[|s.codes| - 1] == o.result && CodesOk(s, q, s.codes[..|s.codes| - 1])
    && ValidOutcome(q, before, o)
    && Delivery(ViewOf(s), s.args.buf, s.listed) == Deliver(q, o, before)
  }

  predicate Fresh(s: Sys) {
    && FlagsAre(s, false, false) && ViewOf(s) == s.start && s.mounted == s.mountedAtStart
    && s.hops == 0 && s.codes == [] && s.listed == [] && s.args.buf == [] && s.args.st == None
  }

  /** How often the main thread enters the handler at most. */
  function Bound(op: Op, mountedAtStart: bool): nat {
    Count(UsesMount(op) && !mountedAtStart)
    + (match op
       case Open(_) | Stat => 3
       case MkDir | Fstat | Read(_) | Write(_) | ReadDir => 2
       case _ => 1)
  }

  /** Nothing was refused or cut short. */
  predicate Smooth(e: Entry) {
    match e.op
    case Open(_) | Fstat | MkDir => e.result == Code(0)
    case Stat => OpenedAndQueried(e)
    case Read(_) | Write(_) => e.result.Code? && e.result.code >= 0
    case ReadDir => Loads(e)
    case _ => true
  }

  /** The handler ran once for the post and once for every completion, at most `Bound` times in all, and exactly
      that often if all went well. */
  predicate HopsOk(e: Entry) {
    && e.hops == 1 + |e.codes| <= Bound(e.op, e.mounted)
    && (Smooth(e) ==> e.hops == Bound(e.op, e.mounted))
  }

  predicate Final(s: Sys) {
    FlagsAre(s, false, false) && Atomic(EntryOf(s)) && HopsOk(EntryOf(s))
  }

  predicate DirOk(v: View) {
    v.dir.Some? && !v.dir.value.read ==> v.dir.value == Dir([], 0, false)
  }

  predicate LocksOk(s: Sys) {
    && (s.owner.CallerThread? <==> s.caller.Holding? || s.caller.Posted? || s.caller.Leaving?)
    && (s.owner.MainThread? <==> s.main.Signalling? || s.main.Releasing?)
  }

  /** The main-thread events that refer to the caller's arguments. */
  function Events(s: Sys): nat {
    s.posted + |s.pending| + Count(!s.main.Resting? && !s.main.Releasing?)
  }

  predicate Outstanding(s: Sys) {
    s.caller.Posted? || s.caller.Blocked?
  }

  predicate Progress(s: Sys) {
    match s.caller
    case Idle => FlagsAre(s, false, false) && s.main.Resting?
    case Entering | Holding => Fresh(s) && s.main.Resting?
    case Posted | Blocked =>
      (match s.main
       case Resting => if |s.pending| == 1 then Waiting(s, s.pending[0]) else Fresh(s)
       case Running(callback, None) => callback == 0 && Fresh(s)
       case Running(callback, Some((q, o))) => callback == o.result && Answered(s, q, o)
       case Releasing => false
       case _ => Final(s))
    case Woken => Final(s) && (s.main.Resting? || s.main.Releasing?)
    case Leaving => Final(s) && s.main.Resting?
  }

  predicate Core(s: Sys) {
    && LocksOk(s)
    && Events(s) == Count(Outstanding(s))
    && Progress(s)
    && (s.caller.Idle? || (Legal(s.args.op, AsDelegate(s.start)) && DirOk(s.start)))
    && DirOk(ViewOf(s))
  }

  /** The caller waits for a completion that will never come. */
  predicate Lost(s: Sys) {
    && Outstanding(s) && s.main.Resting? && s.posted == 0 && s.pending == []
    && LocksOk(s) && !(s.d.waiting && s.d.querying)
    && (!s.args.op.Open? ==> s.contents == s.start.contents)
  }

  predicate Inv(s: Sys) {
    if s.lost then Lost(s) else Core(s)
  }

  /** The calls that returned are a run of atomic steps that ends where the present call started. */
  ghost predicate History(s: Sys, init: View) {
    && RunFrom(init, s.trace)
    && End(init, s.trace) == (if s.caller.Idle? then ViewOf(s) else s.start)
    && (forall i :: 0 <= i < |s.trace| ==> HopsOk(s.trace[i]))
  }

  function AsDelegate(v: View): Delegate {
    Delegate(false, false, v.offset, v.info, v.io, v.dir)
  }

  /** After a handler run: either one request is pending and the call goes on, or the call has its result. */
  predicate Settled(s: Sys) {
    && DirOk(ViewOf(s))
    && if s.args.chaining then |s.pending| == 1 && Waiting(s, s.pending[0]) && s.main.Resting?
       else s.pending == [] && Final(s) && s.main.Finishing?
  }

  predicate AboutToStart(s: Sys, issued: int) {
    && s.main == Running(0, None) && Fresh(s) && s.pending == []
    && Legal(s.args.op, s.d) && !Refuses(s, issued) && DirOk(s.start)
  }

  predicate AboutToResume(s: Sys, q: Request, o: Outcome, issued: int) {
    && s.main == Running(o.result, Some((q, o))) && Answered(s, q, o) && s.pending == []
    && Legal(s.args.op, s.d) && !Refuses(s, issued) && DirOk(s.start) && Legal(s.args.op, AsDelegate(s.start))
  }

  // One lemma per operation, so that each proof unfolds one handler.

  lemma FirstEntryMounts(s: Sys, issued: int)
    requires AboutToStart(s, issued) && UsesMount(s.args.op) && !s.mounted
    ensures Settled(Proxy(s, issued))
  {
  }

  lemma FirstEntryMounted(s: Sys, issued: int)
    requires AboutToStart(s, issued) && UsesMount(s.args.op) && s.mounted
    ensures Settled(Proxy(s, issued))
  {
  }

  lemma FirstEntryFstat(s: Sys, issued: int)
    requires AboutToStart(s, issued) && s.args.op.Fstat?
    ensures Settled(Proxy(s, issued))
  {
  }

  lemma FirstEntryRead(s: Sys, issued: int)
    requires AboutToStart(s, issued) && s.args.op.Read?
    ensures Settled(Proxy(s, issued))
  {
  }

  lemma FirstEntryWrite(s: Sys, issued: int)
    requires AboutToStart(s, issued) && s.args.op.Write?
    ensures Settled(Proxy(s, issued))
  {
  }

  lemma FirstEntrySeek(s: Sys, issued: int)
    requires AboutToStart(s, issued) && s.args.op.Seek?
    ensures Settled(Proxy(s, issued))
  {
  }

  lemma FirstEntryNextName(s: Sys, issued: int)
    requires AboutToStart(s, issued) && s.args.op.ReadDir? && s.d.dir.Some? && s.d.dir.value.read
    ensures Settled(Proxy(s, issued))
  {
  }

  lemma FirstEntryList(s: Sys, issued: int)
    requires AboutToStart(s, issued) && s.args.op.ReadDir? && s.d.dir.Some? && !s.d.dir.value.read
    ensures Settled(Proxy(s, issued))
  {
  }

  lemma FirstEntryReadDir(s: Sys, issued: int)
    requires AboutToStart(s, issued) && s.args.op.ReadDir?
    ensures Settled(Proxy(s, issued))
  {
    if s.d.dir.value.read { FirstEntryNextName(s, issued); } else { FirstEntryList(s, issued); }
  }

  lemma FirstEntryOther(s: Sys, issued: int)
    requires AboutToStart(s, issued) && (s.args.op.Close? || s.args.op.RewindDir? || s.args.op.CloseDir?)
    ensures Settled(Proxy(s, issued))
  {
  }

  lemma ResumeOpenMounted(s: Sys, q: Request, o: Outcome, issued: int)
    requires AboutToResume(s, q, o, issued) && s.args.op.Open? && q.MountFs?
    ensures Settled(Proxy(s, issued))
  {
  }

  lemma ResumeOpenOpened(s: Sys, q: Request, o: Outcome, issued: int)
    requires AboutToResume(s, q, o, issued) && s.args.op.Open? && q.OpenFile?
    ensures Settled(Proxy(s, issued))
  {
  }

  lemma ResumeOpenQueried(s: Sys, q: Request, o: Outcome, issued: int)
    requires AboutToResume(s, q, o, issued) && s.args.op.Open? && q.QueryInfo?
    ensures Settled(Proxy(s, issued))
  {
  }

  lemma ResumeOpen(s: Sys, q: Request, o: Outcome, issued: int)
    requires AboutToResume(s, q, o, issued) && s.args.op.Open?
    ensures Settled(Proxy(s, issued))
  {
    if q.MountFs? { ResumeOpenMounted(s, q, o, issued); }
    else if q.OpenFile? { ResumeOpenOpened(s, q, o, issued); }
    else { ResumeOpenQueried(s, q, o, issued); }
  }

  lemma ResumeStatMounted(s: Sys, q: Request, o: Outcome, issued: int)
    requires AboutToResume(s, q, o, issued) && s.args.op.Stat? && q.MountFs?
    ensures Settled(Proxy(s, issued))
  {
  }

  lemma ResumeStatOpened(s: Sys, q: Request, o: Outcome, issued: int)
    requires AboutToResume(s, q, o, issued) && s.args.op.Stat? && q.OpenFile?
    ensures Settled(Proxy(s, issued))
  {
  }

  lemma ResumeStatQueried(s: Sys, q: Request, o: Outcome, issued: int)
    requires AboutToResume(s, q, o, issued) && s.args.op.Stat? && q.QueryInfo?
    ensures Settled(Proxy(s, issued))
  {
  }

  lemma ResumeStat(s: Sys, q: Request, o: Outcome, issued: int)
    requires AboutToResume(s, q, o, issued) && s.args.op.Stat?
    ensures Settled(Proxy(s, issued))
  {
    if q.MountFs? { ResumeStatMounted(s, q, o, issued); }
    else if q.OpenFile? { ResumeStatOpened(s, q, o, issued); }
    else { ResumeStatQueried(s, q, o, issued); }
  }

  lemma ResumeFstat(s: Sys, q: Request, o: Outcome, issued: int)
    requires AboutToResume(s, q, o, issued) && s.args.op.Fstat?
    ensures Settled(Proxy(s, issued))
  {
  }

  lemma ResumeRead(s: Sys, q: Request, o: Outcome, issued: int)
    requires AboutToResume(s, q, o, issued) && s.args.op.Read?
    ensures Settled(Proxy(s, issued))
  {
  }

  lemma ResumeWrite(s: Sys, q: Request, o: Outcome, issued: int)
    requires AboutToResume(s, q, o, issued) && s.args.op.Write?
    ensures Settled(Proxy(s, issued))
  {
  }

  lemma ResumeMkDir(s: Sys, q: Request, o: Outcome, issued: int)
    requires AboutToResume(s, q, o, issued) && s.args.op.MkDir?
    ensures Settled(Proxy(s, issued))
  {
  }

  lemma ResumeOpenDir(s: Sys, q: Request, o: Outcome, issued: int)
    requires AboutToResume(s, q, o, issued) && s.args.op.OpenDir?
    ensures Settled(Proxy(s, issued))
  {
  }

  lemma ResumeReadDir(s: Sys, q: Request, o: Outcome, issued: int)
    requires AboutToResume(s, q, o, issued) && s.args.op.ReadDir?
    ensures Settled(Proxy(s, issued))
  {
  }

  /** Running the handler on a freshly posted call. */
  lemma FirstEntry(s: Sys, issued: int)
    requires AboutToStart(s, issued)
    ensures Settled(Proxy(s, issued))
  {
    match s.args.op
    case Open(_) | Stat | MkDir | OpenDir =>
      if s.mounted { FirstEntryMounted(s, issued); } else { FirstEntryMounts(s, issued); }
    case Fstat => FirstEntryFstat(s, issued);
    case Read(_) => FirstEntryRead(s, issued);
    case Write(_) => FirstEntryWrite(s, issued);
    case Seek(_, _) => FirstEntrySeek(s, issued);
    case ReadDir => FirstEntryReadDir(s, issued);
    case _ => FirstEntryOther(s, issued);
  }

  /** Running the handler again when a completion has arrived. */
  lemma NextEntry(s: Sys, q: Request, o: Outcome, issued: int)
    requires AboutToResume(s, q, o, issued)
    ensures Settled(Proxy(s, issued))
  {
    match s.args.op
    case Open(_) => ResumeOpen(s, q, o, issued);
    case Stat => ResumeStat(s, q, o, issued);
    case Fstat => ResumeFstat(s, q, o, issued);
    case Read(_) => ResumeRead(s, q, o, issued);
    case Write(_) => ResumeWrite(s, q, o, issued);
    case MkDir => ResumeMkDir(s, q, o, issued);
    case OpenDir => ResumeOpenDir(s, q, o, issued);
    case ReadDir => ResumeReadDir(s, q, o, issued);
    case _ =>
  }

  lemma CallKeepsCore(s: Sys, l: Label)
    requires Core(s) && Enabled(s, l) && (l.Lock? || l.Post?)
    ensures Core(Step(s, l))
  {
  }

  lemma WaitKeepsRunning(s: Sys)
    requires Core(s) && Enabled(s, Wait) && s.main.Running?
    ensures Core(Step(s, Wait))
  {
  }

  lemma WaitKeepsOther(s: Sys)
    requires Core(s) && Enabled(s, Wait) && !s.main.Running?
    ensures Core(Step(s, Wait))
  {
  }

  lemma WaitKeepsCore(s: Sys)
    requires Core(s) && Enabled(s, Wait)
    ensures Core(Step(s, Wait))
  {
    if s.main.Running? { WaitKeepsRunning(s); } else { WaitKeepsOther(s); }
  }

  lemma WakeKeepsCore(s: Sys)
    requires Core(s) && Enabled(s, Wake)
    ensures Core(Step(s, Wake))
  {
  }

  lemma EdgeStepKeepsCore(s: Sys, l: Label)
    requires Core(s) && Enabled(s, l) && (l.Begin? || l.Elsewhere? || l.Return?)
    ensures Core(Step(s, l))
  {
  }

  lemma TakeKeepsCore(s: Sys, l: Label)
    requires Core(s) && Enabled(s, l) && l.Take?
    ensures Core(Step(s, l))
  {
  }

  /** What a completion leaves alone, and what it changes. */
  ghost predicate Completed(s: Sys, s': Sys, q: Request, o: Outcome) {
    && s'.start == s.start && s'.mountedAtStart == s.mountedAtStart && s'.hops == s.hops && s'.mounted == s.mounted
    && FlagsAre(s', s.d.waiting, s.d.querying)
    && s'.codes == s.codes + [o.result]
    && ValidOutcome(q, ViewOf(s), o)
    && ViewOf(s') == Deliver(q, o, ViewOf(s)).view
    && s'.listed == s.listed + Deliver(q, o, ViewOf(s)).listed
    && s'.args == s.args.(buf := s.args.buf + Deliver(q, o, ViewOf(s)).buf)
  }

  lemma CompleteStep(s: Sys, l: Label)
    requires Enabled(s, l) && l.Complete? && |s.pending| == 1
    ensures var s' := Step(s, l);
            && Completed(s, s', s.pending[0], l.outcome)
            && s'.pending == [] && s'.main == Running(l.outcome.result, Some((s.pending[0], l.outcome)))
            && s'.caller == s.caller && s'.owner == s.owner && s'.posted == s.posted && s'.lost == s.lost
  {
  }

  /** The completion of a waiting request is an answer to it. */
  lemma CompletedIsAnswered(s: Sys, s': Sys, q: Request, o: Outcome)
    requires Waiting(s, q) && Completed(s, s', q, o)
    ensures Answered(s', q, o)
  {
    var got := Deliver(q, o, ViewOf(s));
    assert [] + got.buf == got.buf && [] + got.listed == got.listed;
    assert s'.codes[..|s'.codes| - 1] == s.codes;
  }

  lemma CompletedKeepsDirOk(s: Sys, s': Sys, q: Request, o: Outcome)
    requires DirOk(ViewOf(s)) && Completed(s, s', q, o)
    ensures DirOk(ViewOf(s'))
  {
  }

  lemma CompleteKeepsCore(s: Sys, l: Label)
    requires Core(s) && Enabled(s, l) && l.Complete?
    ensures Core(Step(s, l))
  {
    CompleteStep(s, l);
    CompletedIsAnswered(s, Step(s, l), s.pending[0], l.outcome);
    CompletedKeepsDirOk(s, Step(s, l), s.pending[0], l.outcome);
  }

  lemma SwitchSettles(s: Sys, issued: int)
    requires Core(s) && Enabled(s, Switch(issued)) && !Refuses(s, issued)
    ensures Settled(Proxy(s, issued))
  {
    match s.main
    case Running(_, None) => FirstEntry(s, issued);
    case Running(_, Some((q, o))) => NextEntry(s, q, o, issued);
  }

  lemma SwitchKeepsCore(s: Sys, l: Label)
    requires Core(s) && Enabled(s, l) && l.Switch? && !Refuses(s, l.issued)
    ensures Core(Step(s, l))
  {
    SwitchSettles(s, l.issued);
  }

  lemma MainLockKeepsCore(s: Sys)
    requires Core(s) && Enabled(s, MainLock)
    ensures Core(Step(s, MainLock))
  {
  }

  lemma SignalKeepsCore(s: Sys)
    requires Core(s) && Enabled(s, Signal)
    ensures Core(Step(s, Signal))
  {
  }

  lemma MainUnlockKeepsCore(s: Sys)
    requires Core(s) && Enabled(s, MainUnlock)
    ensures Core(Step(s, MainUnlock))
  {
  }

  lemma MainStepKeepsCore(s: Sys, l: Label)
    requires Core(s) && Enabled(s, l) && (l.MainLock? || l.Signal? || l.MainUnlock?)
    ensures Core(Step(s, l))
  {
    if l.MainLock? { MainLockKeepsCore(s); }
    else if l.Signal? { SignalKeepsCore(s); }
    else { MainUnlockKeepsCore(s); }
  }

  lemma CallerStepKeepsCore(s: Sys, l: Label)
    requires Core(s) && Enabled(s, l)
    requires l.Begin? || l.Elsewhere? || l.Lock? || l.Post? || l.Wait? || l.Wake? || l.Return?
    ensures Core(Step(s, l))
  {
    if l.Lock? || l.Post? { CallKeepsCore(s, l); }
    else if l.Wait? { WaitKeepsCore(s); }
    else if l.Wake? { WakeKeepsCore(s); }
    else { EdgeStepKeepsCore(s, l); }
  }

  lemma EventKeepsCore(s: Sys, l: Label)
    requires Core(s) && Enabled(s, l)
    requires l.Take? || l.Complete? || (l.Switch? && !Refuses(s, l.issued))
    ensures Core(Step(s, l))
  {
    if l.Take? { TakeKeepsCore(s, l); }
    else if l.Complete? { CompleteKeepsCore(s, l); }
    else { SwitchKeepsCore(s, l); }
  }

  lemma StepKeepsCore(s: Sys, l: Label)
    requires Core(s) && Enabled(s, l) && (l.Switch? ==> !Refuses(s, l.issued))
    ensures Core(Step(s, l))
  {
    if l.Take? || l.Complete? || l.Switch? { EventKeepsCore(s, l); }
    else if l.MainLock? || l.Signal? || l.MainUnlock? { MainStepKeepsCore(s, l); }
    else { CallerStepKeepsCore(s, l); }
  }

  lemma RefusalLoses(s: Sys, issued: int)
    requires Core(s) && Enabled(s, Switch(issued)) && Refuses(s, issued)
    ensures Lost(Step(s, Switch(issued)))
  {
  }

  lemma LostStaysLost(s: Sys, l: Label)
    requires Lost(s) && s.lost && Enabled(s, l)
    ensures Lost(Step(s, l)) && Step(s, l).lost
  {
  }

  /** The event that makes the caller wait for good. */
  predicate Refusal(s: Sys, l: Label) {
    l.Switch? && s.main.Running? && Refuses(s, l.issued)
  }

  lemma OnlyRefusalLoses(s: Sys, l: Label)
    requires Enabled(s, l)
    ensures Step(s, l).lost <==> s.lost || Refusal(s, l)
  {
  }

  lemma StepKeepsInv(s: Sys, l: Label)
    requires Inv(s) && Enabled(s, l)
    ensures Inv(Step(s, l))
    ensures Step(s, l).lost <==> s.lost || Refusal(s, l)
  {
    OnlyRefusalLoses(s, l);
    if s.lost {
      LostStaysLost(s, l);
    } else if Refusal(s, l) {
      RefusalLoses(s, l.issued);
    } else {
      StepKeepsCore(s, l);
    }
  }

  lemma StepKeepsHistory(s: Sys, l: Label, init: View)
    requires Inv(s) && History(s, init) && Enabled(s, l)
    ensures History(Step(s, l), init)
  {
    if l.Return? {
      RunThenCall(init, s.trace, EntryOf(s));
    }
  }

  // Runs

  /** The contents of a file; an absent one has none. */
  function ContentsOf(file: Option<seq<byte>>): seq<byte> {
    match file
    case None => []
    case Some(contents) => contents
  }

  /** A new delegate on a file that is absent or has any contents; its FileInfo is not initialised yet. */
  function Initial(file: Option<seq<byte>>, junk: FileInfo, mounted: bool): Sys {
    var d := Delegate(false, false, 0, junk, false, None);
    Sys(Idle, Resting, Nobody, 0, [], Args(Close, false, NoResult, [], None), d, mounted,
        ContentsOf(file), Standing(file.Some?, false, false), NewView(file, junk), mounted, 0, [], 0, [], [], false)
  }

  function NewView(file: Option<seq<byte>>, junk: FileInfo): View {
    View(ContentsOf(file), 0, junk, false, None, Standing(file.Some?, false, false))
  }

  ghost predicate IsRun(file: Option<seq<byte>>, junk: FileInfo, mounted: bool, ls: seq<Label>) {
    EnabledRun(Enabled, Step, Initial(file, junk, mounted), ls)
  }

  ghost function Ran(file: Option<seq<byte>>, junk: FileInfo, mounted: bool, ls: seq<Label>): Sys {
    After(Step, Initial(file, junk, mounted), ls)
  }

  lemma FromInitial(file: Option<seq<byte>>, junk: FileInfo, mounted: bool, ls: seq<Label>)
    requires IsRun(file, junk, mounted, ls)
    ensures Inv(Ran(file, junk, mounted, ls))
    ensures History(Ran(file, junk, mounted, ls), NewView(file, junk))
  {
    var init := NewView(file, junk);
    forall s: Sys, l: Label | Inv(s) && History(s, init) && Enabled(s, l)
      ensures Inv(Step(s, l)) && History(Step(s, l), init)
    {
      StepKeepsInv(s, l);
      StepKeepsHistory(s, l, init);
    }
    Invariance(Enabled, Step, s => Inv(s) && History(s, init), Initial(file, junk, mounted), ls);
  }

  /** Asynchronous refines atomic: in every run the calls that returned are a run of atomic steps from the initial
      view, and whenever the caller is idle the present view is where that run ends. */
  lemma CallsAreAtomic(file: Option<seq<byte>>, junk: FileInfo, mounted: bool, ls: seq<Label>)
    requires IsRun(file, junk, mounted, ls)
    ensures var s := Ran(file, junk, mounted, ls);
            && RunFrom(NewView(file, junk), s.trace)
            && (s.caller.Idle? ==> End(NewView(file, junk), s.trace) == ViewOf(s))
  {
    FromInitial(file, junk, mounted, ls);
  }

  /** In every reachable state `waiting_` and `querying_` are not both set; unless the browser refused an unchecked
      request, exactly one main-thread event refers to the arguments of an unsignalled call, and none otherwise; an
      idle caller leaves nothing behind. */
  lemma ContinuationInvariant(file: Option<seq<byte>>, junk: FileInfo, mounted: bool, ls: seq<Label>)
    requires IsRun(file, junk, mounted, ls)
    ensures var s := Ran(file, junk, mounted, ls);
            && !(s.d.waiting && s.d.querying)
            && Events(s) == (if Outstanding(s) && !s.lost then 1 else 0)
            && (s.caller.Idle? ==> !s.d.waiting && !s.d.querying && s.posted == 0 && s.pending == [] && s.main.Resting?)
  {
    FromInitial(file, junk, mounted, ls);
  }

  /** The handler runs at most 4 times for open and stat, 3 for mkdir, 2 for opendir, read, write, fstat and readdir,
      once for the rest, and exactly `Bound` times in a call that went well. */
  lemma HandlerRunsAreBounded(file: Option<seq<byte>>, junk: FileInfo, mounted: bool, ls: seq<Label>, i: nat)
    requires IsRun(file, junk, mounted, ls) && i < |Ran(file, junk, mounted, ls).trace|
    ensures var e := Ran(file, junk, mounted, ls).trace[i];
            && HopsOk(e)
            && e.hops <= (match e.op
                          case Open(_) | Stat => 4
                          case MkDir => 3
                          case OpenDir | Read(_) | Write(_) | Fstat | ReadDir => 2
                          case _ => 1)
  {
    FromInitial(file, junk, mounted, ls);
  }

  /** The first call of a run was an Open that returned 0, and no call is in progress. */
  ghost predicate OpenedAndIdle(s: Sys, oflag: OFlag) {
    s.caller.Idle? && s.trace != [] && s.trace[0].op == Open(oflag) && s.trace[0].result == Code(0)
  }

  /** After an Open that returned 0, which takes both its requests to complete with 0, the delegate has its FileIO
      for good: no later call can find it missing. */
  lemma OpenIsSound(file: Option<seq<byte>>, junk: FileInfo, mounted: bool, ls: seq<Label>, oflag: OFlag)
    requires IsRun(file, junk, mounted, ls) && OpenedAndIdle(Ran(file, junk, mounted, ls), oflag)
    ensures var s := Ran(file, junk, mounted, ls);
            && OpenedAndQueried(s.trace[0])
            && s.trace[0].post.info.size == |s.trace[0].post.contents|
            && s.d.io && (forall n :: Legal(Read(n), s.d)) && Legal(Fstat, s.d) && Legal(Close, s.d)
  {
    CallsAreAtomic(file, junk, mounted, ls);
    var s := Ran(file, junk, mounted, ls);
    FileIoStays(s.trace[0].post, s.trace[1..]);
  }

  /** The cached size along asynchronous runs: after an Open that returned 0, it is the real size exactly when
      `TracksAll` says so of the calls since. */
  lemma AsyncCachedSize(file: Option<seq<byte>>, junk: FileInfo, mounted: bool, ls: seq<Label>, oflag: OFlag)
    requires IsRun(file, junk, mounted, ls) && OpenedAndIdle(Ran(file, junk, mounted, ls), oflag)
    requires var s := Ran(file, junk, mounted, ls); forall i :: 1 <= i < |s.trace| ==> !s.trace[i].op.Open?
    ensures var s := Ran(file, junk, mounted, ls); SizeKnown(ViewOf(s), TracksAll(true, s.trace[1..]))
  {
    CallsAreAtomic(file, junk, mounted, ls);
    var s := Ran(file, junk, mounted, ls);
    CachedSizeTracks(s.trace[0], s.trace[1..]);
  }

  lemma AnsweredContents(s: Sys, q: Request, o: Outcome)
    requires Answered(s, q, o) && !s.args.op.Open? && !s.start.standing.writable
    ensures s.contents == s.start.contents
  {
  }

  lemma WaitingContents(s: Sys, q: Request)
    requires Waiting(s, q) && !s.args.op.Open?
    ensures s.contents == s.start.contents
  {
  }

  /** In the middle of a call on a file that is not open for writing, and that is not opened again, the contents are
      what they were at its start. */
  lemma MidCallContents(s: Sys)
    requires Inv(s) && !s.caller.Idle? && !s.args.op.Open? && !s.start.standing.writable
    ensures s.contents == s.start.contents
  {
    if !s.lost && s.main.Running? && s.main.via.Some? {
      AnsweredContents(s, s.main.via.value.0, s.main.via.value.1);
    } else if !s.lost && |s.pending| == 1 {
      WaitingContents(s, s.pending[0]);
    }
  }

  /** The first call that returned was an Open that succeeded, and the file was not and is not opened again. */
  ghost predicate OpenedOnce(s: Sys, oflag: OFlag) {
    && s.trace != [] && s.trace[0].op == Open(oflag) && s.trace[0].result == Code(0) && NoOpens(s.trace[1..])
    && (s.caller.Idle? || !s.args.op.Open?)
  }

  /** After an open with O_RDONLY, or with no access, the contents never change: not in any later state, between calls
      or in the middle of one; and every write fails. */
  lemma AsyncReadOnly(file: Option<seq<byte>>, junk: FileInfo, mounted: bool, ls: seq<Label>, oflag: OFlag)
    requires IsRun(file, junk, mounted, ls) && OpenedOnce(Ran(file, junk, mounted, ls), oflag)
    requires oflag.access == ReadOnly || oflag.access == NoAccess
    ensures var s := Ran(file, junk, mounted, ls);
            && s.contents == (if oflag.trunc then [] else ContentsOf(file))
            && forall i :: 1 <= i < |s.trace| ==> s.trace[i].op.Write? ==>
                 s.trace[i].result.Code? && s.trace[i].result.code < 0
  {
    FromInitial(file, junk, mounted, ls);
    var s := Ran(file, junk, mounted, ls);
    var es := s.trace[1..];
    assert forall i :: 1 <= i < |s.trace| ==> s.trace[i] == es[i - 1];
    OpenGrants(s.trace[0]);
    UnwritableRun(s.trace[0].post, es);
    if !s.caller.Idle? {
      MidCallContents(s);
    }
  }

  /** After an open with O_WRONLY, or with no access, every read fails and returns no bytes. */
  lemma AsyncWriteOnly(file: Option<seq<byte>>, junk: FileInfo, mounted: bool, ls: seq<Label>, oflag: OFlag)
    requires IsRun(file, junk, mounted, ls) && OpenedOnce(Ran(file, junk, mounted, ls), oflag)
    requires oflag.access == WriteOnly || oflag.access == NoAccess
    ensures var s := Ran(file, junk, mounted, ls);
            forall i :: 1 <= i < |s.trace| ==> s.trace[i].op.Read? ==>
              s.trace[i].result.Code? && s.trace[i].result.code < 0 && s.trace[i].buf == []
  {
    CallsAreAtomic(file, junk, mounted, ls);
    var s := Ran(file, junk, mounted, ls);
    var es := s.trace[1..];
    assert forall i :: 1 <= i < |s.trace| ==> s.trace[i] == es[i - 1];
    WriteOnlyNeverReads(s.trace[0], es);
  }

  /** Appending and reading back along asynchronous runs: whatever the partial counts and the interleaving, an Open
      with O_APPEND, writes, a seek to the old length and reads without errors until 0 fetch what was stored, and the
      file is its old contents followed by that. */
  lemma AsyncAppendThenReadBack(file: Option<seq<byte>>, junk: FileInfo, mounted: bool, ls: seq<Label>,
                                open: Entry, writes: seq<Entry>, seek: Entry, fetches: seq<Entry>)
    requires IsRun(file, junk, mounted, ls)
    requires Ran(file, junk, mounted, ls).trace == [open] + (writes + ([seek] + fetches))
    requires open.op.Open? && open.op.oflag.append && open.result == Code(0)
    requires forall i :: 0 <= i < |writes| ==> writes[i].op.Write?
    requires seek.op == Seek(|open.post.contents|, SeekSet)
    requires fetches != [] && fetches[|fetches| - 1].result == Code(0)
    requires forall i :: 0 <= i < |fetches| ==>
               fetches[i].op.Read? && fetches[i].op.nbytes > 0 && fetches[i].result.Code? && fetches[i].result.code >= 0
    ensures seek.pre.contents == Truncated(open.op.oflag, ContentsOf(file)) + Stored(writes)
    ensures Fetched(fetches) == Stored(writes)
  {
    CallsAreAtomic(file, junk, mounted, ls);
    AppendThenReadBackRun(NewView(file, junk), open, writes, seek, fetches);
  }

  /** The directory stream along asynchronous runs: after an OpenDir, readdirs and rewinddirs are a cursor over what
      the first successful listing delivered. */
  lemma AsyncDirectoryStream(file: Option<seq<byte>>, junk: FileInfo, mounted: bool, ls: seq<Label>, es: seq<Entry>)
    requires IsRun(file, junk, mounted, ls)
    requires var s := Ran(file, junk, mounted, ls); s.trace != [] && s.trace[0].op == OpenDir && s.trace[1..] == es
    requires forall i :: 0 <= i < |es| ==> es[i].op.ReadDir? || es[i].op.RewindDir?
    ensures var k := FirstLoad(es);
            && (forall i :: 0 <= i < k ==> es[i].op.ReadDir? ==> es[i].result == Dirent(None))
            && (k < |es| ==> Results(es[k..]) == Cursor(es[k].listed, 0, Ops(es[k..])))
            && (forall i :: k <= i < |es| ==> es[i].op.ReadDir? ==>
                  IsNameAt(es[i].result, es[k].listed, Position(0, es[k..i])))
  {
    CallsAreAtomic(file, junk, mounted, ls);
    OpenedDirectoryStream(Ran(file, junk, mounted, ls).trace[0], es);
  }

  // Every call returns, unless an unchecked request is refused

  function Rank(c: Caller): nat {
    match c
    case Idle => 0
    case Leaving => 1
    case Woken => 2
    case Blocked => 3
    case Posted => 4
    case Holding => 5
    case Entering => 6
  }

  /** Steps still to be taken: every handler run costs an event and the run itself. */
  function Cost(s: Sys): int {
    var left := 2 * (Bound(s.args.op, s.mountedAtStart) - s.hops);
    Rank(s.caller)
    + (match s.main
       case Resting => if s.caller.Entering? || s.caller.Holding? || Outstanding(s) then left + 3 else 0
       case Running(_, _) => left + 2
       case Finishing => 3
       case Signalling => 2
       case Releasing => 1)
  }

  function Measure(s: Sys): nat {
    if s.lost then Count(s.caller.Posted?) else if Cost(s) < 0 then 0 else Cost(s)
  }

  lemma CostBounds(s: Sys)
    requires Core(s)
    ensures 0 <= Cost(s) <= 17
  {
    if s.main.Running? && s.main.via.Some? {
      assert Answered(s, s.main.via.value.0, s.main.via.value.1);
    } else if |s.pending| == 1 {
      assert Waiting(s, s.pending[0]);
    }
  }

  /** A step of the call in progress. */
  predicate Inside(s: Sys, l: Label) {
    Enabled(s, l) && !l.Begin? && !l.Elsewhere?
  }

  lemma HandlerRunCosts(s: Sys, issued: int)
    requires Core(s) && Enabled(s, Switch(issued)) && !Refuses(s, issued)
    ensures Cost(Step(s, Switch(issued))) < Cost(s)
  {
    SwitchSettles(s, issued);
  }

  lemma CallerStepCosts(s: Sys, l: Label)
    requires Core(s) && Inside(s, l) && (l.Lock? || l.Post? || l.Wait? || l.Wake? || l.Return?)
    ensures Cost(Step(s, l)) < Cost(s)
  {
  }

  lemma MainStepCosts(s: Sys, l: Label)
    requires Core(s) && Inside(s, l) && (l.Take? || l.Complete? || l.MainLock? || l.Signal? || l.MainUnlock?)
    ensures Cost(Step(s, l)) < Cost(s)
  {
  }

  lemma StepCosts(s: Sys, l: Label)
    requires Core(s) && Inside(s, l) && (l.Switch? ==> !Refuses(s, l.issued))
    ensures Cost(Step(s, l)) < Cost(s)
  {
    if l.Switch? { HandlerRunCosts(s, l.issued); }
    else if l.Lock? || l.Post? || l.Wait? || l.Wake? || l.Return? { CallerStepCosts(s, l); }
    else { MainStepCosts(s, l); }
  }

  lemma RefusalDecreases(s: Sys, l: Label)
    requires Core(s) && !s.lost && Inside(s, l) && Refusal(s, l)
    ensures Measure(Step(s, l)) < Measure(s) <= 17
  {
    CostBounds(s);
    RefusalLoses(s, l.issued);
    assert Cost(s) >= 5;
  }

  lemma CoreDecreases(s: Sys, l: Label)
    requires Core(s) && !s.lost && Inside(s, l) && !Refusal(s, l)
    ensures Measure(Step(s, l)) < Measure(s) <= 17
  {
    CostBounds(s);
    StepCosts(s, l);
    OnlyRefusalLoses(s, l);
  }

  lemma LostDecreases(s: Sys, l: Label)
    requires Lost(s) && s.lost && Inside(s, l)
    ensures Measure(Step(s, l)) < Measure(s) <= 17
  {
  }

  lemma StepDecreases(s: Sys, l: Label)
    requires Inv(s) && Inside(s, l)
    ensures Measure(Step(s, l)) < Measure(s) <= 17
  {
    if s.lost { LostDecreases(s, l); }
    else if Refusal(s, l) { RefusalDecreases(s, l); }
    else { CoreDecreases(s, l); }
  }

  lemma HandlerCanRun(s: Sys)
    requires Core(s) && !s.lost && !s.caller.Idle? && s.main.Running?
    ensures Inside(s, Switch(PP_OK_COMPLETIONPENDING)) && !Step(s, Switch(PP_OK_COMPLETIONPENDING)).lost
  {
    if s.main.via.Some? { assert Answered(s, s.main.via.value.0, s.main.via.value.1); }
  }

  /** A step that takes a call in progress on, with the browser accepting what it is asked. */
  lemma NeverStuck(s: Sys) returns (l: Label)
    requires Core(s) && !s.lost && !s.caller.Idle?
    ensures Inside(s, l) && !Step(s, l).lost
  {
    match s.main
    case Running(_, _) =>
      HandlerCanRun(s);
      l := Switch(PP_OK_COMPLETIONPENDING);
    case Finishing => l := if s.owner.Nobody? then MainLock else Wait;
    case Signalling => l := Signal;
    case Releasing => l := MainUnlock;
    case Resting =>
      match s.caller {
        case Entering => l := Lock;
        case Holding => l := Post;
        case Posted => l := Wait;
        case Woken => l := Wake;
        case Leaving => l := Return;
        case Blocked =>
          l := if s.posted > 0 then Take else Complete(Outcome(-2, Other, []));
      }
  }

  lemma CallIsShort(s: Sys, ls: seq<Label>)
    requires Inv(s) && EnabledRun(Inside, Step, s, ls)
    ensures Inv(After(Step, s, ls)) && |ls| <= Measure(s)
  {
    forall s: Sys, l: Label | Inv(s) && Inside(s, l)
      ensures Inv(Step(s, l)) && Measure(Step(s, l)) < Measure(s)
    {
      StepKeepsInv(s, l);
      StepDecreases(s, l);
    }
    Bounded(Inside, Step, Inv, Measure, s, ls);
  }

  /** A call in progress takes at most 17 more steps, and some step can be taken until the caller is idle, unless an
      unchecked request has been refused. */
  lemma CallReturns(s: Sys, ls: seq<Label>)
    requires Inv(s) && EnabledRun(Inside, Step, s, ls)
    ensures |ls| <= 17
    ensures var s' := After(Step, s, ls); s'.caller.Idle? || s'.lost || exists l: Label :: Inside(s', l)
  {
    CallIsShort(s, ls);
    if ls != [] {
      StepDecreases(s, ls[0]);
    }
    var s' := After(Step, s, ls);
    if !s'.caller.Idle? && !s'.lost {
      var l := NeverStuck(s');
    }
  }

  /** The call in progress can still return. */
  ghost predicate CanReturn(s: Sys) {
    exists ls: seq<Label> :: EnabledRun(Inside, Step, s, ls) && After(Step, s, ls).caller.Idle?
  }

  predicate Promising(s: Sys) {
    Inv(s) && !s.lost
  }

  lemma StepTowardsReturn(s: Sys)
    requires Promising(s) && !s.caller.Idle?
    ensures exists l: Label :: Inside(s, l) && Promising(Step(s, l)) && Measure(Step(s, l)) < Measure(s)
  {
    var l := NeverStuck(s);
    StepKeepsInv(s, l);
    StepDecreases(s, l);
  }

  lemma ReturnRun(s: Sys)
    requires Promising(s)
    ensures CanReturn(s)
  {
    forall s: Sys | Promising(s) && !s.caller.Idle?
      ensures exists l: Label :: Inside(s, l) && Promising(Step(s, l)) && Measure(Step(s, l)) < Measure(s)
    {
      StepTowardsReturn(s);
    }
    var ls: seq<Label> := Attainable(Inside, Step, Promising, (s: Sys) => s.caller.Idle?, Measure, s);
  }

  predicate Forlorn(s: Sys) {
    Lost(s) && s.lost
  }

  lemma LostForGood(s: Sys)
    requires Forlorn(s)
    ensures !CanReturn(s)
  {
    if ls: seq<Label> :| EnabledRun(Inside, Step, s, ls) && After(Step, s, ls).caller.Idle? {
      forall s: Sys, l: Label | Forlorn(s) && Inside(s, l) ensures Forlorn(Step(s, l)) {
        LostStaysLost(s, l);
      }
      Invariance(Inside, Step, Forlorn, s, ls);
    }
  }

  lemma LostIfRefused(s: Sys, ls: seq<Label>)
    requires Inv(s) && EnabledRun(Enabled, Step, s, ls)
    ensures After(Step, s, ls).lost <==> s.lost || Happens(Step, Refusal, s, ls)
  {
    forall s: Sys, l: Label | Inv(s) && Enabled(s, l)
      ensures Inv(Step(s, l)) && (Step(s, l).lost <==> s.lost || Refusal(s, l))
    {
      StepKeepsInv(s, l);
    }
    Flagged(Enabled, Step, Inv, Refusal, (s: Sys) => s.lost, s, ls);
  }

  /** Every call returns, in every run, exactly if no unchecked request was refused: as soon as one is, the caller
      waits for good, and otherwise the call in progress can always be brought to its end. */
  lemma ReturnsUnlessRefused(file: Option<seq<byte>>, junk: FileInfo, mounted: bool, ls: seq<Label>)
    requires IsRun(file, junk, mounted, ls)
    ensures CanReturn(Ran(file, junk, mounted, ls))
            <==> !Happens(Step, Refusal, Initial(file, junk, mounted), ls)
  {
    FromInitial(file, junk, mounted, ls);
    LostIfRefused(Initial(file, junk, mounted), ls);
    var s := Ran(file, junk, mounted, ls);
    if s.lost {
      LostForGood(s);
    } else {
      ReturnRun(s);
    }
  }

  /** A call up to its first handler run. */
  function Called(s: Sys, op: Op): Sys {
    s.(caller := Blocked, main := Running(0, None), args := Args(op, false, NoResult, [], None), start := ViewOf(s),
       mountedAtStart := s.mounted, hops := 0, codes := [], issued := 0, listed := [])
  }

  /** The steps that take a call up to its first handler run. */
  function Calling(op: Op, rest: seq<Label>): seq<Label> {
    [Begin(op)] + ([Lock] + ([Post] + ([Wait] + ([Take] + rest))))
  }

  lemma CallingRun(s: Sys, op: Op, rest: seq<Label>)
    requires s.caller.Idle? && s.main.Resting? && s.owner.Nobody? && s.posted == 0 && Legal(op, s.d)
    requires EnabledRun(Enabled, Step, Called(s, op), rest)
    ensures EnabledRun(Enabled, Step, s, Calling(op, rest))
    ensures After(Step, s, Calling(op, rest)) == After(Step, Called(s, op), rest)
  {
    var s1 := Step(s, Begin(op));
    var s2 := Step(s1, Lock);
    var s3 := Step(s2, Post);
    var s4 := Step(s3, Wait);
    assert Step(s4, Take) == Called(s, op);
    RunCons(Enabled, Step, s4, Take, rest);
    RunCons(Enabled, Step, s3, Wait, [Take] + rest);
    RunCons(Enabled, Step, s2, Post, [Wait] + ([Take] + rest));
    RunCons(Enabled, Step, s1, Lock, [Post] + ([Wait] + ([Take] + rest)));
    RunCons(Enabled, Step, s, Begin(op), [Lock] + ([Post] + ([Wait] + ([Take] + rest))));
  }

  /** A stat that starts with no file system object, when the browser refuses to mount. */
  const REFUSED_STAT: seq<Label> := Calling(Stat, [Switch(-2)])

  lemma RefusedStatRuns(file: Option<seq<byte>>, junk: FileInfo)
    ensures IsRun(file, junk, false, REFUSED_STAT)
    ensures var s := Ran(file, junk, false, REFUSED_STAT); Forlorn(s) && s.caller.Blocked?
  {
    var none: seq<Label> := [];
    var s := Called(Initial(file, junk, false), Stat);
    assert EnabledRun(Enabled, Step, Step(s, Switch(-2)), none);
    RunCons(Enabled, Step, s, Switch(-2), none);
    assert [Switch(-2)] + none == [Switch(-2)];
    CallingRun(Initial(file, junk, false), Stat, [Switch(-2)]);
  }

  /** Such a run: whatever the file, the caller blocks in the wait and can never return. */
  lemma RefusedMountNeverReturns(file: Option<seq<byte>>, junk: FileInfo)
    ensures IsRun(file, junk, false, REFUSED_STAT)
    ensures var s := Ran(file, junk, false, REFUSED_STAT); s.lost && s.caller.Blocked? && !CanReturn(s)
    ensures Happens(Step, Refusal, Initial(file, junk, false), REFUSED_STAT)
  {
    RefusedStatRuns(file, junk);
    LostForGood(Ran(file, junk, false, REFUSED_STAT));
    ReturnsUnlessRefused(file, junk, false, REFUSED_STAT);
  }
}
