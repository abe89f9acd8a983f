/** The descriptor table and the ownership of delegates.  Delegates are numbered in order of creation.  A state
    records where each of them is: bound in a descriptor slot, owned by an open directory, in use by the call in
    progress, or deleted.  Slots and directories are never removed from their lists, only emptied. */
module Ownership {
  import opened Wrappers
  import opened Errno
  import opened Strings
  import opened Paths
  import opened Console
  import opened Runs
  import H = Html5
  import A = AtomicFile

  /** A port delegate is a device.  A browser-file delegate keeps the view it was created with, the calls it has
      answered, and the view they led to. */
  datatype Delegate = Port(device: Device) | Html5(born: A.View, past: seq<A.Entry>, view: A.View)

  datatype Table = Table(delegates: seq<Delegate>, slots: seq<Option<nat>>, dirs: seq<Option<nat>>,
                         inUse: seq<nat>, deleted: seq<nat>)

  datatype World = World(cwd: string, table: Table)

  const START: World := World("", Table([], [], [], [], []))

  function Owners(places: seq<Option<nat>>): multiset<nat> {
    if places == [] then multiset{} else Owners(places[..|places| - 1]) + Owner(Last(places))
  }

  function Owner(place: Option<nat>): multiset<nat> {
    match place
    case None => multiset{}
    case Some(d) => multiset{d}
  }

  /** How often each delegate occurs over the four places together. */
  function Census(t: Table): multiset<nat> {
    Owners(t.slots) + Owners(t.dirs) + multiset(t.inUse) + multiset(t.deleted)
  }

  /** Every delegate ever created is in exactly one place, once; nothing else is anywhere. */
  ghost predicate Conserved(t: Table) {
    forall d: nat :: Census(t)[d] == (if d < |t.delegates| then 1 else 0)
  }

  // The steps that move delegates

  function Create(t: Table, d: Delegate): Table {
    t.(delegates := t.delegates + [d], inUse := t.inUse + [|t.delegates|])
  }

  function DeleteTemporary(t: Table): Table
    requires |t.inUse| == 1
  {
    t.(inUse := [], deleted := t.deleted + t.inUse)
  }

  function Bind(t: Table): Table
    requires |t.inUse| == 1
  {
    t.(inUse := [], slots := t.slots + [Some(t.inUse[0])])
  }

  function Adopt(t: Table): Table
    requires |t.inUse| == 1
  {
    t.(inUse := [], dirs := t.dirs + [Some(t.inUse[0])])
  }

  function DeleteBound(t: Table, fd: nat): Table
    requires fd < |t.slots| && t.slots[fd].Some?
  {
    t.(slots := t.slots[fd := None], deleted := t.deleted + [t.slots[fd].value])
  }

  function DeleteDir(t: Table, dir: nat): Table
    requires dir < |t.dirs| && t.dirs[dir].Some?
  {
    t.(dirs := t.dirs[dir := None], deleted := t.deleted + [t.dirs[dir].value])
  }

  /** A call changes the delegate object itself. */
  function Update(t: Table, d: nat, next: Delegate): Table
    requires d < |t.delegates|
  {
    t.(delegates := t.delegates[d := next])
  }

  // What delegates answer

  /** A call on a browser-file delegate is refused on the main thread; otherwise it is one atomic call. */
  datatype Answer = MainThread | Answered(entry: A.Entry)

  /** A new browser-file delegate: position 0, no FileIO, no directory. */
  predicate IsNew(v: A.View) {
    v.offset == 0 && !v.io && v.dir == None && !v.standing.readable && !v.standing.writable
  }

  predicate AnswersNew(a: Answer, op: H.Op) {
    a.Answered? ==> A.Atomic(a.entry) && a.entry.op == op && IsNew(a.entry.pre)
  }

  predicate AnswersFrom(a: Answer, op: H.Op, v: A.View) {
    a.Answered? ==> A.Atomic(a.entry) && a.entry.op == op && a.entry.pre == v
  }

  /** The number a call returns, where the guard against the main thread returns `guard`. */
  function CodeOf(a: Answer, guard: int): int
    requires a.Answered? ==> a.entry.result.Code?
  {
    if a.MainThread? then guard else a.entry.result.code
  }

  function Told(d: Delegate, a: Answer): Delegate {
    if d.Html5? && a.Answered? then Html5(d.born, d.past + [a.entry], a.entry.post) else d
  }

  const BLANK: A.View := A.View([], 0, H.FileInfo(0, H.Other), false, None, A.Standing(false, false, false))

  function NewFile(a: Answer): Delegate {
    var born := if a.Answered? then a.entry.pre else BLANK;
    Html5(born, [], born)
  }

  predicate IsPort(full: string) {
    "/dev/std" <= full
  }

  function NewDelegate(full: string, a: Answer): Delegate {
    if IsPort(full) then Port(NEW_DEVICE) else NewFile(a)
  }

  /** A new delegate after its Open, and after its Stat, MkDir or OpenDir. */
  function OpenedDelegate(full: string, a: Answer): Delegate {
    if IsPort(full) then Port(OpenDevice(NEW_DEVICE, full)) else Told(NewFile(a), a)
  }

  function AskedDelegate(full: string, a: Answer): Delegate {
    Told(NewDelegate(full, a), a)
  }

  // The calls

  /** The calls on the file system; `Use` and `UseDir` are one call on the delegate of a descriptor or directory.
      What a browser-file delegate answers, and what a device returns to `Use`, are inputs. */
  datatype Op =
    | Open(path: Option<string>, oflag: H.OFlag, answer: Answer)
    | Stat(name: string, answer: Answer)
    | Close(fd: int, answer: Answer)
    | Use(fd: int, call: H.Op, answer: Answer, device: int)
    | MkDir(path: Option<string>, answer: Answer)
    | OpenDir(path: Option<string>, answer: Answer)
    | UseDir(dir: nat, call: H.Op, answer: Answer)
    | CloseDir(dir: nat, answer: Answer)
    | ChDir(name: string, answer: Answer)

  /** What the caller gets: a number, a new descriptor, a DIR pointer, a directory entry, or nothing. */
  datatype Reply = Status(code: int) | Descriptor(fd: nat) | Stream(dir: Option<nat>) | Name(name: Option<string>) | Void

  predicate DescriptorCall(call: H.Op) {
    call.Fstat? || call.Read? || call.Write? || call.Seek?
  }

  predicate DirCall(call: H.Op) {
    call.ReadDir? || call.RewindDir?
  }

  predicate DeviceMayAnswer(d: Device, call: H.Op, result: int) {
    match call
    case Read(nbytes) => ReadMayAnswer(d, nbytes, result)
    case Write(data) => result == WriteAnswer(d, |data|)
    case _ => result == 0
  }

  function GetDelegate(t: Table, fd: int): Option<nat> {
    if fd < 0 || |t.slots| <= fd then None else t.slots[fd]
  }

  /** Delegates referred to by the table exist; between calls none is in use. */
  predicate Settled(t: Table) {
    && t.inUse == []
    && (forall fd :: 0 <= fd < |t.slots| ==> t.slots[fd].Some? ==> t.slots[fd].value < |t.delegates|)
    && (forall dir :: 0 <= dir < |t.dirs| ==> t.dirs[dir].Some? ==> t.dirs[dir].value < |t.delegates|)
  }

  predicate IsOpenDir(t: Table, dir: nat) {
    dir < |t.dirs| && t.dirs[dir].Some?
  }

  predicate LegalAnswer(d: Delegate, call: H.Op, a: Answer) {
    d.Html5? ==> AnswersFrom(a, call, d.view)
  }

  /** Answers come from delegates that make atomic calls, starting where the last one ended.  A DIR pointer may only
      be used while it is open. */
  predicate Legal(w: World, op: Op)
    requires Settled(w.table)
  {
    var t := w.table;
    match op
    case Open(_, oflag, a) => AnswersNew(a, H.Open(oflag))
    case Stat(_, a) => AnswersNew(a, H.Stat)
    case Close(fd, a) =>
      var d := GetDelegate(t, fd);
      d.Some? ==> LegalAnswer(t.delegates[d.value], H.Close, a)
    case Use(fd, call, a, device) =>
      var d := GetDelegate(t, fd);
      && DescriptorCall(call)
      && (d.Some? ==>
            && LegalAnswer(t.delegates[d.value], call, a)
            && (t.delegates[d.value].Port? ==> DeviceMayAnswer(t.delegates[d.value].device, call, device)))
    case MkDir(_, a) => AnswersNew(a, H.MkDir)
    case OpenDir(_, a) => AnswersNew(a, H.OpenDir)
    case UseDir(dir, call, a) =>
      DirCall(call) && IsOpenDir(t, dir) && LegalAnswer(t.delegates[t.dirs[dir].value], call, a)
    case CloseDir(dir, a) =>
      IsOpenDir(t, dir) && LegalAnswer(t.delegates[t.dirs[dir].value], H.CloseDir, a)
    case ChDir(_, a) => AnswersNew(a, H.Stat)
  }

  predicate Enabled(w: World, op: Op) {
    Settled(w.table) && Legal(w, op)
  }

  /** What the open or stat of a path returns. */
  function PathResult(full: string, a: Answer): int
    requires a.Answered? ==> a.entry.result.Code?
  {
    if IsPort(full) then DeviceStatus(full) else CodeOf(a, EIO)
  }

  predicate FoundDir(full: string, a: Answer) {
    !IsPort(full) && a.Answered? && a.entry.result == H.DirPtr(true)
  }

  predicate SawDirectory(full: string, a: Answer) {
    !IsPort(full) && a.Answered? && a.entry.st.Some? && a.entry.st.value.kind == H.Directory
  }

  function ApplyOpen(w: World, path: Option<string>, oflag: H.OFlag, a: Answer): (World, Reply)
    requires Enabled(w, Open(path, oflag, a))
  {
    if path.None? then (w, Status(EFAULT))
    else
      var full := FullPath(w.cwd, path.value);
      var t := Create(w.table, OpenedDelegate(full, a));
      if PathResult(full, a) != 0 then (w.(table := DeleteTemporary(t)), Status(PathResult(full, a)))
      else (w.(table := Bind(t)), Descriptor(|w.table.slots|))
  }

  /** A delegate is created, asked, and deleted again. */
  function Asked(w: World, full: string, a: Answer): World
    requires w.table.inUse == []
  {
    w.(table := DeleteTemporary(Create(w.table, AskedDelegate(full, a))))
  }

  function ApplyStat(w: World, name: string, a: Answer): (World, Reply)
    requires Enabled(w, Stat(name, a))
  {
    var full := FullPath(w.cwd, name);
    (Asked(w, full, a), Status(PathResult(full, a)))
  }

  lemma MkDirReturnsCode(a: Answer)
    requires AnswersNew(a, H.MkDir)
    ensures a.Answered? ==> a.entry.result.Code?
  {
  }

  function MkDirResult(full: string, a: Answer): int
    requires AnswersNew(a, H.MkDir)
  {
    MkDirReturnsCode(a);
    if IsPort(full) then -1 else CodeOf(a, EIO)
  }

  function ApplyMkDir(w: World, path: Option<string>, a: Answer): (World, Reply)
    requires Enabled(w, MkDir(path, a))
  {
    if path.None? then (w, Status(-1))
    else
      var full := FullPath(w.cwd, path.value);
      (Asked(w, full, a), Status(MkDirResult(full, a)))
  }

  function ApplyOpenDir(w: World, path: Option<string>, a: Answer): (World, Reply)
    requires Enabled(w, OpenDir(path, a))
  {
    if path.None? then (w, Stream(None))
    else
      var full := FullPath(w.cwd, path.value);
      if FoundDir(full, a)
      then (w.(table := Adopt(Create(w.table, AskedDelegate(full, a)))), Stream(Some(|w.table.dirs|)))
      else (Asked(w, full, a), Stream(None))
  }

  function ApplyChDir(w: World, name: string, a: Answer): (World, Reply)
    requires Enabled(w, ChDir(name, a))
  {
    var full := FullPath(w.cwd, name);
    var statted := Asked(w, full, a);
    if PathResult(full, a) != 0 then (statted, Status(PathResult(full, a)))
    else if !SawDirectory(full, a) then (statted, Status(-1))
    else (statted.(cwd := full[1..]), Status(0))
  }

  function CloseResult(d: Delegate, a: Answer): int
    requires a.Answered? && d.Html5? ==> a.entry.result.Code?
  {
    match d
    case Port(device) => if device.id < 0 then -1 else 0
    case Html5(_, _, _) => CodeOf(a, EIO)
  }

  function ApplyClose(w: World, fd: int, a: Answer): (World, Reply)
    requires Enabled(w, Close(fd, a))
  {
    if GetDelegate(w.table, fd).None? then (w, Status(EBADF))
    else
      var code := CloseResult(w.table.delegates[w.table.slots[fd].value], a);
      (if code != 0 then w else w.(table := DeleteBound(w.table, fd)), Status(code))
  }

  /** The guards answer EBADF or EIO to fstat and -1 to the others. */
  function ApplyUse(w: World, fd: int, call: H.Op, a: Answer, device: int): (World, Reply)
    requires Enabled(w, Use(fd, call, a, device))
  {
    var t := w.table;
    if GetDelegate(t, fd).None? then (w, Status(if call.Fstat? then EBADF else -1))
    else
      var d := t.slots[fd].value;
      if t.delegates[d].Port? then (w, Status(device))
      else (w.(table := Update(t, d, Told(t.delegates[d], a))), Status(CodeOf(a, if call.Fstat? then EIO else -1)))
  }

  function ApplyUseDir(w: World, dir: nat, call: H.Op, a: Answer): (World, Reply)
    requires Enabled(w, UseDir(dir, call, a))
  {
    var t := w.table;
    var d := t.dirs[dir].value;
    (w.(table := Update(t, d, Told(t.delegates[d], a))),
     if call.RewindDir? then Void
     else Name(if t.delegates[d].Html5? && a.Answered? then a.entry.result.name else None))
  }

  function ApplyCloseDir(w: World, dir: nat, a: Answer): (World, Reply)
    requires Enabled(w, CloseDir(dir, a))
  {
    var t := w.table;
    var code := if t.delegates[t.dirs[dir].value].Port? then -1 else CodeOf(a, EIO);
    (if code != 0 then w else w.(table := DeleteDir(t, dir)), Status(code))
  }

  /** One call: the new state and what the caller gets. */
  function Apply(w: World, op: Op): (r: (World, Reply))
    requires Enabled(w, op)
  {
    match op
    case Open(path, oflag, a) => ApplyOpen(w, path, oflag, a)
    case Stat(name, a) => ApplyStat(w, name, a)
    case Close(fd, a) => ApplyClose(w, fd, a)
    case Use(fd, call, a, device) => ApplyUse(w, fd, call, a, device)
    case MkDir(path, a) => ApplyMkDir(w, path, a)
    case OpenDir(path, a) => ApplyOpenDir(w, path, a)
    case UseDir(dir, call, a) => ApplyUseDir(w, dir, call, a)
    case CloseDir(dir, a) => ApplyCloseDir(w, dir, a)
    case ChDir(name, a) => ApplyChDir(w, name, a)
  }

  function Step(w: World, op: Op): World {
    if Enabled(w, op) then Apply(w, op).0 else w
  }

  function Respond(w: World, op: Op): Reply {
    if Enabled(w, op) then Apply(w, op).1 else Void
  }

  // Every step conserves delegates, so the property also holds in the middle of a call

  lemma OwnersSnoc(places: seq<Option<nat>>, place: Option<nat>)
    ensures Owners(places + [place]) == Owners(places) + Owner(place)
  {
    assert (places + [place])[..|places|] == places;
  }

  lemma Swap(a: multiset<nat>, b: multiset<nat>, c: multiset<nat>)
    ensures a + b + c == a + c + b
  {
  }

  lemma {:induction false} OwnersUpdate(places: seq<Option<nat>>, k: nat)
    requires k < |places| && places[k].Some?
    ensures Owners(places) == Owners(places[k := None]) + multiset{places[k].value}
    decreases |places|
  {
    var n := |places| - 1;
    var front, last := places[..n], places[n];
    assert places == front + [last];
    OwnersSnoc(front, last);
    if k == n {
      assert places[k := None] == front + [None];
      OwnersSnoc(front, None);
    } else {
      assert places[k := None] == front[k := None] + [last];
      OwnersSnoc(front[k := None], last);
      OwnersUpdate(front, k);
      Swap(Owners(front[k := None]), Owner(places[k]), Owner(last));
    }
  }

  lemma CreateConserves(t: Table, d: Delegate)
    requires Conserved(t)
    ensures Conserved(Create(t, d))
  {
    assert Census(Create(t, d)) == Census(t) + multiset{|t.delegates|};
  }

  lemma Shift(a: multiset<nat>, b: multiset<nat>, c: multiset<nat>, d: multiset<nat>)
    ensures a + c + b + multiset{} + d == a + b + c + d
    ensures a + (b + c) + multiset{} + d == a + b + c + d
    ensures a + b + multiset{} + (d + c) == a + b + c + d
  {
  }

  lemma MoveConserves(t: Table)
    requires Conserved(t) && |t.inUse| == 1
    ensures Conserved(DeleteTemporary(t)) && Conserved(Bind(t)) && Conserved(Adopt(t))
  {
    assert t.inUse == [t.inUse[0]];
    OwnersSnoc(t.slots, Some(t.inUse[0]));
    OwnersSnoc(t.dirs, Some(t.inUse[0]));
    Shift(Owners(t.slots), Owners(t.dirs), multiset(t.inUse), multiset(t.deleted));
    SameCensus(t, DeleteTemporary(t));
    SameCensus(t, Bind(t));
    SameCensus(t, Adopt(t));
  }

  lemma SameCensus(t: Table, t': Table)
    requires Conserved(t) && Census(t') == Census(t) && |t'.delegates| == |t.delegates|
    ensures Conserved(t')
  {
  }

  lemma DeleteBoundConserves(t: Table, fd: nat)
    requires Conserved(t) && fd < |t.slots| && t.slots[fd].Some?
    ensures Conserved(DeleteBound(t, fd))
  {
    OwnersUpdate(t.slots, fd);
    assert Census(DeleteBound(t, fd)) == Census(t);
  }

  lemma DeleteDirConserves(t: Table, dir: nat)
    requires Conserved(t) && dir < |t.dirs| && t.dirs[dir].Some?
    ensures Conserved(DeleteDir(t, dir))
  {
    OwnersUpdate(t.dirs, dir);
    assert Census(DeleteDir(t, dir)) == Census(t);
  }

  // What holds between calls, in every run

  /** The calls a browser-file delegate has answered are an atomic run from its creation to its present view. */
  ghost predicate Traced(d: Delegate) {
    d.Html5? ==> IsNew(d.born) && A.RunFrom(d.born, d.past) && A.End(d.born, d.past) == d.view
  }

  predicate FromOpen(past: seq<A.Entry>) {
    && past != [] && past[0].op.Open? && past[0].result == H.Code(0)
    && forall i :: 1 <= i < |past| ==> DescriptorCall(past[i].op)
  }

  predicate FromOpenDir(past: seq<A.Entry>) {
    && past != [] && past[0].op.OpenDir? && past[0].result == H.DirPtr(true)
    && forall i :: 1 <= i < |past| ==> DirCall(past[i].op)
  }

  /** A bound delegate is a device that was opened, or a file on which an Open succeeded before anything else. */
  ghost predicate IsBoundRight(d: Delegate) {
    match d
    case Port(device) => IsOpen(device)
    case Html5(_, past, _) => Traced(d) && FromOpen(past)
  }

  ghost predicate IsAdoptedRight(d: Delegate) {
    d.Html5? && Traced(d) && FromOpenDir(d.past)
  }

  ghost predicate Sound(w: World) {
    && Settled(w.table)
    && Conserved(w.table)
    && (forall fd :: 0 <= fd < |w.table.slots| ==> w.table.slots[fd].Some? ==>
          IsBoundRight(w.table.delegates[w.table.slots[fd].value]))
    && (forall dir :: 0 <= dir < |w.table.dirs| ==> w.table.dirs[dir].Some? ==>
          IsAdoptedRight(w.table.delegates[w.table.dirs[dir].value]))
    && CwdOk(w.cwd)
  }

  /** Slots and directories are only ever appended or emptied, nothing deleted comes back, and a device stays what
      it is. */
  ghost predicate Grows(t: Table, t': Table) {
    && |t.slots| <= |t'.slots| && |t.dirs| <= |t'.dirs| && |t.delegates| <= |t'.delegates|
    && (forall fd :: 0 <= fd < |t.slots| ==> t'.slots[fd] == t.slots[fd] || t'.slots[fd] == None)
    && (forall dir :: 0 <= dir < |t.dirs| ==> t'.dirs[dir] == t.dirs[dir] || t'.dirs[dir] == None)
    && t.deleted <= t'.deleted
    && (forall d :: 0 <= d < |t.delegates| ==> t.delegates[d].Port? ==> t'.delegates[d] == t.delegates[d])
  }

  ghost predicate KeepsSound(w: World, w': World) {
    Sound(w') && Grows(w.table, w'.table)
  }

  /** A call that creates a delegate only to delete it again. */
  lemma TemporaryKeepsSound(w: World, d: Delegate)
    requires Sound(w)
    ensures KeepsSound(w, w.(table := DeleteTemporary(Create(w.table, d))))
  {
    CreateConserves(w.table, d);
    MoveConserves(Create(w.table, d));
  }

  lemma AskKeepsSound(w: World, full: string, a: Answer)
    requires Sound(w)
    ensures KeepsSound(w, Asked(w, full, a))
  {
    TemporaryKeepsSound(w, AskedDelegate(full, a));
  }

  lemma BindKeepsSound(w: World, d: Delegate)
    requires Sound(w) && IsBoundRight(d)
    ensures KeepsSound(w, w.(table := Bind(Create(w.table, d))))
  {
    CreateConserves(w.table, d);
    MoveConserves(Create(w.table, d));
  }

  lemma AdoptKeepsSound(w: World, d: Delegate)
    requires Sound(w) && IsAdoptedRight(d)
    ensures KeepsSound(w, w.(table := Adopt(Create(w.table, d))))
  {
    CreateConserves(w.table, d);
    MoveConserves(Create(w.table, d));
  }

  /** The first call of a new delegate. */
  lemma FirstCall(a: Answer, op: H.Op)
    requires AnswersNew(a, op)
    ensures Traced(Told(NewFile(a), a))
  {
    if a.Answered? {
      var d := NewFile(a);
      assert A.RunFrom(d.born, []) && A.End(d.born, []) == d.born;
      A.RunThenCall(d.born, [], a.entry);
    }
  }

  lemma NextCall(d: Delegate, op: H.Op, a: Answer)
    requires Traced(d) && LegalAnswer(d, op, a)
    ensures Traced(Told(d, a))
  {
    if d.Html5? && a.Answered? {
      A.RunThenCall(d.born, d.past, a.entry);
    }
  }

  lemma OpenedIsRight(full: string, oflag: H.OFlag, a: Answer)
    requires AnswersNew(a, H.Open(oflag)) && PathResult(full, a) == 0
    ensures IsBoundRight(OpenedDelegate(full, a))
  {
    FirstCall(a, H.Open(oflag));
  }

  lemma OpenAtKeepsSound(w: World, full: string, oflag: H.OFlag, a: Answer, w': World)
    requires Sound(w) && AnswersNew(a, H.Open(oflag))
    requires var t := Create(w.table, OpenedDelegate(full, a));
             w' == w.(table := if PathResult(full, a) != 0 then DeleteTemporary(t) else Bind(t))
    ensures KeepsSound(w, w')
  {
    if PathResult(full, a) != 0 {
      TemporaryKeepsSound(w, OpenedDelegate(full, a));
    } else {
      OpenedIsRight(full, oflag, a);
      BindKeepsSound(w, OpenedDelegate(full, a));
    }
  }

  lemma OpenKeepsSound(w: World, path: Option<string>, oflag: H.OFlag, a: Answer)
    requires Sound(w) && Enabled(w, Open(path, oflag, a))
    ensures KeepsSound(w, ApplyOpen(w, path, oflag, a).0)
  {
    if path.Some? {
      OpenAtKeepsSound(w, FullPath(w.cwd, path.value), oflag, a, ApplyOpen(w, path, oflag, a).0);
    }
  }

  lemma FoundIsRight(full: string, a: Answer)
    requires AnswersNew(a, H.OpenDir) && FoundDir(full, a)
    ensures IsAdoptedRight(AskedDelegate(full, a))
  {
    FirstCall(a, H.OpenDir);
  }

  lemma OpenDirAtKeepsSound(w: World, full: string, a: Answer, w': World)
    requires Sound(w) && AnswersNew(a, H.OpenDir)
    requires var t := Create(w.table, AskedDelegate(full, a));
             w' == w.(table := if FoundDir(full, a) then Adopt(t) else DeleteTemporary(t))
    ensures KeepsSound(w, w')
  {
    if FoundDir(full, a) {
      FoundIsRight(full, a);
      AdoptKeepsSound(w, AskedDelegate(full, a));
    } else {
      TemporaryKeepsSound(w, AskedDelegate(full, a));
    }
  }

  lemma OpenDirKeepsSound(w: World, path: Option<string>, a: Answer)
    requires Sound(w) && Enabled(w, OpenDir(path, a))
    ensures KeepsSound(w, ApplyOpenDir(w, path, a).0)
  {
    if path.Some? {
      OpenDirAtKeepsSound(w, FullPath(w.cwd, path.value), a, ApplyOpenDir(w, path, a).0);
    }
  }

  lemma UpdateConserves(t: Table, d: nat, next: Delegate)
    requires Conserved(t) && d < |t.delegates|
    ensures Conserved(Update(t, d, next))
  {
    assert Census(Update(t, d, next)) == Census(t);
  }

  /** No delegate is bound and adopted at once: its first call was not both an Open and an OpenDir. */
  lemma UpdateKeepsSound(w: World, d: nat, next: Delegate)
    requires Sound(w) && d < |w.table.delegates| && w.table.delegates[d].Html5?
    requires IsBoundRight(w.table.delegates[d]) ==> IsBoundRight(next)
    requires IsAdoptedRight(w.table.delegates[d]) ==> IsAdoptedRight(next)
    ensures KeepsSound(w, w.(table := Update(w.table, d, next)))
  {
    UpdateConserves(w.table, d, next);
  }

  lemma ToldStaysRight(d: Delegate, call: H.Op, a: Answer)
    requires d.Html5? && LegalAnswer(d, call, a)
    ensures IsBoundRight(d) && DescriptorCall(call) ==> IsBoundRight(Told(d, a))
    ensures IsAdoptedRight(d) && DirCall(call) ==> IsAdoptedRight(Told(d, a))
    ensures IsBoundRight(d) ==> !IsAdoptedRight(d)
  {
    if Traced(d) {
      NextCall(d, call, a);
    }
  }

  lemma UseKeepsSound(w: World, fd: int, call: H.Op, a: Answer, device: int)
    requires Sound(w) && Enabled(w, Use(fd, call, a, device))
    ensures KeepsSound(w, ApplyUse(w, fd, call, a, device).0)
  {
    if GetDelegate(w.table, fd).Some? && w.table.delegates[w.table.slots[fd].value].Html5? {
      var d := w.table.slots[fd].value;
      ToldStaysRight(w.table.delegates[d], call, a);
      UpdateKeepsSound(w, d, Told(w.table.delegates[d], a));
    }
  }

  lemma UseDirKeepsSound(w: World, dir: nat, call: H.Op, a: Answer)
    requires Sound(w) && Enabled(w, UseDir(dir, call, a))
    ensures KeepsSound(w, ApplyUseDir(w, dir, call, a).0)
  {
    var d := w.table.dirs[dir].value;
    ToldStaysRight(w.table.delegates[d], call, a);
    UpdateKeepsSound(w, d, Told(w.table.delegates[d], a));
  }

  lemma DeletingKeepsSound(w: World, fd: nat)
    requires Sound(w) && fd < |w.table.slots| && w.table.slots[fd].Some?
    ensures KeepsSound(w, w.(table := DeleteBound(w.table, fd)))
  {
    DeleteBoundConserves(w.table, fd);
  }

  lemma CloseKeepsSound(w: World, fd: int, a: Answer)
    requires Sound(w) && Enabled(w, Close(fd, a))
    ensures KeepsSound(w, ApplyClose(w, fd, a).0)
  {
    if GetDelegate(w.table, fd).Some? { DeletingKeepsSound(w, fd); }
  }

  lemma CloseDirKeepsSound(w: World, dir: nat, a: Answer)
    requires Sound(w) && Enabled(w, CloseDir(dir, a))
    ensures KeepsSound(w, ApplyCloseDir(w, dir, a).0)
  {
    DeleteDirConserves(w.table, dir);
  }

  lemma ChDirKeepsSound(w: World, name: string, a: Answer)
    requires Sound(w) && Enabled(w, ChDir(name, a))
    ensures KeepsSound(w, ApplyChDir(w, name, a).0)
  {
    AskKeepsSound(w, FullPath(w.cwd, name), a);
    ResolveIsProper(w.cwd, name);
  }

  lemma StatKeepsSound(w: World, name: string, a: Answer)
    requires Sound(w) && Enabled(w, Stat(name, a))
    ensures KeepsSound(w, ApplyStat(w, name, a).0)
  {
    AskKeepsSound(w, FullPath(w.cwd, name), a);
  }

  lemma MkDirKeepsSound(w: World, path: Option<string>, a: Answer)
    requires Sound(w) && Enabled(w, MkDir(path, a))
    ensures KeepsSound(w, ApplyMkDir(w, path, a).0)
  {
    if path.Some? { AskKeepsSound(w, FullPath(w.cwd, path.value), a); }
  }

  lemma ApplyKeepsSound(w: World, op: Op)
    requires Sound(w) && Enabled(w, op)
    ensures KeepsSound(w, Apply(w, op).0)
  {
    match op
    case Open(path, oflag, a) => OpenKeepsSound(w, path, oflag, a);
    case Stat(name, a) => StatKeepsSound(w, name, a);
    case Close(fd, a) => CloseKeepsSound(w, fd, a);
    case Use(fd, call, a, device) => UseKeepsSound(w, fd, call, a, device);
    case MkDir(path, a) => MkDirKeepsSound(w, path, a);
    case OpenDir(path, a) => OpenDirKeepsSound(w, path, a);
    case UseDir(dir, call, a) => UseDirKeepsSound(w, dir, call, a);
    case CloseDir(dir, a) => CloseDirKeepsSound(w, dir, a);
    case ChDir(name, a) => ChDirKeepsSound(w, name, a);
  }

  lemma StartSound()
    ensures Sound(START)
  {
    assert Census(START.table) == multiset{};
  }

  ghost predicate IsRun(w: World, ops: seq<Op>) {
    EnabledRun(Enabled, Step, w, ops)
  }

  ghost function Ran(w: World, ops: seq<Op>): World {
    After(Step, w, ops)
  }

  lemma RunKeepsSound(w: World, ops: seq<Op>)
    requires Sound(w) && IsRun(w, ops)
    ensures KeepsSound(w, Ran(w, ops))
  {
    forall w': World, op: Op | KeepsSound(w, w') && Enabled(w', op) ensures KeepsSound(w, Step(w', op)) {
      ApplyKeepsSound(w', op);
    }
    Invariance(Enabled, Step, w' => KeepsSound(w, w'), w, ops);
  }

  /** A delegate is bound in some slot, or owned by some directory. */
  ghost predicate IsBound(t: Table, d: nat) { exists fd :: 0 <= fd < |t.slots| && t.slots[fd] == Some(d) }
  ghost predicate IsDirs(t: Table, d: nat) { exists dir :: 0 <= dir < |t.dirs| && t.dirs[dir] == Some(d) }

  lemma {:induction false} OwnersIn(places: seq<Option<nat>>, d: nat)
    ensures Owners(places)[d] > 0 <==> exists k :: 0 <= k < |places| && places[k] == Some(d)
    decreases |places|
  {
    if places == [] {
    } else {
      var front, last := places[..|places| - 1], Last(places);
      OwnersIn(front, d);
      assert Owners(places)[d] > 0 <==> Owners(front)[d] > 0 || last == Some(d);
      assert forall k :: 0 <= k < |front| ==> front[k] == places[k];
    }
  }

  /** Between calls of every run, each delegate ever created is bound, owned by a directory, or deleted: exactly
      one of the three, in one place, deleted at most once; and none is left in use. */
  lemma DelegatesAreConserved(ops: seq<Op>, d: nat)
    requires IsRun(START, ops) && d < |Ran(START, ops).table.delegates|
    ensures var t := Ran(START, ops).table;
            && t.inUse == []
            && (IsBound(t, d) || IsDirs(t, d) || d in t.deleted)
            && !(IsBound(t, d) && IsDirs(t, d)) && !(IsBound(t, d) && d in t.deleted)
            && !(IsDirs(t, d) && d in t.deleted)
            && multiset(t.deleted)[d] <= 1
            && Owners(t.slots)[d] <= 1 && Owners(t.dirs)[d] <= 1
  {
    StartSound();
    RunKeepsSound(START, ops);
    var t := Ran(START, ops).table;
    assert Census(t)[d] == 1;
    OwnersIn(t.slots, d);
    OwnersIn(t.dirs, d);
  }

  /** In every run a live descriptor is an opened device, or a file whose calls so far are an atomic run that began
      with a successful Open; so its FileIO is there for whatever it is asked next, and its cached size is at least
      the real one and equal to it exactly when the calls say so. */
  lemma DescriptorsAreUsable(ops: seq<Op>, fd: int)
    requires IsRun(START, ops) && GetDelegate(Ran(START, ops).table, fd).Some?
    ensures var t := Ran(START, ops).table;
            var d := GetDelegate(t, fd).value;
            && d < |t.delegates|
            && match t.delegates[d]
               case Port(device) => IsOpen(device)
               case Html5(born, past, view) =>
                 && A.RunFrom(born, past) && A.End(born, past) == view && FromOpen(past)
                 && view.io && A.SizeKnown(view, A.TracksAll(true, past[1..]))
  {
    StartSound();
    RunKeepsSound(START, ops);
    var t := Ran(START, ops).table;
    var d := t.delegates[t.slots[fd].value];
    assert IsBoundRight(d);
    if d.Html5? {
      OpenedFile(d.born, d.past);
    }
  }

  /** In every run, the file behind a live descriptor that was opened with O_RDONLY, or with no access, has the contents
      that the open left, and no write through the descriptor has succeeded; one opened with O_WRONLY, or with no
      access, has returned no bytes. */
  lemma DescriptorsKeepTheirMode(ops: seq<Op>, fd: int)
    requires IsRun(START, ops) && GetDelegate(Ran(START, ops).table, fd).Some?
    ensures var t := Ran(START, ops).table;
            var d := GetDelegate(t, fd).value;
            && d < |t.delegates|
            && (t.delegates[d].Html5? ==>
                  && FromOpen(t.delegates[d].past)
                  && KeepsMode(t.delegates[d].past[0].op.oflag.access, t.delegates[d].past, t.delegates[d].view))
  {
    StartSound();
    RunKeepsSound(START, ops);
    var t := Ran(START, ops).table;
    var d := t.delegates[t.slots[fd].value];
    assert IsBoundRight(d);
    if d.Html5? {
      FileKeepsMode(d.born, d.past);
    }
  }

  predicate KeepsMode(access: H.Access, past: seq<A.Entry>, view: A.View)
    requires past != []
  {
    && (access == H.ReadOnly || access == H.NoAccess ==>
          && view.contents == past[0].post.contents
          && forall i :: 1 <= i < |past| ==> past[i].op.Write? ==> past[i].result.Code? && past[i].result.code < 0)
    && (access == H.WriteOnly || access == H.NoAccess ==>
          forall i :: 1 <= i < |past| ==> past[i].op.Read? ==> past[i].buf == [])
  }

  lemma FileKeepsMode(born: A.View, past: seq<A.Entry>)
    requires A.RunFrom(born, past) && FromOpen(past)
    ensures KeepsMode(past[0].op.oflag.access, past, A.End(born, past))
  {
    var open, es := past[0], past[1..];
    assert forall i :: 1 <= i < |past| ==> past[i] == es[i - 1];
    if open.op.oflag.access == H.ReadOnly || open.op.oflag.access == H.NoAccess {
      A.ReadOnlyNeverChanges(open, es);
    }
    if open.op.oflag.access == H.WriteOnly || open.op.oflag.access == H.NoAccess {
      A.WriteOnlyNeverReads(open, es);
    }
  }

  lemma OpenedFile(born: A.View, past: seq<A.Entry>)
    requires A.RunFrom(born, past) && FromOpen(past)
    ensures A.End(born, past).io && A.SizeKnown(A.End(born, past), A.TracksAll(true, past[1..]))
  {
    assert forall i :: 0 <= i < |past[1..]| ==> past[1..][i] == past[i + 1];
    A.FileIoStays(past[0].post, past[1..]);
    A.CachedSizeTracks(past[0], past[1..]);
  }

  /** In every run an open directory is a browser directory, so no DIR pointer meets a device, and what its reads
      and rewinds have returned is NULL up to the first listing that succeeded and a cursor over that list since. */
  lemma DirectoriesAreCursors(ops: seq<Op>, dir: nat)
    requires IsRun(START, ops) && IsOpenDir(Ran(START, ops).table, dir)
    ensures var t := Ran(START, ops).table;
            var d := t.dirs[dir].value;
            && d < |t.delegates| && t.delegates[d].Html5? && t.delegates[d].view.dir.Some?
            && t.delegates[d].past != []
            && var es := t.delegates[d].past[1..];
               var k := A.FirstLoad(es);
               && (forall i :: 0 <= i < k ==> es[i].op.ReadDir? ==> es[i].result == H.Dirent(None))
               && (k < |es| ==> A.Results(es[k..]) == A.Cursor(es[k].listed, 0, A.Ops(es[k..])))
               && (forall i :: k <= i < |es| ==> es[i].op.ReadDir? ==>
                     A.IsNameAt(es[i].result, es[k].listed, A.Position(0, es[k..i])))
  {
    StartSound();
    RunKeepsSound(START, ops);
    var t := Ran(START, ops).table;
    var d := t.delegates[t.dirs[dir].value];
    assert IsAdoptedRight(d);
    var es := d.past[1..];
    assert forall i :: 0 <= i < |es| ==> es[i] == d.past[i + 1];
    A.OpenedDirectoryStream(d.past[0], es);
    StaysOpen(d.past[0].post, es);
  }

  /** A directory that is not loaded is empty. */
  predicate LoadedOrEmpty(v: A.View) {
    v.dir.Some? && (!v.dir.value.read ==> v.dir.value == H.Dir([], 0, false))
  }

  lemma {:induction false} StaysOpen(start: A.View, es: seq<A.Entry>)
    requires A.DirRun(start, es) && LoadedOrEmpty(start)
    ensures LoadedOrEmpty(A.End(start, es))
    decreases |es|
  {
    if es == [] {
    } else {
      StaysOpen(es[0].post, es[1..]);
    }
  }

  lemma AdoptedShape(d: Delegate)
    requires IsAdoptedRight(d)
    ensures LoadedOrEmpty(d.view)
  {
    var es := d.past[1..];
    assert forall i :: 0 <= i < |es| ==> es[i] == d.past[i + 1];
    StaysOpen(d.past[0].post, es);
  }

  /** A descriptor that was closed answers EBADF for ever after, whatever calls come in between. */
  lemma ClosedStaysClosed(w: World, fd: int, answer: Answer, later: seq<Op>, again: Answer)
    requires Sound(w) && Enabled(w, Close(fd, answer)) && Respond(w, Close(fd, answer)) == Status(0)
    requires IsRun(Step(w, Close(fd, answer)), later)
    ensures var w' := Ran(Step(w, Close(fd, answer)), later);
            Enabled(w', Close(fd, again)) && Apply(w', Close(fd, again)) == (w', Status(EBADF))
  {
    ApplyKeepsSound(w, Close(fd, answer));
    RunKeepsSound(Step(w, Close(fd, answer)), later);
  }

  // Leaks and numbering, from the replies alone

  ghost function Replies(w: World, ops: seq<Op>): seq<Reply> {
    Outputs(Step, Respond, w, ops)
  }

  /** What a call does to the number of delegates alive. */
  function Gain(op: Op, r: Reply): int {
    match op
    case Open(_, _, _) => if r.Descriptor? then 1 else 0
    case OpenDir(_, _) => if r.Stream? && r.dir.Some? then 1 else 0
    case Close(_, _) | CloseDir(_, _) => if r == Status(0) then -1 else 0
    case _ => 0
  }

  function Gains(ops: seq<Op>, replies: seq<Reply>): int
    requires |ops| == |replies|
    decreases |ops|
  {
    if ops == [] then 0 else Gain(ops[0], replies[0]) + Gains(ops[1..], replies[1..])
  }

  function Alive(t: Table): int {
    |t.delegates| - |t.deleted|
  }

  lemma StepGains(w: World, op: Op)
    requires Enabled(w, op)
    ensures Alive(Step(w, op).table) == Alive(w.table) + Gain(op, Respond(w, op))
  {
  }

  lemma {:induction false} RunGains(w: World, ops: seq<Op>)
    requires IsRun(w, ops)
    ensures |Replies(w, ops)| == |ops|
    ensures Alive(Ran(w, ops).table) == Alive(w.table) + Gains(ops, Replies(w, ops))
    decreases |ops|
  {
    if ops == [] {
    } else {
      StepGains(w, ops[0]);
      RunGains(Step(w, ops[0]), ops[1..]);
      assert Replies(w, ops)[1..] == Replies(Step(w, ops[0]), ops[1..]);
    }
  }

  function Filled(places: seq<Option<nat>>): nat {
    if places == [] then 0 else Filled(places[..|places| - 1]) + Count(Last(places).Some?)
  }

  lemma {:induction false} OwnersFilled(places: seq<Option<nat>>)
    ensures |Owners(places)| == Filled(places)
    decreases |places|
  {
    if places == [] {
    } else {
      OwnersFilled(places[..|places| - 1]);
    }
  }

  /** A multiset that holds each number below `n` once. */
  lemma {:induction false} OnceEach(m: multiset<nat>, n: nat)
    requires forall d: nat :: m[d] == (if d < n then 1 else 0)
    ensures |m| == n
    decreases n
  {
    if n == 0 {
      assert m == multiset{};
    } else {
      OnceEach(m - multiset{n - 1}, n - 1);
      assert m == m - multiset{n - 1} + multiset{n - 1};
    }
  }

  /** Nothing leaks, in any run, whatever fails: the delegates alive are as many as the open descriptors and
      directories, and as many as the callers were given and have not closed. */
  lemma NoLeaks(ops: seq<Op>)
    requires IsRun(START, ops)
    ensures var t := Ran(START, ops).table;
            && |Replies(START, ops)| == |ops|
            && Alive(t) == Filled(t.slots) + Filled(t.dirs) == Gains(ops, Replies(START, ops))
  {
    StartSound();
    RunKeepsSound(START, ops);
    var t := Ran(START, ops).table;
    OnceEach(Census(t), |t.delegates|);
    OwnersFilled(t.slots);
    OwnersFilled(t.dirs);
    RunGains(START, ops);
  }

  /** How many replies were new descriptors. */
  function Opens(replies: seq<Reply>): nat {
    if replies == [] then 0 else Count(replies[0].Descriptor?) + Opens(replies[1..])
  }

  lemma OpensCons(r: Reply, rest: seq<Reply>, i: nat)
    requires i <= |rest|
    ensures Opens(([r] + rest)[..i + 1]) == Count(r.Descriptor?) + Opens(rest[..i])
  {
    assert ([r] + rest)[..i + 1] == [r] + rest[..i];
    assert ([r] + rest[..i])[1..] == rest[..i];
  }

  lemma StepNumbers(w: World, op: Op)
    requires Enabled(w, op)
    ensures |Step(w, op).table.slots| == |w.table.slots| + Count(Respond(w, op).Descriptor?)
    ensures Respond(w, op).Descriptor? ==> Respond(w, op).fd == |w.table.slots|
  {
  }

  lemma {:induction false} RunNumbers(w: World, ops: seq<Op>, i: nat)
    requires IsRun(w, ops) && i < |ops|
    ensures |Replies(w, ops)| == |ops|
    ensures Replies(w, ops)[i].Descriptor? ==> Replies(w, ops)[i].fd == |w.table.slots| + Opens(Replies(w, ops)[..i])
    decreases |ops|
  {
    var w', rest := Step(w, ops[0]), Replies(Step(w, ops[0]), ops[1..]);
    OutputsLength(Step, Respond, w, ops);
    StepNumbers(w, ops[0]);
    if i > 0 {
      RunNumbers(w', ops[1..], i - 1);
      OpensCons(Respond(w, ops[0]), rest, i - 1);
    }
  }

  /** Descriptors are numbered by the successful opens, for ever: in every run the next one is the number of opens
      that succeeded before it, however many were closed in between, so no number is given out twice. */
  lemma DescriptorsAreNumbered(ops: seq<Op>, i: nat)
    requires IsRun(START, ops) && i < |ops|
    ensures |Replies(START, ops)| == |ops|
    ensures Replies(START, ops)[i].Descriptor? ==> Replies(START, ops)[i].fd == Opens(Replies(START, ops)[..i])
  {
    RunNumbers(START, ops, i);
  }

  // The working directory, from the replies alone

  function Chdirs(ops: seq<Op>, replies: seq<Reply>): seq<Chdir>
    requires |ops| == |replies|
    decreases |ops|
  {
    if ops == [] then []
    else (if ops[0].ChDir? then [Chdir(ops[0].name, replies[0] == Status(0))] else []) + Chdirs(ops[1..], replies[1..])
  }

  lemma StepMoves(w: World, op: Op)
    requires Enabled(w, op)
    ensures Step(w, op).cwd == if op.ChDir? && Respond(w, op) == Status(0) then NextCwd(w.cwd, op.name) else w.cwd
  {
  }

  lemma {:induction false} RunMoves(w: World, ops: seq<Op>)
    requires IsRun(w, ops)
    ensures |Replies(w, ops)| == |ops|
    ensures Ran(w, ops).cwd == AfterChdirs(w.cwd, Chdirs(ops, Replies(w, ops)))
    decreases |ops|
  {
    OutputsLength(Step, Respond, w, ops);
    if ops == [] {
    } else {
      var op, r, w' := ops[0], Respond(w, ops[0]), Step(w, ops[0]);
      StepMoves(w, op);
      RunMoves(w', ops[1..]);
      assert Replies(w, ops)[1..] == Replies(w', ops[1..]);
      var later := Chdirs(ops[1..], Replies(w', ops[1..]));
      if op.ChDir? {
        assert ([Chdir(op.name, r == Status(0))] + later)[1..] == later;
      } else {
        assert [] + later == later;
      }
    }
  }

  /** The working directory of every run is what the accepted chdir calls alone make of it; no other call, and no
      failure, moves it. */
  lemma OnlyChdirsMove(ops: seq<Op>)
    requires IsRun(START, ops)
    ensures |Replies(START, ops)| == |ops|
    ensures Ran(START, ops).cwd == AfterChdirs("", Chdirs(ops, Replies(START, ops)))
  {
    RunMoves(START, ops);
  }
}
