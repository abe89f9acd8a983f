/** Calls that fail leave no trace.  What later calls can notice is the working directory and, behind descriptors and
    DIR pointers, the devices and the views of files; not how delegates are numbered, which were deleted, or what they
    answered before. */
module Failures {
  import opened Wrappers
  import opened Paths
  import opened Runs
  import opened Console
  import opened Ownership
  import A = AtomicFile
  import H = Html5

  /** What a delegate shows of itself. */
  datatype Face = DeviceFace(device: Device) | FileFace(view: A.View)

  function FaceOf(d: Delegate): Face {
    match d
    case Port(device) => DeviceFace(device)
    case Html5(_, _, view) => FileFace(view)
  }

  function Shown(places: seq<Option<nat>>, delegates: seq<Delegate>): seq<Option<Face>>
    requires forall k :: 0 <= k < |places| ==> places[k].Some? ==> places[k].value < |delegates|
  {
    seq(|places|, k requires 0 <= k < |places| =>
      if places[k].None? then None else Some(FaceOf(delegates[places[k].value])))
  }

  datatype Visible = Visible(cwd: string, files: seq<Option<Face>>, streams: seq<Option<Face>>)

  function Sees(w: World): Visible
    requires Settled(w.table)
  {
    Visible(w.cwd, Shown(w.table.slots, w.table.delegates), Shown(w.table.dirs, w.table.delegates))
  }

  lemma {:induction false} OwnersTwice(places: seq<Option<nat>>, i: nat, j: nat)
    requires i < j < |places| && places[i].Some? && places[i] == places[j]
    ensures Owners(places)[places[i].value] >= 2
    decreases |places|
  {
    var front := places[..|places| - 1];
    if j < |front| {
      OwnersTwice(front, i, j);
    } else {
      assert front[i] == places[i];
      OwnersIn(front, places[i].value);
    }
  }

  /** A delegate is behind one descriptor only, and behind no directory as well. */
  lemma SlotIsAlone(t: Table, fd: nat)
    requires Conserved(t) && fd < |t.slots| && t.slots[fd].Some?
    ensures forall k :: 0 <= k < |t.slots| && k != fd ==> t.slots[k] != t.slots[fd]
    ensures forall k :: 0 <= k < |t.dirs| ==> t.dirs[k] != t.slots[fd]
  {
    var d := t.slots[fd].value;
    assert Census(t)[d] <= 1;
    forall k | 0 <= k < |t.slots| && k != fd ensures t.slots[k] != t.slots[fd] {
      if t.slots[k] == t.slots[fd] {
        OwnersTwice(t.slots, if k < fd then k else fd, if k < fd then fd else k);
      }
    }
    OwnersIn(t.slots, d);
    OwnersIn(t.dirs, d);
  }

  lemma DirIsAlone(t: Table, dir: nat)
    requires Conserved(t) && IsOpenDir(t, dir)
    ensures forall k :: 0 <= k < |t.dirs| && k != dir ==> t.dirs[k] != t.dirs[dir]
    ensures forall k :: 0 <= k < |t.slots| ==> t.slots[k] != t.dirs[dir]
  {
    var d := t.dirs[dir].value;
    assert Census(t)[d] <= 1;
    forall k | 0 <= k < |t.dirs| && k != dir ensures t.dirs[k] != t.dirs[dir] {
      if t.dirs[k] == t.dirs[dir] {
        OwnersTwice(t.dirs, if k < dir then k else dir, if k < dir then dir else k);
      }
    }
    OwnersIn(t.slots, d);
    OwnersIn(t.dirs, d);
  }

  lemma SeesTemporary(w: World, d: Delegate)
    requires Settled(w.table)
    ensures Sees(w.(table := DeleteTemporary(Create(w.table, d)))) == Sees(w)
  {
  }

  lemma SeesBind(w: World, d: Delegate)
    requires Settled(w.table)
    ensures Sees(w.(table := Bind(Create(w.table, d)))) == Sees(w).(files := Sees(w).files + [Some(FaceOf(d))])
  {
  }

  lemma SeesAdopt(w: World, d: Delegate)
    requires Settled(w.table)
    ensures Sees(w.(table := Adopt(Create(w.table, d)))) == Sees(w).(streams := Sees(w).streams + [Some(FaceOf(d))])
  {
  }

  lemma SeesDeleteBound(w: World, fd: nat)
    requires Settled(w.table) && fd < |w.table.slots| && w.table.slots[fd].Some?
    ensures Sees(w.(table := DeleteBound(w.table, fd))) == Sees(w).(files := Sees(w).files[fd := None])
  {
  }

  lemma SeesDeleteDir(w: World, dir: nat)
    requires Settled(w.table) && IsOpenDir(w.table, dir)
    ensures Sees(w.(table := DeleteDir(w.table, dir))) == Sees(w).(streams := Sees(w).streams[dir := None])
  {
  }

  /** A call on one descriptor reaches the delegate behind it and no other. */
  lemma SeesUse(w: World, fd: nat, next: Delegate)
    requires Settled(w.table) && Conserved(w.table) && fd < |w.table.slots| && w.table.slots[fd].Some?
    ensures Sees(w.(table := Update(w.table, w.table.slots[fd].value, next)))
            == Sees(w).(files := Sees(w).files[fd := Some(FaceOf(next))])
  {
    SlotIsAlone(w.table, fd);
    var w' := w.(table := Update(w.table, w.table.slots[fd].value, next));
    assert Sees(w').files == Sees(w).files[fd := Some(FaceOf(next))];
    assert Sees(w').streams == Sees(w).streams;
  }

  lemma SeesUseDir(w: World, dir: nat, next: Delegate)
    requires Settled(w.table) && Conserved(w.table) && IsOpenDir(w.table, dir)
    ensures Sees(w.(table := Update(w.table, w.table.dirs[dir].value, next)))
            == Sees(w).(streams := Sees(w).streams[dir := Some(FaceOf(next))])
  {
    DirIsAlone(w.table, dir);
    var w' := w.(table := Update(w.table, w.table.dirs[dir].value, next));
    assert Sees(w').files == Sees(w).files;
    assert Sees(w').streams == Sees(w).streams[dir := Some(FaceOf(next))];
  }

  /** Two states that look the same. */
  ghost predicate Alike(w: World, v: World) {
    Sound(w) && Sound(v) && Sees(w) == Sees(v)
  }

  ghost predicate Matches(w: World, v: World) {
    && Settled(w.table) && Settled(v.table) && Conserved(w.table) && Conserved(v.table)
    && Sees(w) == Sees(v)
  }

  /** Two lists of places, with the delegates they number, that show the same. */
  predicate SameFaces(a: seq<Option<nat>>, da: seq<Delegate>, b: seq<Option<nat>>, db: seq<Delegate>)
    requires forall k :: 0 <= k < |a| ==> a[k].Some? ==> a[k].value < |da|
    requires forall k :: 0 <= k < |b| ==> b[k].Some? ==> b[k].value < |db|
  {
    && |a| == |b|
    && forall k :: 0 <= k < |a| ==>
         && (a[k].None? <==> b[k].None?)
         && (a[k].Some? ==> FaceOf(da[a[k].value]) == FaceOf(db[b[k].value]))
  }

  lemma ShownSame(a: seq<Option<nat>>, da: seq<Delegate>, b: seq<Option<nat>>, db: seq<Delegate>)
    requires forall k :: 0 <= k < |a| ==> a[k].Some? ==> a[k].value < |da|
    requires forall k :: 0 <= k < |b| ==> b[k].Some? ==> b[k].value < |db|
    requires Shown(a, da) == Shown(b, db)
    ensures SameFaces(a, da, b, db)
  {
    assert |Shown(a, da)| == |Shown(b, db)|;
    forall k | 0 <= k < |a|
      ensures (a[k].None? <==> b[k].None?) && (a[k].Some? ==> FaceOf(da[a[k].value]) == FaceOf(db[b[k].value]))
    {
      assert Shown(a, da)[k] == Shown(b, db)[k];
    }
  }

  lemma MatchingPlaces(w: World, v: World)
    requires Matches(w, v)
    ensures w.cwd == v.cwd
    ensures SameFaces(w.table.slots, w.table.delegates, v.table.slots, v.table.delegates)
    ensures SameFaces(w.table.dirs, w.table.delegates, v.table.dirs, v.table.delegates)
  {
    ShownSame(w.table.slots, w.table.delegates, v.table.slots, v.table.delegates);
    ShownSame(w.table.dirs, w.table.delegates, v.table.dirs, v.table.delegates);
  }

  lemma MatchingAllows(w: World, v: World, op: Op)
    requires Matches(w, v) && Enabled(w, op)
    ensures Enabled(v, op) && Respond(v, op) == Respond(w, op)
  {
    MatchingPlaces(w, v);
  }

  lemma MatchingTemporary(w: World, v: World, d: Delegate)
    requires Matches(w, v)
    ensures Sees(w.(table := DeleteTemporary(Create(w.table, d))))
            == Sees(v.(table := DeleteTemporary(Create(v.table, d))))
  {
    SeesTemporary(w, d);
    SeesTemporary(v, d);
  }

  /** The next state, seen. */
  ghost predicate SameNext(w: World, v: World, op: Op)
    requires Enabled(w, op) && Enabled(v, op)
  {
    var w', v' := Apply(w, op).0, Apply(v, op).0;
    Settled(w'.table) && Settled(v'.table) ==> Sees(w') == Sees(v')
  }

  lemma SameOpen(w: World, v: World, op: Op)
    requires Matches(w, v) && Enabled(w, op) && Enabled(v, op) && op.Open?
    ensures SameNext(w, v, op)
  {
    if op.path.Some? {
      var d := OpenedDelegate(FullPath(w.cwd, op.path.value), op.answer);
      MatchingTemporary(w, v, d);
      SeesBind(w, d);
      SeesBind(v, d);
    }
  }

  lemma SameOpenDir(w: World, v: World, op: Op)
    requires Matches(w, v) && Enabled(w, op) && Enabled(v, op) && op.OpenDir?
    ensures SameNext(w, v, op)
  {
    if op.path.Some? {
      var d := AskedDelegate(FullPath(w.cwd, op.path.value), op.answer);
      MatchingTemporary(w, v, d);
      SeesAdopt(w, d);
      SeesAdopt(v, d);
    }
  }

  lemma SameAsk(w: World, v: World, op: Op)
    requires Matches(w, v) && Enabled(w, op) && Enabled(v, op) && (op.Stat? || op.MkDir? || op.ChDir?)
    ensures SameNext(w, v, op)
  {
    if op.MkDir? {
      if op.path.Some? { MatchingTemporary(w, v, AskedDelegate(FullPath(w.cwd, op.path.value), op.answer)); }
    } else {
      MatchingTemporary(w, v, AskedDelegate(FullPath(w.cwd, op.name), op.answer));
    }
  }

  lemma SameClose(w: World, v: World, op: Op)
    requires Matches(w, v) && Enabled(w, op) && Enabled(v, op) && op.Close?
    ensures SameNext(w, v, op)
  {
    MatchingPlaces(w, v);
    if GetDelegate(w.table, op.fd).Some? {
      SeesDeleteBound(w, op.fd);
      SeesDeleteBound(v, op.fd);
    }
  }

  lemma SameCloseDir(w: World, v: World, op: Op)
    requires Matches(w, v) && Enabled(w, op) && Enabled(v, op) && op.CloseDir?
    ensures SameNext(w, v, op)
  {
    MatchingPlaces(w, v);
    SeesDeleteDir(w, op.dir);
    SeesDeleteDir(v, op.dir);
  }

  lemma SameUse(w: World, v: World, op: Op)
    requires Matches(w, v) && Enabled(w, op) && Enabled(v, op) && op.Use?
    ensures SameNext(w, v, op)
  {
    MatchingPlaces(w, v);
    if GetDelegate(w.table, op.fd).Some? {
      var next, next' := Told(w.table.delegates[w.table.slots[op.fd].value], op.answer),
                         Told(v.table.delegates[v.table.slots[op.fd].value], op.answer);
      assert FaceOf(next) == FaceOf(next');
      SeesUse(w, op.fd, next);
      SeesUse(v, op.fd, next');
    }
  }

  lemma SameUseDir(w: World, v: World, op: Op)
    requires Matches(w, v) && Enabled(w, op) && Enabled(v, op) && op.UseDir?
    ensures SameNext(w, v, op)
  {
    MatchingPlaces(w, v);
    var next, next' := Told(w.table.delegates[w.table.dirs[op.dir].value], op.answer),
                       Told(v.table.delegates[v.table.dirs[op.dir].value], op.answer);
    assert FaceOf(next) == FaceOf(next');
    SeesUseDir(w, op.dir, next);
    SeesUseDir(v, op.dir, next');
  }

  lemma SameAny(w: World, v: World, op: Op)
    requires Matches(w, v) && Enabled(w, op) && Enabled(v, op)
    ensures SameNext(w, v, op)
  {
    match op
    case Open(_, _, _) => SameOpen(w, v, op);
    case OpenDir(_, _) => SameOpenDir(w, v, op);
    case Close(_, _) => SameClose(w, v, op);
    case CloseDir(_, _) => SameCloseDir(w, v, op);
    case Use(_, _, _, _) => SameUse(w, v, op);
    case UseDir(_, _, _) => SameUseDir(w, v, op);
    case _ => SameAsk(w, v, op);
  }

  /** What one call returns, and what it does to what can be seen, depends on nothing else. */
  lemma AlikeStep(w: World, v: World, op: Op)
    requires Alike(w, v) && Enabled(w, op)
    ensures Enabled(v, op) && Respond(v, op) == Respond(w, op) && Alike(Step(w, op), Step(v, op))
  {
    MatchingAllows(w, v, op);
    SameAny(w, v, op);
    ApplyKeepsSound(w, op);
    ApplyKeepsSound(v, op);
  }

  /** Later calls cannot tell whether this one was made. */
  ghost predicate Traceless(w: World, op: Op)
    requires Enabled(w, op)
  {
    var w' := Apply(w, op).0;
    Settled(w'.table) && Sees(w') == Sees(w)
  }

  /** The caller is told that the call failed.  NULL from readdir counts, though it may also be the end of the list. */
  predicate Failed(op: Op, r: Reply) {
    match op
    case Open(_, _, _) => r.Status?
    case OpenDir(_, _) => r == Stream(None)
    case Use(_, call, _, _) => r.Status? && (if call.Fstat? then r.code != 0 else r.code < 0)
    case UseDir(_, _, _) => r == Name(None)
    case _ => r != Status(0)
  }

  /** Which answers of a file change its view although the call fails: to a write that completed with an error while
      the position was past the cached size, to a seek to a negative position other than the present one, and to a
      readdir that loads an empty list. */
  predicate Shows(e: A.Entry) {
    match e.op
    case Write(_) => e.codes != [] && e.pre.offset > e.pre.info.size
    case Seek(_, whence) => !whence.SeekBad? && e.result != H.Code(e.pre.offset)
    case ReadDir => A.Loads(e)
    case _ => false
  }

  predicate ShowsAnyway(w: World, op: Op)
    requires Enabled(w, op)
  {
    match op
    case Use(fd, _, Answered(e), _) =>
      var d := GetDelegate(w.table, fd);
      d.Some? && w.table.delegates[d.value].Html5? && Shows(e)
    case UseDir(_, _, Answered(e)) => Shows(e)
    case _ => false
  }

  lemma SeesAsk(w: World, full: string, a: Answer)
    requires Settled(w.table)
    ensures Settled(Asked(w, full, a).table) && Sees(Asked(w, full, a)) == Sees(w)
  {
    SeesTemporary(w, AskedDelegate(full, a));
  }

  lemma FailedOpen(w: World, op: Op)
    requires Enabled(w, op) && op.Open? && Failed(op, Apply(w, op).1)
    ensures Traceless(w, op)
  {
    if op.path.Some? { SeesTemporary(w, OpenedDelegate(FullPath(w.cwd, op.path.value), op.answer)); }
  }

  lemma FailedPath(w: World, op: Op)
    requires Enabled(w, op) && Failed(op, Apply(w, op).1) && (op.OpenDir? || op.ChDir?)
    ensures Traceless(w, op)
  {
    if op.ChDir? { SeesAsk(w, FullPath(w.cwd, op.name), op.answer); }
    else if op.path.Some? { SeesAsk(w, FullPath(w.cwd, op.path.value), op.answer); }
  }

  /** stat and mkdir, whatever they return. */
  lemma AskingIsTraceless(w: World, op: Op)
    requires Enabled(w, op) && (op.Stat? || op.MkDir?)
    ensures Traceless(w, op)
  {
    if op.Stat? { SeesAsk(w, FullPath(w.cwd, op.name), op.answer); }
    else if op.path.Some? { SeesAsk(w, FullPath(w.cwd, op.path.value), op.answer); }
  }

  /** A failing call on a file changes its view exactly in the three cases. */
  lemma FailedEntry(e: A.Entry)
    requires A.Atomic(e) && DescriptorCall(e.op) && e.result.Code?
    requires if e.op.Fstat? then e.result.code != 0 else e.result.code < 0
    ensures e.post == e.pre <==> !Shows(e)
  {
  }

  lemma FailedDirEntry(e: A.Entry)
    requires A.Atomic(e) && e.op.ReadDir? && e.result == H.Dirent(None)
    requires e.pre.dir.Some? && (!e.pre.dir.value.read ==> e.pre.dir.value == H.Dir([], 0, false))
    ensures e.post == e.pre <==> !Shows(e)
  {
  }

  lemma FileSeen(w: World, fd: nat, a: Answer)
    requires Settled(w.table) && Conserved(w.table) && fd < |w.table.slots| && w.table.slots[fd].Some?
    requires w.table.delegates[w.table.slots[fd].value].Html5? && a.Answered?
    requires a.entry.pre == w.table.delegates[w.table.slots[fd].value].view
    ensures var d := w.table.slots[fd].value;
            Sees(w.(table := Update(w.table, d, Told(w.table.delegates[d], a)))) == Sees(w)
            <==> a.entry.post == a.entry.pre
  {
    var d := w.table.slots[fd].value;
    SeesUse(w, fd, Told(w.table.delegates[d], a));
    assert Sees(w).files[fd] == Some(FileFace(a.entry.pre));
    assert Sees(w).files[fd := Some(FileFace(a.entry.post))][fd] == Some(FileFace(a.entry.post));
  }

  lemma StreamSeen(w: World, dir: nat, a: Answer)
    requires Settled(w.table) && Conserved(w.table) && IsOpenDir(w.table, dir)
    requires w.table.delegates[w.table.dirs[dir].value].Html5? && a.Answered?
    requires a.entry.pre == w.table.delegates[w.table.dirs[dir].value].view
    ensures var d := w.table.dirs[dir].value;
            Sees(w.(table := Update(w.table, d, Told(w.table.delegates[d], a)))) == Sees(w)
            <==> a.entry.post == a.entry.pre
  {
    var d := w.table.dirs[dir].value;
    SeesUseDir(w, dir, Told(w.table.delegates[d], a));
    assert Sees(w).streams[dir] == Some(FileFace(a.entry.pre));
    assert Sees(w).streams[dir := Some(FileFace(a.entry.post))][dir] == Some(FileFace(a.entry.post));
  }

  lemma SameDelegate(t: Table, d: nat)
    requires d < |t.delegates|
    ensures Update(t, d, t.delegates[d]) == t
  {
  }

  lemma FailedUse(w: World, fd: int, call: H.Op, a: Answer, device: int)
    requires Sound(w) && Enabled(w, Use(fd, call, a, device))
    requires Failed(Use(fd, call, a, device), ApplyUse(w, fd, call, a, device).1)
    ensures Traceless(w, Use(fd, call, a, device)) <==> !ShowsAnyway(w, Use(fd, call, a, device))
  {
    UseKeepsSound(w, fd, call, a, device);
    if GetDelegate(w.table, fd).Some? && w.table.delegates[w.table.slots[fd].value].Html5? {
      if a.Answered? {
        FailedEntry(a.entry);
        FileSeen(w, fd, a);
      } else {
        SameDelegate(w.table, w.table.slots[fd].value);
      }
    }
  }

  lemma FailedUseDir(w: World, dir: nat, call: H.Op, a: Answer)
    requires Sound(w) && Enabled(w, UseDir(dir, call, a))
    requires Failed(UseDir(dir, call, a), ApplyUseDir(w, dir, call, a).1)
    ensures Traceless(w, UseDir(dir, call, a)) <==> !ShowsAnyway(w, UseDir(dir, call, a))
  {
    UseDirKeepsSound(w, dir, call, a);
    var d := w.table.dirs[dir].value;
    if a.Answered? {
      AdoptedShape(w.table.delegates[d]);
      FailedDirEntry(a.entry);
      StreamSeen(w, dir, a);
    } else {
      SameDelegate(w.table, d);
    }
  }

  /** A failing call leaves no trace exactly if it is not one of the three that change a view anyway. */
  lemma FailuresAreTraceless(w: World, op: Op)
    requires Sound(w) && Enabled(w, op) && Failed(op, Respond(w, op))
    ensures Traceless(w, op) <==> !ShowsAnyway(w, op)
  {
    match op
    case Open(_, _, _) => FailedOpen(w, op);
    case OpenDir(_, _) | ChDir(_, _) => FailedPath(w, op);
    case Stat(_, _) | MkDir(_, _) => AskingIsTraceless(w, op);
    case Use(fd, call, a, device) => FailedUse(w, fd, call, a, device);
    case UseDir(dir, call, a) => FailedUseDir(w, dir, call, a);
    case _ =>
  }

  /** The calls to take out of a run: those that failed without changing a view, and those that only ask. */
  predicate Silent(w: World, op: Op) {
    && Enabled(w, op)
    && (op.Stat? || op.MkDir? || (Failed(op, Respond(w, op)) && !ShowsAnyway(w, op)))
  }

  lemma SilentStep(w: World, v: World, op: Op)
    requires Alike(w, v) && Enabled(w, op) && Silent(w, op)
    ensures Alike(Step(w, op), v)
  {
    ApplyKeepsSound(w, op);
    if op.Stat? || op.MkDir? {
      AskingIsTraceless(w, op);
    } else {
      FailuresAreTraceless(w, op);
    }
  }

  /** The calls of a run that leave a trace, and what they returned. */
  ghost function Audible(ops: seq<Op>): seq<Op> {
    Erased(Step, Silent, START, ops)
  }

  ghost function AudibleReplies(ops: seq<Op>): seq<Reply> {
    Heard(Step, Silent, Respond, START, ops)
  }

  /** Failures leave no trace: take every silent call out of a run, and what is left is a run in which every call
      returns what it returned before, and which ends with the same working directory and the same devices and views
      behind the same descriptors and DIR pointers. */
  lemma FailuresLeaveNoTrace(ops: seq<Op>)
    requires IsRun(START, ops)
    ensures IsRun(START, Audible(ops)) && Replies(START, Audible(ops)) == AudibleReplies(ops)
    ensures Settled(Ran(START, ops).table) && Settled(Ran(START, Audible(ops)).table)
    ensures Sees(Ran(START, Audible(ops))) == Sees(Ran(START, ops))
  {
    StartSound();
    forall w: World, v: World, op: Op | Alike(w, v) && Enabled(w, op)
      ensures Enabled(v, op) && Respond(v, op) == Respond(w, op) && Alike(Step(w, op), Step(v, op))
    {
      AlikeStep(w, v, op);
    }
    forall w: World, v: World, op: Op | Alike(w, v) && Enabled(w, op) && Silent(w, op)
      ensures Alike(Step(w, op), v)
    {
      SilentStep(w, v, op);
    }
    Erasing(Enabled, Step, Respond, Alike, Silent, START, START, ops);
  }
}
