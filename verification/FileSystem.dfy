/** `FileSystem`: the working directory, the descriptor table and the calls that maintain them. */
module FileSystems {
  import opened Wrappers
  import opened Strings
  import opened Paths
  import opened Errno
  import opened Console
  import opened Runs
  import opened Ownership
  import H = Html5

  /** `std::string::find` and `index`: the first occurrence of `c` at or after `from`. */
  method Find(s: string, c: char, from: nat) returns (k: Option<nat>)
    requires from <= |s|
    ensures match k
            case None => c !in s[from..]
            case Some(i) => from <= i < |s| && s[i] == c && c !in s[from..i]
  {
    var i := from;
    while i < |s|
      invariant from <= i <= |s| && c !in s[from..i]
    {
      if s[i] == c { return Some(i); }
      i := i + 1;
    }
    return None;
  }

  /** Cutting off the first piece. */
  lemma SplitStep(s: string, from: nat, k: nat)
    requires from <= k < |s| && s[k] == '/' && '/' !in s[from..k]
    ensures Split(s[from..], '/') == [s[from..k]] + Split(s[k + 1..], '/')
  {
    FreeThenSep(s[from..k], s[k + 1..], '/');
    assert s[from..] == s[from..k] + (['/'] + s[k + 1..]);
  }

  method SplitCwd(cwd: string) returns (paths: seq<string>)
    requires cwd != ""
    ensures paths == CwdParts(cwd)
  {
    paths := [];
    var offset := 0;
    while true
      invariant 0 <= offset <= |cwd|
      invariant paths + Split(cwd[offset..], '/') == Split(cwd, '/')
      decreases |cwd| - offset
    {
      var next := Find(cwd, '/', offset);
      if next == None {
        SplitFree(cwd[offset..], '/');
        paths := paths + [cwd[offset..]];
        break;
      }
      SplitStep(cwd, offset, next.value);
      Assoc(paths, [cwd[offset..next.value]], Split(cwd[next.value + 1..], '/'));
      paths := paths + [cwd[offset..next.value]];
      offset := next.value + 1;
    }
  }

  /** What is still to be counted when `paths` has been collected and the caret stands at `from`. */
  ghost predicate Collected(path: string, from: nat, paths: seq<string>, all: seq<string>)
    requires from <= |path|
  {
    paths + Counted(Split(path[from..], '/')) == all
  }

  lemma CollectedStart(path: string, before: seq<string>)
    ensures Collected(path, 0, before, before + Tokens(path))
  {
    assert path[0..] == path;
  }

  /** What the loop keeps of one piece. */
  predicate IsKept(path: string, from: nat, k: nat)
    requires from <= k < |path|
  {
    k - from != 0 && !(k - from == 1 && path[from] == '.')
  }

  lemma KeptSlice(path: string, from: nat, k: nat)
    requires from <= k < |path|
    ensures Kept(path[from..k]) == if IsKept(path, from, k) then [path[from..k]] else []
  {
    var piece := path[from..k];
    if piece == "." {
      assert |piece| == 1 && piece[0] == path[from];
    } else if k - from == 1 {
      assert piece == [path[from]];
    }
  }

  lemma CollectedStep(path: string, from: nat, k: nat, paths: seq<string>, all: seq<string>)
    requires from <= k < |path| && path[k] == '/' && '/' !in path[from..k]
    requires Collected(path, from, paths, all)
    ensures Collected(path, k + 1, if IsKept(path, from, k) then paths + [path[from..k]] else paths, all)
  {
    var piece, rest := path[from..k], Split(path[k + 1..], '/');
    SplitStep(path, from, k);
    CountedAppend([piece], rest);
    TrimOne(piece);
    KeptSlice(path, from, k);
    Assoc(paths, Kept(piece), Counted(rest));
    if !IsKept(path, from, k) {
      assert paths + [] == paths;
    }
  }

  lemma CollectedEnd(path: string, from: nat, paths: seq<string>, all: seq<string>)
    requires from <= |path| && '/' !in path[from..] && Collected(path, from, paths, all)
    ensures all == paths + (if from == |path| then [] else [path[from..]])
  {
    SplitFree(path[from..], '/');
    assert [path[from..]][..0] == [];
  }

  /** The pointer walk over the argument; the end of the string plays the part of the terminating NUL. */
  method SplitPath(path: string, before: seq<string>) returns (paths: seq<string>)
    ensures paths == before + Tokens(path)
  {
    paths := before;
    var caret := 0;
    ghost var all := before + Tokens(path);
    CollectedStart(path, before);
    while caret < |path|
      invariant 0 <= caret <= |path|
      invariant Collected(path, caret, paths, all)
    {
      var delim := Find(path, '/', caret);
      if delim == None {
        CollectedEnd(path, caret, paths, all);
        paths := paths + [path[caret..]];
        return;
      }
      CollectedStep(path, caret, delim.value, paths, all);
      var size := delim.value - caret;
      if size != 0 && !(size == 1 && path[caret] == '.') {
        paths := paths + [path[caret..delim.value]];
      }
      caret := delim.value + 1;
    }
    CollectedEnd(path, caret, paths, all);
  }

  function Erase<T>(s: seq<T>, k: nat): seq<T>
    requires k < |s|
  {
    s[..k] + s[k + 1..]
  }

  /** The in-place erasure of "..".  The iterator is an index and steps back to -1 when it erases the front.
      Every turn of the loop brings the end one closer, so there are as many turns as components. */
  method EraseDotDot(components: seq<string>) returns (paths: seq<string>, ghost turns: nat)
    ensures paths == Fold([], components)
    ensures turns == |components|
  {
    paths, turns := components, 0;
    var iter: int := 0;
    while iter != |paths|
      invariant 0 <= iter <= |paths|
      invariant ".." !in paths[..iter]
      invariant Fold(paths[..iter], paths[iter..]) == Fold([], components)
      invariant turns + (|paths| - iter) == |components|
      decreases |paths| - iter
    {
      turns := turns + 1;
      ghost var done, rest := paths[..iter], paths[iter..];
      if paths[iter] != ".." {
        iter := iter + 1;
        assert paths[..iter] == Push(done, rest[0]) && paths[iter..] == rest[1..];
        continue;
      }
      if iter != 0 {
        var erased := iter;
        iter := iter - 1;
        paths := Erase(paths, erased);
      }
      var erased := iter;
      iter := iter - 1;
      paths := Erase(paths, erased);
      iter := iter + 1;
      assert paths[..iter] == Push(done, rest[0]) && paths[iter..] == rest[1..];
    }
    assert paths[..iter] == paths && paths[iter..] == [];
  }

  lemma RenderSnoc(paths: seq<string>, p: string)
    ensures Render(paths + [p]) == (if paths == [] then "" else Render(paths)) + "/" + p
  {
    if paths == [] {
      assert paths + [p] == [p];
      assert "" + "/" == "/";
    } else {
      var joined := Join(paths, '/');
      JoinSnoc(paths, p, '/');
      Assoc("/", joined, "/");
      Assoc("/", joined + "/", p);
    }
  }

  /** What has been appended after `iter` components. */
  function Rendered(paths: seq<string>, iter: nat): string
    requires iter <= |paths|
  {
    if iter == 0 then "" else Render(paths[..iter])
  }

  lemma RenderedStep(paths: seq<string>, iter: nat)
    requires iter < |paths|
    ensures Rendered(paths, iter + 1) == Rendered(paths, iter) + "/" + paths[iter]
  {
    assert paths[..iter + 1] == paths[..iter] + [paths[iter]];
    RenderSnoc(paths[..iter], paths[iter]);
  }

  lemma RenderedAll(paths: seq<string>)
    requires paths != []
    ensures Rendered(paths, |paths|) == Render(paths)
  {
    assert paths[..|paths|] == paths;
  }

  method JoinPaths(paths: seq<string>) returns (fullpath: string)
    ensures fullpath == Render(paths)
  {
    if |paths| == 0 {
      return "/";
    }
    fullpath := "";
    var iter := 0;
    while iter != |paths|
      invariant 0 <= iter <= |paths|
      invariant fullpath == Rendered(paths, iter)
    {
      RenderedStep(paths, iter);
      fullpath := fullpath + "/";
      fullpath := fullpath + paths[iter];
      iter := iter + 1;
    }
    RenderedAll(paths);
  }

  lemma CreateThenUpdate(t: Table, d: Delegate, next: Delegate)
    ensures Update(Create(t, d), |t.delegates|, next) == Create(t, next)
  {
  }

  /** What one turn of the read loop meets. */
  datatype Turn = Turn(answer: Answer, device: int)

  function Reads(fd: int, nbytes: nat, turns: seq<Turn>): seq<Op> {
    seq(|turns|, k requires 0 <= k < |turns| => Use(fd, H.Read(nbytes), turns[k].answer, turns[k].device))
  }

  /** The first `n` turns have all been answered -2. */
  ghost predicate StillReading(start: World, w: World, fd: int, nbytes: nat, turns: seq<Turn>, n: nat) {
    var ops := Reads(fd, nbytes, turns);
    && n <= |turns| && w == Ran(start, ops[..n])
    && |Replies(start, ops)| == |turns|
    && (forall k :: 0 <= k < n ==> Replies(start, ops)[k] == Status(-2))
  }

  /** What the read loop has done after `made` turns: it still loops, or the last turn had an answer other than -2. */
  ghost predicate ReadEnds(start: World, w: World, fd: int, nbytes: nat, turns: seq<Turn>, made: nat,
                           result: Option<int>)
  {
    match result
    case None => made == |turns| && StillReading(start, w, fd, nbytes, turns, made)
    case Some(r) =>
      var ops := Reads(fd, nbytes, turns);
      && 0 < made <= |turns| && w == Ran(start, ops[..made])
      && |Replies(start, ops)| == |turns|
      && (forall k :: 0 <= k < made - 1 ==> Replies(start, ops)[k] == Status(-2))
      && Replies(start, ops)[made - 1] == Status(r) && r != -2
  }

  lemma StartReading(start: World, fd: int, nbytes: nat, turns: seq<Turn>)
    ensures StillReading(start, start, fd, nbytes, turns, 0)
  {
    OutputsLength(Step, Respond, start, Reads(fd, nbytes, turns));
    assert Ran(start, []) == start;
  }

  /** One turn of the read loop. */
  lemma ReadTurn(start: World, w: World, fd: int, nbytes: nat, turns: seq<Turn>, n: nat)
    requires IsRun(start, Reads(fd, nbytes, turns)) && n < |turns|
    requires StillReading(start, w, fd, nbytes, turns, n)
    ensures var op := Use(fd, H.Read(nbytes), turns[n].answer, turns[n].device);
            && Enabled(w, op)
            && var (w', r) := Apply(w, op);
               && r.Status?
               && if r.code == -2 then StillReading(start, w', fd, nbytes, turns, n + 1)
                  else ReadEnds(start, w', fd, nbytes, turns, n + 1, Some(r.code))
  {
    RunStep(Enabled, Step, Respond, start, Reads(fd, nbytes, turns), n);
  }

  /** read on a browser file: one call of the delegate ends the loop exactly if it was not answered -2, and then its
      answer is what the program gets; after -2 the loop goes on, to wait for the mutex. */
  lemma FileReadEnds(w: World, fd: int, nbytes: nat, a: Answer, result: Option<int>)
    requires IsRun(w, Reads(fd, nbytes, [Turn(a, 0)])) && GetDelegate(w.table, fd).Some?
    requires w.table.delegates[w.table.slots[fd].value].Html5? && a.Answered?
    ensures a.entry.result.Code?
    ensures ReadEnds(w, Step(w, Use(fd, H.Read(nbytes), a, 0)), fd, nbytes, [Turn(a, 0)], 1, result)
            <==> result == if a.entry.result == H.Code(-2) then None else Some(a.entry.result.code)
  {
    var turns := [Turn(a, 0)];
    StartReading(w, fd, nbytes, turns);
    ReadTurn(w, w, fd, nbytes, turns, 0);
    RunStep(Enabled, Step, Respond, w, Reads(fd, nbytes, turns), 0);
  }

  lemma MkDirAsks(w: World, path: Option<string>, a: Answer, full: string)
    requires Sound(w) && Enabled(w, Op.MkDir(path, a)) && path.Some? && full == FullPath(w.cwd, path.value)
    ensures Apply(w, Op.MkDir(path, a)) == (Asked(w, full, a), Status(MkDirResult(full, a)))
    ensures Sound(Asked(w, full, a))
  {
    AskKeepsSound(w, full, a);
  }

  lemma StatAsks(w: World, name: string, a: Answer, full: string)
    requires Sound(w) && Enabled(w, Op.Stat(name, a)) && full == FullPath(w.cwd, name)
    ensures Apply(w, Op.Stat(name, a)) == (Asked(w, full, a), Status(PathResult(full, a)))
    ensures Sound(Asked(w, full, a))
  {
    AskKeepsSound(w, full, a);
  }

  lemma OpenDirAsks(w: World, path: Option<string>, a: Answer, full: string)
    requires Sound(w) && Enabled(w, Op.OpenDir(path, a)) && path.Some? && full == FullPath(w.cwd, path.value)
    ensures Apply(w, Op.OpenDir(path, a))
            == if FoundDir(full, a)
               then (w.(table := Adopt(Create(w.table, AskedDelegate(full, a)))), Stream(Some(|w.table.dirs|)))
               else (Asked(w, full, a), Stream(None))
    ensures Sound(Apply(w, Op.OpenDir(path, a)).0)
  {
    OpenDirKeepsSound(w, path, a);
  }

  lemma StatFills(full: string, a: Answer)
    requires AnswersNew(a, H.Stat)
    ensures a.Answered? ==> a.entry.result.Code?
    ensures PathResult(full, a) == 0 && !IsPort(full) ==> a.Answered? && a.entry.st.Some?
  {
  }

  /** chdir is stat and then, for a directory, an assignment. */
  lemma ChDirAsks(w: World, name: string, a: Answer, full: string)
    requires Enabled(w, Op.ChDir(name, a)) && full == FullPath(w.cwd, name)
    ensures Enabled(w, Op.Stat(name, a))
    ensures Apply(w, Op.Stat(name, a)) == (Asked(w, full, a), Status(PathResult(full, a)))
    ensures PathResult(full, a) == 0 && !IsPort(full) ==> a.Answered? && a.entry.st.Some?
    ensures Apply(w, Op.ChDir(name, a))
            == if PathResult(full, a) != 0 then (Asked(w, full, a), Status(PathResult(full, a)))
               else if SawDirectory(full, a) then (Asked(w, full, a).(cwd := full[1..]), Status(0))
               else (Asked(w, full, a), Status(-1))
  {
    StatFills(full, a);
  }

  class FileSystem {
    var descriptors: seq<Option<nat>>
    var cwd: string
    // The objects the calls create: delegates by number, open directories, and what has been deleted.
    var delegates: seq<Delegate>
    var dirs: seq<Option<nat>>
    var inUse: seq<nat>
    var deleted: seq<nat>

    ghost function State(): World
      reads this
    {
      World(cwd, Table(delegates, descriptors, dirs, inUse, deleted))
    }

    ghost predicate Valid()
      reads this
    {
      Sound(State())
    }

    constructor ()
      ensures State() == START && Valid()
    {
      descriptors, cwd, delegates, dirs, inUse, deleted := [], "", [], [], [], [];
      new;
      StartSound();
    }

    method CreateFullpath(path: string) returns (fullpath: string)
      ensures fullpath == FullPath(cwd, path)
    {
      var paths: seq<string> := [];
      if (path == "" || path[0] != '/') && |cwd| > 0 {
        paths := SplitCwd(cwd);
      }
      paths := SplitPath(path, paths);
      ghost var turns;
      paths, turns := EraseDotDot(paths);
      fullpath := JoinPaths(paths);
    }

    // The delegate objects.  What a browser-file delegate will answer says which file it is created for.

    method CreateDelegate(path: string, answer: Answer)
      modifies this
      ensures State() == old(State()).(table := Create(old(State()).table, NewDelegate(path, answer)))
    {
      if "/dev/std" <= path {
        delegates := delegates + [Port(NEW_DEVICE)];
      } else {
        delegates := delegates + [NewFile(answer)];
      }
      inUse := inUse + [|delegates| - 1];
    }

    method DeleteDelegate()
      requires |inUse| == 1
      modifies this
      ensures State() == old(State()).(table := DeleteTemporary(old(State()).table))
    {
      deleted := deleted + inUse;
      inUse := [];
    }

    method BindToDescriptor() returns (fd: nat)
      requires |inUse| == 1
      modifies this
      ensures State() == old(State()).(table := Bind(old(State()).table))
      ensures fd == |old(descriptors)|
    {
      descriptors := descriptors + [Some(inUse[0])];
      inUse := [];
      fd := |descriptors| - 1;
    }

    method DeleteDescriptor(fildes: int)
      requires GetDelegate(State().table, fildes).Some?
      modifies this
      ensures State() == old(State()).(table := DeleteBound(old(State()).table, fildes))
    {
      deleted := deleted + [descriptors[fildes].value];
      descriptors := descriptors[fildes := None];
    }

    /** A call on delegate `d`; `guard` is what the guard against the main thread returns. */
    method CallDelegate(d: nat, answer: Answer, guard: int) returns (code: int)
      requires d < |delegates| && delegates[d].Html5? && (answer.Answered? ==> answer.entry.result.Code?)
      modifies this`delegates
      ensures State() == old(State()).(table := Update(old(State()).table, d, Told(old(delegates)[d], answer)))
      ensures code == CodeOf(answer, guard)
    {
      match answer {
        case MainThread =>
          code := guard;
        case Answered(entry) =>
          var file := delegates[d];
          delegates := delegates[d := Html5(file.born, file.past + [entry], entry.post)];
          code := entry.result.code;
      }
    }

    /** The delegate's own Open: a device is told from its path. */
    method OpenDelegate(path: string, answer: Answer, ghost before: Table) returns (code: int)
      requires State().table == Create(before, NewDelegate(path, answer))
      requires answer.Answered? ==> answer.entry.result.Code?
      modifies this`delegates
      ensures State() == old(State()).(table := Create(before, OpenedDelegate(path, answer)))
      ensures code == PathResult(path, answer)
    {
      CreateThenUpdate(before, NewDelegate(path, answer), OpenedDelegate(path, answer));
      var last := |delegates| - 1;
      match delegates[last] {
        case Port(device) =>
          delegates := delegates[last := Port(OpenDevice(device, path))];
          code := DeviceStatus(path);
        case Html5(_, _, _) =>
          code := CallDelegate(last, answer, EIO);
      }
    }

    method StatDelegate(path: string, answer: Answer, ghost before: Table) returns (code: int)
      requires State().table == Create(before, NewDelegate(path, answer))
      requires answer.Answered? ==> answer.entry.result.Code?
      modifies this`delegates
      ensures State() == old(State()).(table := Create(before, AskedDelegate(path, answer)))
      ensures code == PathResult(path, answer)
    {
      CreateThenUpdate(before, NewDelegate(path, answer), AskedDelegate(path, answer));
      var last := |delegates| - 1;
      match delegates[last] {
        case Port(_) =>
          code := if path != "/dev/stdin" && path != "/dev/stdout" && path != "/dev/stderr" then ENODEV else 0;
        case Html5(_, _, _) =>
          code := CallDelegate(last, answer, EIO);
      }
    }

    method MkDirDelegate(path: string, answer: Answer, ghost before: Table) returns (code: int)
      requires State().table == Create(before, NewDelegate(path, answer))
      requires answer.Answered? ==> answer.entry.result.Code?
      modifies this`delegates
      ensures State() == old(State()).(table := Create(before, AskedDelegate(path, answer)))
      ensures code == if IsPort(path) then -1 else CodeOf(answer, EIO)
    {
      CreateThenUpdate(before, NewDelegate(path, answer), AskedDelegate(path, answer));
      var last := |delegates| - 1;
      match delegates[last] {
        case Port(_) =>
          code := -1;
        case Html5(_, _, _) =>
          code := CallDelegate(last, answer, EIO);
      }
    }

    method OpenDirDelegate(path: string, answer: Answer, ghost before: Table) returns (found: bool)
      requires State().table == Create(before, NewDelegate(path, answer))
      modifies this`delegates
      ensures State() == old(State()).(table := Create(before, AskedDelegate(path, answer)))
      ensures found == FoundDir(path, answer)
    {
      CreateThenUpdate(before, NewDelegate(path, answer), AskedDelegate(path, answer));
      var last := |delegates| - 1;
      found := false;
      if delegates[last].Html5? && answer.Answered? {
        delegates := delegates[last := Told(delegates[last], answer)];
        found := answer.entry.result == H.DirPtr(true);
      }
    }

    // The calls on a full path that use a temporary delegate

    method StatAt(fullpath: string, answer: Answer) returns (code: int)
      requires inUse == [] && (answer.Answered? ==> answer.entry.result.Code?)
      modifies this
      ensures State() == Asked(old(State()), fullpath, answer) && code == PathResult(fullpath, answer)
    {
      CreateDelegate(fullpath, answer);
      code := StatDelegate(fullpath, answer, old(State()).table);
      DeleteDelegate();
    }

    method MkDirAt(fullpath: string, answer: Answer) returns (code: int)
      requires inUse == [] && AnswersNew(answer, H.MkDir)
      modifies this
      ensures State() == Asked(old(State()), fullpath, answer) && code == MkDirResult(fullpath, answer)
    {
      MkDirReturnsCode(answer);
      CreateDelegate(fullpath, answer);
      code := MkDirDelegate(fullpath, answer, old(State()).table);
      DeleteDelegate();
    }

    method OpenDirAt(fullpath: string, answer: Answer) returns (dir: Option<nat>)
      requires inUse == []
      modifies this
      ensures if FoundDir(fullpath, answer)
              then && dir == Some(|old(dirs)|)
                   && State() == old(State()).(table :=
                        Adopt(Create(old(State()).table, AskedDelegate(fullpath, answer))))
              else dir == None && State() == Asked(old(State()), fullpath, answer)
    {
      CreateDelegate(fullpath, answer);
      var found := OpenDirDelegate(fullpath, answer, old(State()).table);
      if !found {
        DeleteDelegate();
        return None;
      }
      dirs := dirs + [Some(inUse[0])];
      inUse := [];
      dir := Some(|dirs| - 1);
    }

    // The calls

    method Open(path: Option<string>, oflag: H.OFlag, answer: Answer) returns (code: int, newfd: int)
      requires Valid() && Enabled(State(), Op.Open(path, oflag, answer))
      modifies this
      ensures Valid()
      ensures (State(), if code == 0 && newfd >= 0 then Descriptor(newfd) else Status(code))
              == Apply(old(State()), Op.Open(path, oflag, answer))
      ensures newfd == if code == 0 then |old(descriptors)| else -1
    {
      newfd := -1;
      if path == None {
        return EFAULT, newfd;
      }
      var fullpath := CreateFullpath(path.value);
      CreateDelegate(fullpath, answer);
      code := OpenDelegate(fullpath, answer, old(State()).table);
      if code != 0 {
        DeleteDelegate();
        ApplyKeepsSound(old(State()), Op.Open(path, oflag, answer));
        return;
      }
      newfd := BindToDescriptor();
      ApplyKeepsSound(old(State()), Op.Open(path, oflag, answer));
    }

    method Stat(path: string, answer: Answer) returns (code: int)
      requires Valid() && Enabled(State(), Op.Stat(path, answer))
      modifies this
      ensures Valid()
      ensures (State(), Status(code)) == Apply(old(State()), Op.Stat(path, answer))
    {
      var fullpath := CreateFullpath(path);
      StatAsks(State(), path, answer, fullpath);
      code := StatAt(fullpath, answer);
    }

    method Close(fildes: int, answer: Answer) returns (code: int)
      requires Valid() && Enabled(State(), Op.Close(fildes, answer))
      modifies this
      ensures Valid()
      ensures (State(), Status(code)) == Apply(old(State()), Op.Close(fildes, answer))
    {
      if fildes < 0 || |descriptors| <= fildes || descriptors[fildes] == None {
        return EBADF;
      }
      match delegates[descriptors[fildes].value] {
        case Port(device) => code := if device.id < 0 then -1 else 0;
        case Html5(_, _, _) => code := CodeOf(answer, EIO);
      }
      if code != 0 {
        return;
      }
      DeleteDescriptor(fildes);
      ApplyKeepsSound(old(State()), Op.Close(fildes, answer));
    }

    /** One call on the delegate of a live descriptor. */
    method UseDelegate(fildes: int, call: H.Op, answer: Answer, device: int) returns (code: int)
      requires Valid() && Enabled(State(), Use(fildes, call, answer, device)) && GetDelegate(State().table, fildes).Some?
      modifies this
      ensures Valid()
      ensures (State(), Status(code)) == Apply(old(State()), Use(fildes, call, answer, device))
      ensures descriptors == old(descriptors)
    {
      var d := descriptors[fildes].value;
      match delegates[d] {
        case Port(_) => code := device;
        case Html5(_, _, _) => code := CallDelegate(d, answer, if call.Fstat? then EIO else -1);
      }
      ApplyKeepsSound(old(State()), Use(fildes, call, answer, device));
    }

    method Fstat(fildes: int, answer: Answer, device: int) returns (code: int)
      requires Valid() && Enabled(State(), Use(fildes, H.Fstat, answer, device))
      modifies this
      ensures Valid()
      ensures (State(), Status(code)) == Apply(old(State()), Use(fildes, H.Fstat, answer, device))
    {
      if fildes < 0 || |descriptors| <= fildes || descriptors[fildes] == None {
        return EBADF;
      }
      code := UseDelegate(fildes, H.Fstat, answer, device);
    }

    method Write(fildes: int, data: seq<H.byte>, answer: Answer, device: int) returns (result: int)
      requires Valid() && Enabled(State(), Use(fildes, H.Write(data), answer, device))
      modifies this
      ensures Valid()
      ensures (State(), Status(result)) == Apply(old(State()), Use(fildes, H.Write(data), answer, device))
    {
      if fildes < 0 || |descriptors| <= fildes || descriptors[fildes] == None {
        return -1;
      }
      result := UseDelegate(fildes, H.Write(data), answer, device);
    }

    method Seek(fildes: int, offset: int, whence: H.Whence, answer: Answer, device: int) returns (result: int)
      requires Valid() && Enabled(State(), Use(fildes, H.Seek(offset, whence), answer, device))
      modifies this
      ensures Valid()
      ensures (State(), Status(result)) == Apply(old(State()), Use(fildes, H.Seek(offset, whence), answer, device))
    {
      if fildes < 0 || |descriptors| <= fildes || descriptors[fildes] == None {
        return -1;
      }
      result := UseDelegate(fildes, H.Seek(offset, whence), answer, device);
    }

    /** One turn of the read loop. */
    method ReadOnce(fildes: int, nbytes: nat, turns: seq<Turn>, next: nat, ghost start: World) returns (r: int)
      requires Valid() && GetDelegate(State().table, fildes).Some?
      requires IsRun(start, Reads(fildes, nbytes, turns)) && next < |turns|
      requires StillReading(start, State(), fildes, nbytes, turns, next)
      modifies this
      ensures Valid() && descriptors == old(descriptors)
      ensures if r == -2 then StillReading(start, State(), fildes, nbytes, turns, next + 1)
              else ReadEnds(start, State(), fildes, nbytes, turns, next + 1, Some(r))
    {
      ReadTurn(start, State(), fildes, nbytes, turns, next);
      r := UseDelegate(fildes, H.Read(nbytes), turns[next].answer, turns[next].device);
    }

    /** The read loop: `turns` says what each turn meets, and no result means that it still loops after all of them.
        Exactly the turns up to the first that is not answered -2 are made, and that answer is returned. */
    method Read(fildes: int, nbytes: nat, turns: seq<Turn>) returns (result: Option<int>, ghost made: nat)
      requires Valid() && IsRun(State(), Reads(fildes, nbytes, turns))
      modifies this
      ensures Valid()
      ensures GetDelegate(old(State()).table, fildes).None? ==>
                made == 0 && result == Some(-1) && State() == old(State())
      ensures GetDelegate(old(State()).table, fildes).Some? ==>
                ReadEnds(old(State()), State(), fildes, nbytes, turns, made, result)
    {
      made := 0;
      if fildes < 0 || |descriptors| <= fildes || descriptors[fildes] == None {
        return Some(-1), made;
      }
      ghost var start := State();
      StartReading(start, fildes, nbytes, turns);
      var next := 0;
      while next < |turns|
        invariant Valid() && made == next && GetDelegate(State().table, fildes).Some?
        invariant StillReading(start, State(), fildes, nbytes, turns, next)
      {
        var r := ReadOnce(fildes, nbytes, turns, next, start);
        next := next + 1;
        made := next;
        if r != -2 {
          return Some(r), made;
        }
      }
      result := None;
    }

    method MkDir(path: Option<string>, answer: Answer) returns (code: int)
      requires Valid() && Enabled(State(), Op.MkDir(path, answer))
      modifies this
      ensures Valid()
      ensures (State(), Status(code)) == Apply(old(State()), Op.MkDir(path, answer))
    {
      if path == None {
        return -1;
      }
      var fullpath := CreateFullpath(path.value);
      MkDirAsks(State(), path, answer, fullpath);
      code := MkDirAt(fullpath, answer);
    }

    method OpenDir(dirname: Option<string>, answer: Answer) returns (dir: Option<nat>)
      requires Valid() && Enabled(State(), Op.OpenDir(dirname, answer))
      modifies this
      ensures Valid()
      ensures (State(), Stream(dir)) == Apply(old(State()), Op.OpenDir(dirname, answer))
    {
      if dirname == None {
        return None;
      }
      var fullpath := CreateFullpath(dirname.value);
      OpenDirAsks(State(), dirname, answer, fullpath);
      dir := OpenDirAt(fullpath, answer);
    }

    method RewindDir(dir: nat, answer: Answer)
      requires Valid() && Enabled(State(), UseDir(dir, H.RewindDir, answer))
      modifies this
      ensures Valid()
      ensures (State(), Void) == Apply(old(State()), UseDir(dir, H.RewindDir, answer))
    {
      var d := dirs[dir].value;
      delegates := delegates[d := Told(delegates[d], answer)];
      ApplyKeepsSound(old(State()), UseDir(dir, H.RewindDir, answer));
    }

    method ReadDir(dir: nat, answer: Answer) returns (name: Option<string>)
      requires Valid() && Enabled(State(), UseDir(dir, H.ReadDir, answer))
      modifies this
      ensures Valid()
      ensures (State(), Name(name)) == Apply(old(State()), UseDir(dir, H.ReadDir, answer))
    {
      var d := dirs[dir].value;
      delegates := delegates[d := Told(delegates[d], answer)];
      match answer {
        case MainThread => name := None;
        case Answered(entry) => name := entry.result.name;
      }
      ApplyKeepsSound(old(State()), UseDir(dir, H.ReadDir, answer));
    }

    method CloseDir(dir: nat, answer: Answer) returns (code: int)
      requires Valid() && Enabled(State(), Op.CloseDir(dir, answer))
      modifies this
      ensures Valid()
      ensures (State(), Status(code)) == Apply(old(State()), Op.CloseDir(dir, answer))
    {
      match delegates[dirs[dir].value] {
        case Port(_) => code := -1;
        case Html5(_, _, _) => code := CodeOf(answer, EIO);
      }
      if code == 0 {
        deleted := deleted + [dirs[dir].value];
        dirs := dirs[dir := None];
      }
      ApplyKeepsSound(old(State()), Op.CloseDir(dir, answer));
    }

    method ChDir(path: string, answer: Answer) returns (code: int)
      requires Valid() && Enabled(State(), Op.ChDir(path, answer))
      modifies this
      ensures Valid()
      ensures (State(), Status(code)) == Apply(old(State()), Op.ChDir(path, answer))
    {
      ApplyKeepsSound(State(), Op.ChDir(path, answer));
      ChDirAsks(State(), path, answer, FullPath(cwd, path));
      code := Stat(path, answer);
      if code != 0 {
        return;
      }
      var fullpath := CreateFullpath(path);
      code := EnterDirectory(fullpath, answer);
    }

    method EnterDirectory(fullpath: string, answer: Answer) returns (code: int)
      requires |fullpath| > 0 && (!IsPort(fullpath) ==> answer.Answered? && answer.entry.st.Some?)
      modifies this`cwd
      ensures State() == if SawDirectory(fullpath, answer) then old(State()).(cwd := fullpath[1..]) else old(State())
      ensures code == if SawDirectory(fullpath, answer) then 0 else -1
    {
      if "/dev/std" <= fullpath || answer.entry.st.value.kind != H.Directory {
        return -1;
      }
      cwd := fullpath[1..];
      code := 0;
    }

    /** Copies "/" and the working directory, NUL-terminated, if they fit; otherwise leaves the buffer alone. */
    method GetCwd(buf: array?<char>, size: nat) returns (ok: bool)
      requires buf != null ==> size <= buf.Length
      modifies buf
      ensures ok <==> buf != null && |cwd| + 2 <= size
      ensures buf != null ==>
                buf[..] == if ok then "/" + cwd + ['\0'] + old(buf[..])[|cwd| + 2..] else old(buf[..])
    {
      if buf == null || size == 0 {
        return false;
      }
      var cwdSize := |cwd| + 2;
      if size < cwdSize {
        return false;
      }
      buf[0] := '/';
      var i := 0;
      while i < |cwd|
        invariant 0 <= i <= |cwd|
        invariant buf[0] == '/'
        invariant forall k :: 0 <= k < i ==> buf[1 + k] == cwd[k]
        invariant forall k :: i + 1 <= k < buf.Length ==> buf[k] == old(buf[k])
      {
        buf[1 + i] := cwd[i];
        i := i + 1;
      }
      buf[1 + i] := '\0';
      ok := true;
      assert buf[..] == "/" + cwd + ['\0'] + old(buf[..])[cwdSize..];
    }
  }
}
