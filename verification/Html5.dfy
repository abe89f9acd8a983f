/** `Html5FileSystem`: one delegate is a continuation machine.  Each operation is one handler that the main thread
    re-enters: once when the call is posted and once for every completion it asked for.  `Handle` says what one
    re-entry does; the class below performs it on its fields. */
module Html5 {
  import opened Wrappers
  import opened Errno

  type byte = x: int | 0 <= x < 256

  // Completion codes.  Only their being distinct matters, and that the pending code and the errors are not 0.
  const PP_OK: int := 0
  const PP_OK_COMPLETIONPENDING: int := -1
  const PP_ERROR_NOACCESS: int := -7
  const PP_ERROR_NOMEMORY: int := -8
  const PP_ERROR_NOSPACE: int := -9
  const PP_ERROR_NOQUOTA: int := -10
  const PP_ERROR_FILENOTFOUND: int := -20
  const PP_ERROR_FILEEXISTS: int := -21
  const PP_ERROR_FILETOOBIG: int := -22
  const PP_ERROR_NOTAFILE: int := -24

  /** An error number is never 0, not even for a completion code that is. */
  function PPErrorToErrNo(code: int): (errno: int)
    ensures errno > 0
  {
    if code == PP_ERROR_NOACCESS then EACCES
    else if code == PP_ERROR_NOMEMORY then ENOMEM
    else if code == PP_ERROR_NOSPACE || code == PP_ERROR_NOQUOTA then ENOSPC
    else if code == PP_ERROR_FILENOTFOUND then ENOENT
    else if code == PP_ERROR_FILEEXISTS then EEXIST
    else if code == PP_ERROR_FILETOOBIG then EFBIG
    else ENOSYS
  }

  /** Which completion codes each error number stands for. */
  lemma ErrorNumbers(code: int)
    ensures PPErrorToErrNo(code) == EACCES <==> code == PP_ERROR_NOACCESS
    ensures PPErrorToErrNo(code) == ENOMEM <==> code == PP_ERROR_NOMEMORY
    ensures PPErrorToErrNo(code) == ENOSPC <==> code == PP_ERROR_NOSPACE || code == PP_ERROR_NOQUOTA
    ensures PPErrorToErrNo(code) == ENOENT <==> code == PP_ERROR_FILENOTFOUND
    ensures PPErrorToErrNo(code) == EEXIST <==> code == PP_ERROR_FILEEXISTS
    ensures PPErrorToErrNo(code) == EFBIG <==> code == PP_ERROR_FILETOOBIG
    ensures PPErrorToErrNo(code) == ENOSYS
            <==> code !in {PP_ERROR_NOACCESS, PP_ERROR_NOMEMORY, PP_ERROR_NOSPACE, PP_ERROR_NOQUOTA,
                           PP_ERROR_FILENOTFOUND, PP_ERROR_FILEEXISTS, PP_ERROR_FILETOOBIG}
  {
  }

  datatype FileType = Regular | Directory | Other
  datatype FileInfo = FileInfo(size: int, kind: FileType)

  datatype Access = ReadOnly | WriteOnly | ReadWrite | NoAccess
  datatype OFlag = OFlag(access: Access, creat: bool, trunc: bool, excl: bool, append: bool)
  datatype PPFlags = PPFlags(read: bool, write: bool, create: bool, truncate: bool, exclusive: bool)

  /** O_APPEND has no counterpart: the delegate emulates it by its starting offset. */
  function ToPPFlags(o: OFlag): PPFlags {
    PPFlags(o.access.ReadOnly? || o.access.ReadWrite?, o.access.WriteOnly? || o.access.ReadWrite?,
            o.creat, o.trunc, o.excl)
  }

  const NO_FLAGS: PPFlags := PPFlags(false, false, false, false, false)

  datatype Whence = SeekSet | SeekCur | SeekEnd | SeekBad

  /** The operations of a delegate.  Paths are left out: they only select the file or directory. */
  datatype Op =
    | Open(oflag: OFlag)
    | Stat
    | Close
    | Fstat
    | Read(nbytes: nat)
    | Write(data: seq<byte>)
    | Seek(delta: int, whence: Whence)
    | MkDir
    | OpenDir
    | RewindDir
    | ReadDir
    | CloseDir

  /** What a handler asks the browser for, with `callback_` as the completion. */
  datatype Request =
    | MountFs
    | OpenFile(flags: PPFlags)
    | QueryInfo
    | ReadAt(offset: int, nbytes: nat)
    | WriteAt(offset: int, data: seq<byte>)
    | MakeDirectory
    | ListEntries

  datatype Result = Code(code: int) | DirPtr(found: bool) | Dirent(name: Option<string>) | NoResult
  datatype StatBuf = StatBuf(kind: FileType, size: int)

  /** `Html5FileSystemDir`. */
  datatype Dir = Dir(entries: seq<string>, offset: nat, read: bool)

  datatype Delegate = Delegate(waiting: bool, querying: bool, offset: int, info: FileInfo, io: bool, dir: Option<Dir>)

  /** The outcome of one re-entry: the delegate, whether the shared file system object exists, the handler's
      result, the chaining flag, the request the browser accepted, and a filled stat buffer. */
  datatype Turn = Turn(d: Delegate, mounted: bool, result: Result, chaining: bool, request: Option<Request>,
                       st: Option<StatBuf>)

  function Done(d: Delegate, result: Result): Turn {
    Turn(d, true, result, false, None, None)
  }

  /** The browser keeps a request, and later completes it, exactly when it answers "pending". */
  function Accepted(q: Request, issued: int): Option<Request> {
    if issued == PP_OK_COMPLETIONPENDING then Some(q) else None
  }

  function Chain(d: Delegate, q: Request, issued: int): Turn {
    Turn(d, true, Code(0), true, Accepted(q, issued), None)
  }

  function OpenTurn(d: Delegate, mounted: bool, callback: int, oflag: OFlag, issued: int): Turn {
    if !mounted then Chain(d, MountFs, issued)
    else if d.waiting then
      if callback != 0 then Done(d.(waiting := false), Code(PPErrorToErrNo(callback)))
      else Chain(d.(waiting := false, querying := true), QueryInfo, issued)
    else if d.querying then
      if callback != 0 then Done(d.(querying := false), Code(PPErrorToErrNo(callback)))
      else Done(d.(querying := false, offset := if oflag.append then d.info.size else d.offset), Code(0))
    else if issued != PP_OK_COMPLETIONPENDING then Done(d.(io := true), Code(PPErrorToErrNo(callback)))
    else Chain(d.(io := true, waiting := true), OpenFile(ToPPFlags(oflag)), issued)
  }

  function StatTurn(d: Delegate, mounted: bool, callback: int, issued: int): Turn {
    if !mounted then Chain(d, MountFs, issued)
    else if d.waiting then
      if callback == PP_ERROR_NOTAFILE then
        Done(d.(waiting := false), Code(0)).(st := Some(StatBuf(Directory, 0)))
      else if callback != 0 then Done(d.(waiting := false), Code(PPErrorToErrNo(callback)))
      else Chain(d.(waiting := false, querying := true), QueryInfo, issued)
    else if d.querying then
      if callback != 0 then Done(d.(querying := false), Code(PPErrorToErrNo(callback)))
      else Done(d.(querying := false), Code(0)).(st := Some(StatBuf(d.info.kind, d.info.size)))
    else if issued != PP_OK_COMPLETIONPENDING then Done(d.(io := true), Code(PPErrorToErrNo(issued)))
    else Chain(d.(io := true, waiting := true), OpenFile(NO_FLAGS), issued)
  }

  /** A failed query is dropped: the stale size is reported as a success. */
  function FstatTurn(d: Delegate, issued: int): Turn {
    if d.waiting then
      Done(d.(waiting := false), Code(0)).(st := Some(StatBuf(d.info.kind, d.info.size)))
    else if issued != PP_OK_COMPLETIONPENDING then Done(d, Code(PPErrorToErrNo(issued)))
    else Chain(d.(waiting := true), QueryInfo, issued)
  }

  function Moved(offset: int, callback: int): int {
    if callback > 0 then offset + callback else offset
  }

  function ReadTurn(d: Delegate, callback: int, nbytes: nat, issued: int): Turn {
    if d.waiting then Done(d.(waiting := false, offset := Moved(d.offset, callback)), Code(callback))
    else if issued != PP_OK_COMPLETIONPENDING then Done(d, Code(-1))
    else Chain(d.(waiting := true), ReadAt(d.offset, nbytes), issued)
  }

  /** The cached size is raised to the offset whatever the completion said. */
  function WriteTurn(d: Delegate, callback: int, data: seq<byte>, issued: int): Turn {
    if d.waiting then
      var offset := Moved(d.offset, callback);
      var info := if d.info.size < offset then d.info.(size := offset) else d.info;
      Done(d.(waiting := false, offset := offset, info := info), Code(callback))
    else if issued != PP_OK_COMPLETIONPENDING then Done(d, Code(-1))
    else Chain(d.(waiting := true), WriteAt(d.offset, data), issued)
  }

  function SeekTurn(d: Delegate, delta: int, whence: Whence): Turn {
    match whence
    case SeekSet => Done(d.(offset := delta), Code(delta))
    case SeekCur => Done(d.(offset := d.offset + delta), Code(d.offset + delta))
    case SeekEnd => Done(d.(offset := d.info.size + delta), Code(d.info.size + delta))
    case SeekBad => Done(d, Code(-1))
  }

  function MkDirTurn(d: Delegate, mounted: bool, callback: int, issued: int): Turn {
    if !mounted then Chain(d, MountFs, issued)
    else if d.waiting then Done(d.(waiting := false), Code(callback))
    else if issued != PP_OK_COMPLETIONPENDING then Done(d, Code(-1))
    else Chain(d.(waiting := true), MakeDirectory, issued)
  }

  function OpenDirTurn(d: Delegate, mounted: bool, issued: int): Turn {
    if !mounted then Chain(d, MountFs, issued).(result := DirPtr(false))
    else Done(d.(dir := Some(Dir([], 0, false))), DirPtr(true))
  }

  /** A directory entry holds 255 characters and a NUL. */
  function DName(name: string): string {
    if |name| > 255 then name[..255] else name
  }

  function NextName(dir: Dir): Option<string> {
    if dir.offset >= |dir.entries| then None else Some(DName(dir.entries[dir.offset]))
  }

  function Advance(dir: Dir): Dir {
    if dir.offset >= |dir.entries| then dir else dir.(offset := dir.offset + 1)
  }

  function RewindDirTurn(d: Delegate): Turn
    requires d.dir.Some?
  {
    Done(d.(dir := Some(d.dir.value.(offset := 0))), NoResult)
  }

  function ReadDirTurn(d: Delegate, callback: int, issued: int): Turn
    requires d.dir.Some?
  {
    var dir := d.dir.value;
    if d.waiting then
      if callback != 0 then Done(d.(waiting := false), Dirent(None))
      else Done(d.(waiting := false, dir := Some(Advance(dir))), Dirent(NextName(dir)))
    else if dir.read then Done(d.(dir := Some(Advance(dir))), Dirent(NextName(dir)))
    else
      var rewound := dir.(offset := 0);
      if issued == PP_OK then Done(d.(dir := Some(Advance(rewound))), Dirent(NextName(rewound)))
      else if issued == PP_OK_COMPLETIONPENDING then
        Chain(d.(waiting := true, dir := Some(rewound)), ListEntries, issued).(result := Dirent(None))
      else Done(d.(dir := Some(rewound)), Dirent(None))
  }

  /** What the file system guarantees before it makes a call: files are opened before they are used, and DIR
      pointers come from OpenDir. */
  predicate Legal(op: Op, d: Delegate) {
    match op
    case Close | Fstat | Read(_) | Write(_) => d.io
    case RewindDir | ReadDir | CloseDir => d.dir.Some?
    case _ => true
  }

  /** `Delegate::Switch`.  Operations that never look at the shared file system object leave it as it is. */
  function Handle(op: Op, d: Delegate, mounted: bool, callback: int, issued: int): Turn
    requires Legal(op, d)
  {
    match op
    case Open(oflag) => OpenTurn(d, mounted, callback, oflag, issued)
    case Stat => StatTurn(d, mounted, callback, issued)
    case Close => Done(d, Code(0)).(mounted := mounted)
    case Fstat => FstatTurn(d, issued).(mounted := mounted)
    case Read(nbytes) => ReadTurn(d, callback, nbytes, issued).(mounted := mounted)
    case Write(data) => WriteTurn(d, callback, data, issued).(mounted := mounted)
    case Seek(delta, whence) => SeekTurn(d, delta, whence).(mounted := mounted)
    case MkDir => MkDirTurn(d, mounted, callback, issued)
    case OpenDir => OpenDirTurn(d, mounted, issued)
    case RewindDir => RewindDirTurn(d).(mounted := mounted)
    case ReadDir => ReadDirTurn(d, callback, issued).(mounted := mounted)
    case CloseDir => Done(d.(dir := None), Code(0)).(mounted := mounted)
  }

  /** The requests whose immediate answer the code never looks at: mounting, and the queries of Open and Stat. */
  predicate Unchecked(op: Op, d: Delegate, mounted: bool, callback: int) {
    match op
    case Open(_) | Stat => !mounted || (d.waiting && callback == 0)
    case MkDir | OpenDir => !mounted
    case _ => false
  }

  /** The chaining flag says that a completion will come exactly when no unchecked request was refused.  In the
      other case nothing will ever end the caller's wait. */
  lemma ChainingMeansPending(op: Op, d: Delegate, mounted: bool, callback: int, issued: int)
    requires Legal(op, d)
    ensures var t := Handle(op, d, mounted, callback, issued);
            (t.chaining <==> t.request.Some?)
            <==> (Unchecked(op, d, mounted, callback) ==> issued == PP_OK_COMPLETIONPENDING)
  {
  }

  // The same machine in place

  /** The static `filesystem_` pointer, shared by every delegate. */
  class SharedFileSystem {
    var mounted: bool
  }

  class Arguments {
    const op: Op
    var chaining: bool
    var callback: int
    var result: Result
    var st: Option<StatBuf>

    constructor (op: Op)
      ensures this.op == op && st == None
    {
      this.op, chaining, callback, result, st := op, false, 0, NoResult, None;
    }
  }

  class Html5FileSystem {
    const shared: SharedFileSystem
    var fileInfo: FileInfo
    var waiting: bool
    var querying: bool
    var offset: int
    var fileIo: bool
    var dir: Option<Dir>

    ghost function State(): Delegate
      reads this
    {
      Delegate(waiting, querying, offset, fileInfo, fileIo, dir)
    }

    constructor (shared: SharedFileSystem, junk: FileInfo)
      ensures this.shared == shared && State() == Delegate(false, false, 0, junk, false, None)
    {
      this.shared, fileInfo := shared, junk;
      waiting, querying, offset, fileIo, dir := false, false, 0, false, None;
    }

    /** Between handler runs of one call: the objects the operation needs are there, never both flags are set, and a
        flag only where a request of that operation is under way. */
    ghost predicate Valid(op: Op)
      reads this
    {
      && (op.Fstat? || op.Read? || op.Write? ==> fileIo)
      && (op.ReadDir? ==> dir.Some?)
      && !(waiting && querying)
      && (querying ==> fileIo && (op.Open? || op.Stat?))
      && (waiting ==> match op
                      case Open(_) | Stat => fileIo
                      case Fstat | Read(_) | Write(_) | ReadDir | MkDir => true
                      case _ => false)
    }

    /** What a handler leaves behind, as a turn. */
    ghost predicate Is(t: Turn, a: Arguments, result: Result, request: Option<Request>)
      reads this, shared, a
    {
      && State() == t.d && shared.mounted == t.mounted
      && result == t.result && a.chaining == t.chaining && request == t.request
      && (t.st.Some? ==> a.st == t.st)
    }

    /** Creates the file system object and asks the browser to open it; the answer is not looked at. */
    method Initialize(a: Arguments, issued: int) returns (result: int, request: Option<Request>)
      requires !shared.mounted
      modifies shared`mounted, a`chaining
      ensures shared.mounted && a.chaining && result == 0 && request == Accepted(MountFs, issued)
    {
      shared.mounted := true;
      request := Accepted(MountFs, issued);
      a.chaining := true;
      result := 0;
    }

    method OpenCall(a: Arguments, oflag: OFlag, issued: int) returns (result: int, request: Option<Request>)
      requires !a.chaining
      modifies this, shared, a`chaining
      ensures Is(OpenTurn(old(State()), old(shared.mounted), old(a.callback), oflag, issued), a, Code(result), request)
      ensures old(Valid(a.op)) && a.op.Open? ==> Valid(a.op) && (!a.chaining ==> !waiting && !querying)
      ensures request.Some? ==> a.chaining
      ensures offset == if old(querying && !waiting && shared.mounted) && a.callback == 0 && oflag.append
                        then fileInfo.size else old(offset)
      ensures old(shared.mounted) && !a.chaining && result == 0 ==> old(querying) && a.callback == 0
    {
      request := None;
      if !shared.mounted {
        result, request := Initialize(a, issued);
        return;
      }
      if waiting {
        waiting := false;
        if a.callback != 0 {
          return PPErrorToErrNo(a.callback), None;
        }
        querying := true;
        request := Accepted(QueryInfo, issued);
        a.chaining := true;
        return 0, request;
      }
      if querying {
        querying := false;
        if a.callback != 0 {
          return PPErrorToErrNo(a.callback), None;
        }
        if oflag.append {
          offset := fileInfo.size;
        }
        return 0, None;
      }
      fileIo := true;
      var flags := NO_FLAGS;
      match oflag.access {
        case ReadOnly => flags := flags.(read := true);
        case WriteOnly => flags := flags.(write := true);
        case ReadWrite => flags := flags.(read := true, write := true);
        case NoAccess =>
      }
      if oflag.creat { flags := flags.(create := true); }
      if oflag.trunc { flags := flags.(truncate := true); }
      if oflag.excl { flags := flags.(exclusive := true); }
      if issued != PP_OK_COMPLETIONPENDING {
        return PPErrorToErrNo(a.callback), None;
      }
      waiting := true;
      a.chaining := true;
      result, request := 0, Some(OpenFile(flags));
    }

    method StatCall(a: Arguments, issued: int) returns (result: int, request: Option<Request>)
      requires !a.chaining
      modifies this, shared, a`chaining, a`callback, a`st
      ensures Is(StatTurn(old(State()), old(shared.mounted), old(a.callback), issued), a, Code(result), request)
      ensures a.st == old(a.st) || StatTurn(old(State()), old(shared.mounted), old(a.callback), issued).st.Some?
      ensures old(Valid(a.op)) && a.op.Stat? ==> Valid(a.op) && (!a.chaining ==> !waiting && !querying)
      ensures request.Some? ==> a.chaining
      ensures offset == old(offset) && fileInfo == old(fileInfo)
      ensures old(shared.mounted) && !a.chaining && result == 0 ==>
                (old(querying) && old(a.callback) == 0) || (old(waiting) && old(a.callback) == PP_ERROR_NOTAFILE)
    {
      request := None;
      if !shared.mounted {
        result, request := Initialize(a, issued);
        return;
      }
      if waiting {
        waiting := false;
        if a.callback == PP_ERROR_NOTAFILE {
          a.callback := PP_OK;
          a.st := Some(StatBuf(Directory, 0));
          return 0, None;
        } else if a.callback != 0 {
          return PPErrorToErrNo(a.callback), None;
        }
        querying := true;
        a.chaining := true;
        return 0, Accepted(QueryInfo, issued);
      }
      if querying {
        querying := false;
        if a.callback != 0 {
          return PPErrorToErrNo(a.callback), None;
        }
        a.st := Some(StatBuf(fileInfo.kind, fileInfo.size));
        return 0, None;
      }
      fileIo := true;
      if issued != PP_OK_COMPLETIONPENDING {
        return PPErrorToErrNo(issued), None;
      }
      waiting := true;
      a.chaining := true;
      result, request := 0, Some(OpenFile(NO_FLAGS));
    }

    method FstatCall(a: Arguments, issued: int) returns (result: int, request: Option<Request>)
      requires !a.chaining
      modifies this, a`chaining, a`st
      ensures Is(FstatTurn(old(State()), issued).(mounted := shared.mounted), a, Code(result), request)
      ensures a.st == old(a.st) || FstatTurn(old(State()), issued).st.Some?
      ensures old(Valid(a.op)) && a.op.Fstat? ==> Valid(a.op) && (!a.chaining ==> !waiting && !querying)
      ensures request.Some? ==> a.chaining
      ensures offset == old(offset) && fileInfo == old(fileInfo)
      ensures !a.chaining && old(waiting) ==> result == 0 && a.st == Some(StatBuf(fileInfo.kind, fileInfo.size))
    {
      if waiting {
        waiting := false;
        a.st := Some(StatBuf(fileInfo.kind, fileInfo.size));
        return 0, None;
      }
      if issued != PP_OK_COMPLETIONPENDING {
        return PPErrorToErrNo(issued), None;
      }
      waiting := true;
      a.chaining := true;
      result, request := 0, Some(QueryInfo);
    }

    method ReadCall(a: Arguments, nbytes: nat, issued: int) returns (result: int, request: Option<Request>)
      requires !a.chaining
      modifies this, a`chaining
      ensures Is(ReadTurn(old(State()), a.callback, nbytes, issued).(mounted := shared.mounted), a, Code(result), request)
      ensures old(Valid(a.op)) && a.op.Read? ==> Valid(a.op) && (!a.chaining ==> !waiting && !querying)
      ensures request.Some? ==> a.chaining
      ensures old(waiting) ==> result == a.callback && offset - old(offset) == (if result > 0 then result else 0)
      ensures !old(waiting) ==> offset == old(offset) && (request.Some? ==> request == Some(ReadAt(old(offset), nbytes)))
    {
      if waiting {
        waiting := false;
        if a.callback > 0 {
          offset := offset + a.callback;
        }
        return a.callback, None;
      }
      if issued != PP_OK_COMPLETIONPENDING {
        return -1, None;
      }
      request := Some(ReadAt(offset, nbytes));
      waiting := true;
      a.chaining := true;
      result := 0;
    }

    method WriteCall(a: Arguments, data: seq<byte>, issued: int) returns (result: int, request: Option<Request>)
      requires !a.chaining
      modifies this, a`chaining
      ensures Is(WriteTurn(old(State()), a.callback, data, issued).(mounted := shared.mounted), a, Code(result), request)
      ensures old(Valid(a.op)) && a.op.Write? ==> Valid(a.op) && (!a.chaining ==> !waiting && !querying)
      ensures request.Some? ==> a.chaining
      ensures old(waiting) ==> result == a.callback && offset - old(offset) == (if result > 0 then result else 0)
      ensures old(waiting) ==> fileInfo.size >= offset && fileInfo.size >= old(fileInfo.size)
                               && (fileInfo.size == offset || fileInfo.size == old(fileInfo.size))
      ensures !old(waiting) ==> offset == old(offset) && fileInfo == old(fileInfo)
                                && (request.Some? ==> request == Some(WriteAt(old(offset), data)))
    {
      if waiting {
        waiting := false;
        if a.callback > 0 {
          offset := offset + a.callback;
        }
        if fileInfo.size < offset {
          fileInfo := fileInfo.(size := offset);
        }
        return a.callback, None;
      }
      if issued != PP_OK_COMPLETIONPENDING {
        return -1, None;
      }
      request := Some(WriteAt(offset, data));
      waiting := true;
      a.chaining := true;
      result := 0;
    }

    method SeekCall(a: Arguments, delta: int, whence: Whence) returns (result: int)
      requires !a.chaining
      modifies this
      ensures Is(SeekTurn(old(State()), delta, whence).(mounted := shared.mounted), a, Code(result), None)
      ensures old(Valid(a.op)) ==> Valid(a.op)
      ensures fileInfo == old(fileInfo) && (result == offset || (whence == SeekBad && offset == old(offset)))
    {
      match whence {
        case SeekSet => offset := delta;
        case SeekCur => offset := offset + delta;
        case SeekEnd => offset := fileInfo.size + delta;
        case SeekBad => return -1;
      }
      result := offset;
    }

    method MkDirCall(a: Arguments, issued: int) returns (result: int, request: Option<Request>)
      requires !a.chaining
      modifies this, shared, a`chaining
      ensures Is(MkDirTurn(old(State()), old(shared.mounted), a.callback, issued), a, Code(result), request)
      ensures old(Valid(a.op)) && a.op.MkDir? ==> Valid(a.op) && (!a.chaining ==> !waiting && !querying)
      ensures request.Some? ==> a.chaining
      ensures old(shared.mounted && waiting) ==> result == a.callback && !a.chaining
    {
      if !shared.mounted {
        result, request := Initialize(a, issued);
        return;
      }
      if waiting {
        waiting := false;
        return a.callback, None;
      }
      if issued != PP_OK_COMPLETIONPENDING {
        return -1, None;
      }
      waiting := true;
      a.chaining := true;
      result, request := 0, Some(MakeDirectory);
    }

    method OpenDirCall(a: Arguments, issued: int) returns (found: bool, request: Option<Request>)
      requires !a.chaining
      modifies this, shared, a`chaining
      ensures Is(OpenDirTurn(old(State()), old(shared.mounted), issued), a, DirPtr(found), request)
      ensures old(Valid(a.op)) ==> Valid(a.op)
      ensures found <==> old(shared.mounted)
      ensures found ==> dir == Some(Dir([], 0, false)) && !a.chaining
      ensures request.Some? ==> a.chaining
    {
      if !shared.mounted {
        var ignored;
        ignored, request := Initialize(a, issued);
        return false, request;
      }
      dir := Some(Dir([], 0, false));
      found, request := true, None;
    }

    method ReadDirNext() returns (name: Option<string>)
      requires dir.Some?
      modifies this`dir
      ensures name == NextName(old(dir.value)) && dir == Some(Advance(old(dir.value)))
      ensures dir.value.entries == old(dir.value.entries) && dir.value.read == old(dir.value.read)
      ensures name == None <==> old(dir.value.offset) >= |dir.value.entries|
      ensures name.Some? ==> |name.value| <= 255 && name.value <= dir.value.entries[old(dir.value.offset)]
                             && dir.value.offset == old(dir.value.offset) + 1
    {
      var cursor := dir.value;
      if cursor.offset >= |cursor.entries| {
        return None;
      }
      var entry := cursor.entries[cursor.offset];
      name := Some(if |entry| > 255 then entry[..255] else entry);
      dir := Some(cursor.(offset := cursor.offset + 1));
    }

    method ReadDirCall(a: Arguments, issued: int) returns (name: Option<string>, request: Option<Request>)
      requires !a.chaining && dir.Some?
      modifies this, a`chaining
      ensures Is(ReadDirTurn(old(State()), a.callback, issued).(mounted := shared.mounted), a, Dirent(name), request)
      ensures old(Valid(a.op)) && a.op.ReadDir? ==> Valid(a.op) && (!a.chaining ==> !waiting && !querying)
      ensures request.Some? ==> a.chaining
      ensures dir.Some? && dir.value.entries == old(dir.value.entries) && dir.value.read == old(dir.value.read)
      ensures name.Some? && old(!waiting) ==> old(dir.value.read) || issued == PP_OK
    {
      request := None;
      if waiting {
        waiting := false;
        if a.callback != 0 {
          return None, None;
        }
        name := ReadDirNext();
        return;
      }
      if dir.value.read {
        name := ReadDirNext();
        return;
      }
      dir := Some(dir.value.(offset := 0));
      if issued == PP_OK {
        name := ReadDirNext();
        return;
      }
      if issued == PP_OK_COMPLETIONPENDING {
        waiting := true;
        a.chaining := true;
        return None, Some(ListEntries);
      }
      name := None;
    }

    /** `Delegate::Proxy` up to the signal: records the completion code and re-enters the handler. */
    method Proxy(a: Arguments, callback: int, issued: int) returns (request: Option<Request>)
      requires Legal(a.op, State())
      modifies this, shared, a
      ensures Is(Handle(a.op, old(State()), old(shared.mounted), callback, issued), a, a.result, request)
      ensures Handle(a.op, old(State()), old(shared.mounted), callback, issued).st == None ==> a.st == old(a.st)
      ensures old(Valid(a.op)) ==> Valid(a.op) && (!a.chaining ==> !waiting && !querying)
      ensures request.Some? ==> a.chaining
    {
      a.callback := callback;
      a.chaining := false;
      request := None;
      match a.op {
        case Open(oflag) => { var r; r, request := OpenCall(a, oflag, issued); a.result := Code(r); }
        case Stat => { var r; r, request := StatCall(a, issued); a.result := Code(r); }
        case Close => a.result := Code(0);
        case Fstat => { var r; r, request := FstatCall(a, issued); a.result := Code(r); }
        case Read(nbytes) => { var r; r, request := ReadCall(a, nbytes, issued); a.result := Code(r); }
        case Write(data) => { var r; r, request := WriteCall(a, data, issued); a.result := Code(r); }
        case Seek(delta, whence) => { var r := SeekCall(a, delta, whence); a.result := Code(r); }
        case MkDir => { var r; r, request := MkDirCall(a, issued); a.result := Code(r); }
        case OpenDir => { var r; r, request := OpenDirCall(a, issued); a.result := DirPtr(r); }
        case RewindDir => { dir := Some(dir.value.(offset := 0)); a.result := NoResult; }
        case ReadDir => { var r; r, request := ReadDirCall(a, issued); a.result := Dirent(r); }
        case CloseDir => { dir := None; a.result := Code(0); }
      }
    }
  }
}
