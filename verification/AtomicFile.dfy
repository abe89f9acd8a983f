/** One delegate as its caller sees it: every operation is one indivisible step on the file's contents, the
    position, the cached FileInfo and the directory cursor.  `Atomic` is that specification; the rest of the
    module proves what it implies for whole runs. */
module AtomicFile {
  import opened Wrappers
  import opened Html5

  /** The file as far as the delegate can see it: its contents (none if it is absent), the position, the cached
      FileInfo, whether there is a FileIO, the directory, and how the file stands with the browser. */
  datatype View = View(contents: seq<byte>, offset: int, info: FileInfo, io: bool, dir: Option<Dir>,
                       standing: Standing)

  /** Whether the file is there, and what the FileIO was opened for. */
  datatype Standing = Standing(present: bool, readable: bool, writable: bool)

  /** A returned call: the view before and after, the operation, the completion codes in order, the browser's answer
      at once to the last request, the names a listing delivered, what the caller got, whether the shared file system
      object existed at the start, and how often the main thread entered the handler. */
  datatype Entry = Entry(pre: View, op: Op, codes: seq<int>, issued: int, listed: seq<string>, result: Result,
                         buf: seq<byte>, st: Option<StatBuf>, post: View, mounted: bool, hops: nat)
  {
    /** The code the last handler run saw; 0 if it was the first. */
    function Callback(): int {
      if codes == [] then 0 else codes[|codes| - 1]
    }

    /** How many of the codes belong to mounting the file system. */
    function Mounts(): nat {
      if mounted then 0 else 1
    }

    /** The completion codes of the operation's own requests. */
    function Own(): seq<int> {
      if |codes| <= Mounts() then [] else codes[Mounts()..]
    }
  }

  function Max(a: int, b: int): int { if a < b then b else a }

  /** Writing `data` at `at`; a gap past the end is filled with zeros. */
  function Overlay(contents: seq<byte>, at: nat, data: seq<byte>): (r: seq<byte>)
    ensures |data| > 0 ==> |r| == Max(|contents|, at + |data|)
  {
    if data == [] then contents
    else if at > |contents| then contents + seq(at - |contents|, _ => 0) + data
    else contents[..at] + data + (if at + |data| < |contents| then contents[at + |data|..] else [])
  }

  /** A file can be opened if it is there or to be created, and not if it is there and to be created exclusively. */
  predicate MayOpen(creat: bool, excl: bool, present: bool) {
    (present || creat) && !(present && creat && excl)
  }

  predicate ForReading(oflag: OFlag) {
    oflag.access.ReadOnly? || oflag.access.ReadWrite?
  }

  predicate ForWriting(oflag: OFlag) {
    oflag.access.WriteOnly? || oflag.access.ReadWrite?
  }

  /** The view once `FileIO::Open` has completed with 0, for open and for stat. */
  function FileOpened(oflag: OFlag, v: View): View {
    v.(io := true, contents := Truncated(oflag, v.contents),
       standing := Standing(true, ForReading(oflag), ForWriting(oflag)))
  }

  function FileStatted(v: View): View {
    v.(io := true, standing := Standing(true, false, false))
  }

  function Truncated(oflag: OFlag, contents: seq<byte>): seq<byte> {
    if oflag.trunc then [] else contents
  }

  /** The specification of one call: what it returns and leaves behind is settled by the view before, the operation
      and the browser's answers. */
  predicate Atomic(e: Entry) {
    match e.op
    case Open(oflag) => AtomicOpen(e, oflag)
    case Stat => AtomicStat(e)
    case Close => e.codes == [] && e.post == e.pre && e.result == Code(0)
    case Fstat => AtomicFstat(e)
    case Read(nbytes) => AtomicRead(e, nbytes)
    case Write(data) => AtomicWrite(e, data)
    case Seek(delta, whence) =>
      && e.codes == []
      && if whence.SeekBad? then e.post == e.pre && e.result == Code(-1)
         else
           var target := delta + (match whence case SeekSet => 0 case SeekCur => e.pre.offset case _ => e.pre.info.size);
           e.post == e.pre.(offset := target) && e.result == Code(target)
    case MkDir =>
      && |e.codes| <= e.Mounts() + 1
      && e.post == e.pre && e.result == Code(if e.Own() == [] then -1 else e.Callback())
    case OpenDir =>
      && e.Own() == []
      && e.post == e.pre.(dir := Some(Dir([], 0, false))) && e.result == DirPtr(true)
    case RewindDir =>
      && e.codes == [] && e.pre.dir.Some?
      && e.post == e.pre.(dir := Some(e.pre.dir.value.(offset := 0))) && e.result == NoResult
    case ReadDir => AtomicReadDir(e)
    case CloseDir => e.codes == [] && e.post == e.pre.(dir := None) && e.result == Code(0)
  }

  /** The requests of open and stat: mount if need be, FileIO::Open, and FileIO::Query if that succeeded. */
  predicate OpenThenQuery(e: Entry) {
    && e.Mounts() <= |e.codes| <= e.Mounts() + 2
    && (|e.Own()| == 1 ==> e.Own()[0] != 0)
    && (|e.Own()| == 2 ==> e.Own()[0] == 0)
  }

  /** Both `FileIO::Open` and `FileIO::Query` completed, with 0. */
  predicate OpenedAndQueried(e: Entry) {
    e.Own() == [0, 0]
  }

  /** Open succeeds exactly if both its requests did, and then there is a FileIO, a filled FileInfo and the starting
      position; it fails with the number of the last completion code.  The file is truncated once FileIO::Open has
      completed, even if the query then fails. */
  predicate AtomicOpen(e: Entry, oflag: OFlag) {
    var reached := if |e.Own()| == 2 then FileOpened(oflag, e.pre) else e.pre.(io := true);
    && OpenThenQuery(e)
    && (|e.Own()| == 2 ==> MayOpen(oflag.creat, oflag.excl, e.pre.standing.present))
    && e.result == Code(if OpenedAndQueried(e) then 0 else PPErrorToErrNo(e.Callback()))
    && if OpenedAndQueried(e)
       then && e.post == reached.(info := e.post.info,
                                 offset := if oflag.append then |reached.contents| else reached.offset)
            && e.post.info.size == |reached.contents|
       else e.post == reached
  }

  /** Stat reports the file if both requests succeeded and a directory if FileIO::Open found no file. */
  predicate AtomicStat(e: Entry) {
    var reached := if |e.Own()| == 2 then FileStatted(e.pre) else e.pre.(io := true);
    && OpenThenQuery(e)
    && (|e.Own()| == 2 ==> e.pre.standing.present)
    && if OpenedAndQueried(e)
       then && e.result == Code(0) && e.st == Some(StatBuf(e.post.info.kind, |e.pre.contents|))
            && e.post == reached.(info := e.post.info) && e.post.info.size == |e.pre.contents|
       else && e.post == reached
            && if e.Own() == [PP_ERROR_NOTAFILE] then e.result == Code(0) && e.st == Some(StatBuf(Directory, 0))
               else && e.result == Code(PPErrorToErrNo(if e.Own() == [] then e.issued else e.Callback()))
                    && e.st == None
  }

  /** Fstat succeeds whenever its query was accepted; only a query that succeeded refreshes what it reports. */
  predicate AtomicFstat(e: Entry) {
    && |e.codes| <= 1
    && e.result == Code(if e.codes == [] then PPErrorToErrNo(e.issued) else 0)
    && e.st == (if e.codes == [] then None else Some(StatBuf(e.post.info.kind, e.post.info.size)))
    && if e.codes == [0] then e.post == e.pre.(info := e.post.info) && e.post.info.size == |e.pre.contents|
       else e.post == e.pre
  }

  /** Read returns the completion's count, -1 if it was refused; the bytes at the position, which moves past them; 0
      only at the end or for an empty request. */
  predicate AtomicRead(e: Entry, nbytes: nat) {
    && |e.codes| <= 1
    && e.result == Code(if e.codes == [] then -1 else e.codes[0])
    && (e.result.code >= 0 ==> e.pre.standing.readable)
    && var r := e.result.code;
       if r > 0
       then && 0 <= e.pre.offset && r <= nbytes && e.pre.offset + r <= |e.pre.contents|
            && e.buf == e.pre.contents[e.pre.offset..e.pre.offset + r]
            && e.post == e.pre.(offset := e.pre.offset + r)
       else && e.post == e.pre && e.buf == []
            && (r == 0 && nbytes > 0 ==> e.pre.offset >= |e.pre.contents|)
  }

  /** The browser refused the request at once. */
  predicate Refused(e: Entry) {
    e.codes == []
  }

  /** Write returns the completion's count, -1 if it was refused, and stores that much at the position; unless it was
      refused the cached size is raised to the position, even when nothing was stored. */
  predicate AtomicWrite(e: Entry, data: seq<byte>) {
    && |e.codes| <= 1
    && e.result == Code(if e.codes == [] then -1 else e.codes[0])
    && (e.result.code >= 0 ==> e.pre.standing.writable)
    && var r := e.result.code;
       if Refused(e) then e.post == e.pre
       else if r > 0
       then && 0 <= e.pre.offset && r <= |data|
            && e.post == e.pre.(contents := Overlay(e.pre.contents, e.pre.offset, data[..r]),
                                offset := e.pre.offset + r,
                                info := e.pre.info.(size := Max(e.pre.info.size, e.pre.offset + r)))
       else e.post == e.pre.(info := e.pre.info.(size := Max(e.pre.info.size, e.pre.offset)))
  }

  /** Readdir asks the browser only while nothing is loaded; a listing that succeeds is the list from then on. */
  predicate AtomicReadDir(e: Entry) {
    && |e.codes| <= 1
    && e.pre.dir.Some? && e.post.dir.Some?
    && e.post == e.pre.(dir := e.post.dir)
    && var before, after := e.pre.dir.value, e.post.dir.value;
       if before.read then e.codes == [] && after == Advance(before) && e.result == Dirent(NextName(before))
       else if e.codes == [0]
       then var loaded := Dir(e.listed, 0, true);
            after == Advance(loaded) && e.result == Dirent(NextName(loaded))
       else after == Dir([], 0, false) && e.result == Dirent(None)
  }

  /** A run of calls, one after the other. */
  ghost predicate RunFrom(start: View, es: seq<Entry>)
    decreases |es|
  {
    es == [] || (es[0].pre == start && Atomic(es[0]) && RunFrom(es[0].post, es[1..]))
  }

  function End(start: View, es: seq<Entry>): View
    decreases |es|
  {
    if es == [] then start else End(es[0].post, es[1..])
  }

  lemma {:induction false} RunThenCall(start: View, es: seq<Entry>, e: Entry)
    requires RunFrom(start, es) && Atomic(e) && e.pre == End(start, es)
    ensures RunFrom(start, es + [e]) && End(start, es + [e]) == e.post
    decreases |es|
  {
    if es == [] {
      assert es + [e] == [e];
      assert RunFrom(e.post, []) && End(e.post, []) == e.post;
    } else {
      RunThenCall(es[0].post, es[1..], e);
      assert (es + [e])[1..] == es[1..] + [e];
    }
  }

  /** Each call of a run is atomic and starts where the calls before it ended. */
  lemma {:induction false} RunAt(start: View, es: seq<Entry>, k: nat)
    requires RunFrom(start, es) && k < |es|
    ensures Atomic(es[k]) && es[k].pre == End(start, es[..k]) && es[k].post == End(start, es[..k + 1])
    decreases k
  {
    if k == 0 {
      assert End(start, es[..1]) == End(es[0].post, es[..1][1..]);
    } else {
      RunAt(es[0].post, es[1..], k - 1);
      assert es[..k][1..] == es[1..][..k - 1] && es[..k + 1][1..] == es[1..][..k];
    }
  }

  /** Once a FileIO is there it stays, and with it every later call on the descriptor is legal. */
  lemma {:induction false} FileIoStays(start: View, es: seq<Entry>)
    requires RunFrom(start, es) && start.io
    ensures End(start, es).io
    decreases |es|
  {
    if es == [] {
    } else {
      FileIoStays(es[0].post, es[1..]);
    }
  }

  // What a file was opened for

  predicate NoOpens(es: seq<Entry>) {
    forall i :: 0 <= i < |es| ==> !es[i].op.Open?
  }

  /** An open that succeeds found a file or was to create one, was not to create one that is there exclusively, and
      leaves a file that is there, opened for what the access mode says. */
  lemma OpenGrants(open: Entry)
    requires Atomic(open) && open.op.Open? && open.result == Code(0)
    ensures var oflag, before := open.op.oflag, open.pre.standing.present;
            && (before || oflag.creat) && !(before && oflag.creat && oflag.excl)
            && open.post.standing.present
            && (open.post.standing.readable <==> oflag.access == ReadOnly || oflag.access == ReadWrite)
            && (open.post.standing.writable <==> oflag.access == WriteOnly || oflag.access == ReadWrite)
            && open.post.contents == if oflag.trunc then [] else open.pre.contents
  {
  }

  lemma {:induction false} UnwritableRun(start: View, es: seq<Entry>)
    requires RunFrom(start, es) && NoOpens(es) && !start.standing.writable
    ensures End(start, es).contents == start.contents && !End(start, es).standing.writable
    ensures forall i :: 0 <= i < |es| ==> es[i].pre.contents == start.contents == es[i].post.contents
    ensures forall i :: 0 <= i < |es| ==> es[i].op.Write? ==> es[i].result.Code? && es[i].result.code < 0
    decreases |es|
  {
    if es == [] {
    } else {
      var rest := es[1..];
      assert forall i :: 1 <= i < |es| ==> es[i] == rest[i - 1];
      UnwritableRun(es[0].post, rest);
    }
  }

  lemma {:induction false} UnreadableRun(start: View, es: seq<Entry>)
    requires RunFrom(start, es) && NoOpens(es) && !start.standing.readable
    ensures forall i :: 0 <= i < |es| ==> es[i].op.Read? ==>
              es[i].result.Code? && es[i].result.code < 0 && es[i].buf == []
    decreases |es|
  {
    if es == [] {
    } else {
      var rest := es[1..];
      assert forall i :: 1 <= i < |es| ==> es[i] == rest[i - 1];
      UnreadableRun(es[0].post, rest);
    }
  }

  /** After an open that was not for writing no write succeeds and the contents never change. */
  lemma ReadOnlyNeverChanges(open: Entry, es: seq<Entry>)
    requires Atomic(open) && open.op.Open? && open.result == Code(0)
    requires open.op.oflag.access == ReadOnly || open.op.oflag.access == NoAccess
    requires RunFrom(open.post, es) && NoOpens(es)
    ensures End(open.post, es).contents == open.post.contents
    ensures forall i :: 0 <= i < |es| ==> es[i].post.contents == open.post.contents
    ensures forall i :: 0 <= i < |es| ==> es[i].op.Write? ==> es[i].result.Code? && es[i].result.code < 0
  {
    OpenGrants(open);
    UnwritableRun(open.post, es);
  }

  /** After an open that was not for reading no read succeeds or returns bytes. */
  lemma WriteOnlyNeverReads(open: Entry, es: seq<Entry>)
    requires Atomic(open) && open.op.Open? && open.result == Code(0)
    requires open.op.oflag.access == WriteOnly || open.op.oflag.access == NoAccess
    requires RunFrom(open.post, es) && NoOpens(es)
    ensures forall i :: 0 <= i < |es| ==> es[i].op.Read? ==>
              es[i].result.Code? && es[i].result.code < 0 && es[i].buf == []
  {
    OpenGrants(open);
    UnreadableRun(open.post, es);
  }

  // The cached size

  /** Whether the cached size is the real size, judged from the calls alone: only a write that stored nothing while
      the position was past the cached size loses it, and only a write that reaches the cached size or a query that
      succeeds recovers it. */
  function Tracks(exact: bool, e: Entry): bool {
    match e.op
    case Write(data) =>
      if Refused(e) then exact
      else if e.codes[0] > 0 then exact || e.pre.offset + e.codes[0] >= e.pre.info.size
      else exact && e.pre.offset <= e.pre.info.size
    case Fstat => exact || e.codes == [0]
    case Stat => exact || OpenedAndQueried(e)
    case _ => exact
  }

  function TracksAll(exact: bool, es: seq<Entry>): bool
    decreases |es|
  {
    if es == [] then exact else TracksAll(Tracks(exact, es[0]), es[1..])
  }

  predicate SizeKnown(v: View, exact: bool) {
    && |v.contents| <= v.info.size
    && (v.info.size == |v.contents| <==> exact)
  }

  lemma StepTracks(e: Entry, exact: bool)
    requires Atomic(e) && !e.op.Open? && SizeKnown(e.pre, exact)
    ensures SizeKnown(e.post, Tracks(exact, e))
  {
  }

  /** In every run on an exclusively owned file after a successful Open, the cached size is at least the real size,
      and equals it exactly when `Tracks` says so. */
  lemma CachedSizeTracks(open: Entry, es: seq<Entry>)
    requires Atomic(open) && open.op.Open? && open.result == Code(0)
    requires RunFrom(open.post, es)
    requires forall i :: 0 <= i < |es| ==> !es[i].op.Open?
    ensures SizeKnown(End(open.post, es), TracksAll(true, es))
  {
    SizeRun(open.post, true, es);
  }

  lemma {:induction false} SizeRun(start: View, exact: bool, es: seq<Entry>)
    requires SizeKnown(start, exact) && RunFrom(start, es)
    requires forall i :: 0 <= i < |es| ==> !es[i].op.Open?
    ensures SizeKnown(End(start, es), TracksAll(exact, es))
    decreases |es|
  {
    if es == [] {
    } else {
      StepTracks(es[0], exact);
      SizeRun(es[0].post, Tracks(exact, es[0]), es[1..]);
    }
  }

  /** lseek(0, SEEK_END) reports the real size exactly when the cached size is known to be exact. */
  lemma SeekEndIsExact(open: Entry, es: seq<Entry>, seek: Entry)
    requires Atomic(open) && open.op.Open? && open.result == Code(0)
    requires RunFrom(open.post, es)
    requires forall i :: 0 <= i < |es| ==> !es[i].op.Open?
    requires Atomic(seek) && seek.op == Seek(0, SeekEnd) && seek.pre == End(open.post, es)
    ensures seek.result == Code(|seek.pre.contents|) <==> TracksAll(true, es)
  {
    CachedSizeTracks(open, es);
  }

  /** A successful fstat reports the real size exactly if its query succeeded or the size was exact before. */
  lemma FstatIsExact(open: Entry, es: seq<Entry>, e: Entry)
    requires Atomic(open) && open.op.Open? && open.result == Code(0)
    requires RunFrom(open.post, es)
    requires forall i :: 0 <= i < |es| ==> !es[i].op.Open?
    requires Atomic(e) && e.op.Fstat? && e.result == Code(0) && e.pre == End(open.post, es)
    ensures e.st.Some?
    ensures e.st.value.size == |e.pre.contents| <==> e.codes == [0] || TracksAll(true, es)
  {
    CachedSizeTracks(open, es);
  }

  // Writing anywhere and reading back

  /** Each byte of a file after a write: what was written where it was written, what was there elsewhere, and zero in a
      gap. */
  lemma OverlayBytes(contents: seq<byte>, at: nat, data: seq<byte>, k: nat)
    requires data != [] && k < |Overlay(contents, at, data)|
    ensures Overlay(contents, at, data)[k]
            == if at <= k < at + |data| then data[k - at] else if k < |contents| then contents[k] else 0
  {
  }

  /** A write that stored something changes exactly the bytes from the position on, as many as it returned. */
  lemma WriteChangesOnly(e: Entry, k: nat)
    requires Atomic(e) && e.op.Write? && e.result.Code? && e.result.code > 0 && k < |e.post.contents|
    ensures 0 <= e.pre.offset && e.result.code <= |e.op.data|
    ensures |e.post.contents| == Max(|e.pre.contents|, e.pre.offset + e.result.code)
    ensures e.post.contents[k]
            == if e.pre.offset <= k < e.pre.offset + e.result.code then e.op.data[k - e.pre.offset]
               else if k < |e.pre.contents| then e.pre.contents[k] else 0
  {
    OverlayBytes(e.pre.contents, e.pre.offset, e.op.data[..e.result.code], k);
  }

  /** Writing anywhere, inside the file or past its end, seeking back and reading returns what the write stored. */
  lemma WriteThenReadBack(write: Entry, seek: Entry, read: Entry)
    requires Atomic(write) && write.op.Write? && write.result.Code? && write.result.code > 0
    requires Atomic(seek) && seek.pre == write.post && seek.op == Seek(write.pre.offset, SeekSet)
    requires Atomic(read) && read.pre == seek.post && read.op.Read? && read.op.nbytes <= write.result.code
    requires read.result.Code? && read.result.code >= 0
    ensures 0 <= read.result.code <= write.result.code <= |write.op.data|
    ensures read.buf == write.op.data[..read.result.code]
    ensures read.op.nbytes > 0 ==> read.result.code > 0
  {
    var at, n := write.pre.offset, read.result.code;
    forall k | 0 <= k < n ensures read.buf[k] == write.op.data[k] {
      OverlayBytes(write.pre.contents, at, write.op.data[..write.result.code], at + k);
    }
  }

  // Append and read back

  function StoredBy(e: Entry): seq<byte> {
    match (e.op, e.result)
    case (Write(data), Code(r)) => if 0 < r <= |data| then data[..r] else []
    case _ => []
  }

  /** What the writes of a run stored, in order. */
  function Stored(es: seq<Entry>): seq<byte> {
    if es == [] then [] else StoredBy(es[0]) + Stored(es[1..])
  }

  /** What the reads of a run returned, in order. */
  function Fetched(es: seq<Entry>): seq<byte> {
    if es == [] then [] else es[0].buf + Fetched(es[1..])
  }

  lemma OneAppend(e: Entry)
    requires Atomic(e) && e.op.Write? && e.pre.offset == |e.pre.contents|
    ensures e.post.contents == e.pre.contents + StoredBy(e) && e.post.offset == |e.post.contents|
  {
  }

  lemma {:induction false} AppendingWrites(start: View, es: seq<Entry>)
    requires RunFrom(start, es) && start.offset == |start.contents|
    requires forall i :: 0 <= i < |es| ==> es[i].op.Write?
    ensures End(start, es).contents == start.contents + Stored(es)
    ensures End(start, es).offset == |End(start, es).contents|
    decreases |es|
  {
    if es == [] {
      assert start.contents + [] == start.contents;
    } else {
      var e, rest := es[0], Stored(es[1..]);
      OneAppend(e);
      AppendingWrites(e.post, es[1..]);
      assert start.contents + StoredBy(e) + rest == start.contents + (StoredBy(e) + rest);
    }
  }

  /** The bytes of one read, and those still to come. */
  lemma OneRead(e: Entry)
    requires Atomic(e) && e.op.Read? && 0 <= e.pre.offset <= |e.pre.contents| && e.result.Code? && e.result.code >= 0
    ensures e.post.contents == e.pre.contents && 0 <= e.post.offset <= |e.pre.contents|
    ensures e.buf + e.pre.contents[e.post.offset..] == e.pre.contents[e.pre.offset..]
    ensures e.op.nbytes > 0 && e.result == Code(0) ==> e.post.offset == |e.pre.contents|
  {
  }

  lemma {:induction false} DrainingReads(start: View, es: seq<Entry>)
    requires RunFrom(start, es) && es != [] && 0 <= start.offset <= |start.contents|
    requires forall i :: 0 <= i < |es| ==>
               es[i].op.Read? && es[i].op.nbytes > 0 && es[i].result.Code? && es[i].result.code >= 0
    requires es[|es| - 1].result == Code(0)
    ensures Fetched(es) == start.contents[start.offset..]
    decreases |es|
  {
    var e, rest := es[0], es[1..];
    OneRead(e);
    if rest == [] {
      assert Fetched(es) == e.buf + Fetched(rest);
      assert Fetched(rest) == e.pre.contents[e.post.offset..];
    } else {
      assert rest[|rest| - 1] == es[|es| - 1];
      DrainingReads(e.post, rest);
    }
  }

  /** Opening with O_APPEND and only writing adds what the writes stored, whatever the partial counts; seeking to
      the old length and reading without errors until 0 returns exactly that. */
  lemma AppendThenReadBack(open: Entry, writes: seq<Entry>, seek: Entry, fetches: seq<Entry>)
    requires Atomic(open) && open.op.Open? && open.op.oflag.append && open.result == Code(0)
    requires RunFrom(open.post, writes)
    requires forall i :: 0 <= i < |writes| ==> writes[i].op.Write?
    requires Atomic(seek) && seek.op == Seek(|open.post.contents|, SeekSet) && seek.pre == End(open.post, writes)
    requires RunFrom(seek.post, fetches) && fetches != [] && fetches[|fetches| - 1].result == Code(0)
    requires forall i :: 0 <= i < |fetches| ==>
               fetches[i].op.Read? && fetches[i].op.nbytes > 0 && fetches[i].result.Code? && fetches[i].result.code >= 0
    ensures seek.pre.contents == Truncated(open.op.oflag, open.pre.contents) + Stored(writes)
    ensures Fetched(fetches) == Stored(writes)
  {
    AppendingWrites(open.post, writes);
    DrainingReads(seek.post, fetches);
  }

  // The directory stream

  /** The reference: a cursor over a fixed list of names. */
  function Cursor(names: seq<string>, at: nat, ops: seq<Op>): seq<Result>
    decreases |ops|
  {
    if ops == [] then []
    else if ops[0].ReadDir? then
      if at < |names| then [Dirent(Some(DName(names[at])))] + Cursor(names, at + 1, ops[1..])
      else [Dirent(None)] + Cursor(names, at, ops[1..])
    else [NoResult] + Cursor(names, 0, ops[1..])
  }

  function Ops(es: seq<Entry>): seq<Op> {
    seq(|es|, i requires 0 <= i < |es| => es[i].op)
  }

  function Results(es: seq<Entry>): seq<Result> {
    seq(|es|, i requires 0 <= i < |es| => es[i].result)
  }

  ghost predicate DirRun(start: View, es: seq<Entry>) {
    && RunFrom(start, es) && start.dir.Some?
    && forall i :: 0 <= i < |es| ==> es[i].op.ReadDir? || es[i].op.RewindDir?
  }

  /** A readdir whose listing completed with 0. */
  predicate Loads(e: Entry) {
    e.op.ReadDir? && e.codes == [0]
  }

  /** One call on a loaded directory is one cursor step, and asks the browser for nothing. */
  lemma LoadedStep(e: Entry)
    requires Atomic(e) && (e.op.ReadDir? || e.op.RewindDir?) && e.pre.dir.Some? && e.pre.dir.value.read
    ensures e.post.dir.Some? && e.post.dir.value.read && e.post.dir.value.entries == e.pre.dir.value.entries
    ensures !Loads(e)
    ensures var names, at := e.pre.dir.value.entries, e.pre.dir.value.offset;
            if e.op.RewindDir? then e.result == NoResult && e.post.dir.value.offset == 0
            else if at < |names| then e.result == Dirent(Some(DName(names[at]))) && e.post.dir.value.offset == at + 1
            else e.result == Dirent(None) && e.post.dir.value.offset == at
  {
  }

  /** One call on a directory that is not loaded: a listing that succeeds loads what the browser listed and is the
      first cursor step; everything else leaves the directory as it was. */
  lemma UnloadedStep(e: Entry)
    requires Atomic(e) && (e.op.ReadDir? || e.op.RewindDir?) && e.pre.dir == Some(Dir([], 0, false))
    ensures e.post.dir.Some? && (e.post.dir.value.read <==> Loads(e))
    ensures if Loads(e)
            then && e.post.dir.value.entries == e.listed
                 && if e.listed == [] then e.result == Dirent(None) && e.post.dir.value.offset == 0
                    else e.result == Dirent(Some(DName(e.listed[0]))) && e.post.dir.value.offset == 1
            else e.post.dir == e.pre.dir && e.result == if e.op.ReadDir? then Dirent(None) else NoResult
  {
  }

  /** Once loaded, the list never changes, no listing is asked for again, and the results are the cursor's. */
  lemma {:induction false} LoadedDirIsCursor(start: View, es: seq<Entry>)
    requires DirRun(start, es) && start.dir.value.read
    ensures Results(es) == Cursor(start.dir.value.entries, start.dir.value.offset, Ops(es))
    ensures forall i :: 0 <= i < |es| ==>
              && !Loads(es[i])
              && es[i].post.dir.Some? && es[i].post.dir.value.read
              && es[i].post.dir.value.entries == start.dir.value.entries
    decreases |es|
  {
    if es == [] {
    } else {
      var e := es[0];
      LoadedStep(e);
      LoadedDirIsCursor(e.post, es[1..]);
      assert forall i :: 1 <= i < |es| ==> es[i] == es[1..][i - 1];
      CursorStep(es, start.dir.value.entries, start.dir.value.offset, e.post.dir.value.offset);
    }
  }

  lemma CursorStep(es: seq<Entry>, names: seq<string>, at: nat, next: nat)
    requires es != [] && (es[0].op.ReadDir? || es[0].op.RewindDir?)
    requires if es[0].op.RewindDir? then es[0].result == NoResult && next == 0
             else if at < |names| then es[0].result == Dirent(Some(DName(names[at]))) && next == at + 1
             else es[0].result == Dirent(None) && next == at
    requires Results(es[1..]) == Cursor(names, next, Ops(es[1..]))
    ensures Results(es) == Cursor(names, at, Ops(es))
  {
    assert Ops(es)[1..] == Ops(es[1..]);
    assert Results(es) == [es[0].result] + Results(es[1..]);
  }

  /** Where the first listing that succeeded stands in a run. */
  function FirstLoad(es: seq<Entry>): (k: nat)
    ensures k <= |es|
    decreases |es|
  {
    if es == [] || Loads(es[0]) then 0 else 1 + FirstLoad(es[1..])
  }

  /** Up to `k` nothing is loaded; the `k`-th call brings in what the browser listed, once and for all, and from there
      on the results are a cursor over it. */
  ghost predicate Streams(es: seq<Entry>, k: nat)
    requires k <= |es|
  {
    && (forall i :: 0 <= i < k ==>
          && es[i].post.dir == Some(Dir([], 0, false))
          && es[i].result == if es[i].op.ReadDir? then Dirent(None) else NoResult)
    && (k < |es| ==>
          && Results(es[k..]) == Cursor(es[k].listed, 0, Ops(es[k..]))
          && forall i :: k <= i < |es| ==>
               && es[i].post.dir.Some? && es[i].post.dir.value.entries == es[k].listed
               && (Loads(es[i]) <==> i == k))
  }

  lemma StreamsFromLoad(es: seq<Entry>)
    requires es != [] && Loads(es[0]) && DirRun(es[0].pre, es) && es[0].pre.dir == Some(Dir([], 0, false))
    ensures Streams(es, 0)
  {
    var e, rest := es[0], es[1..];
    UnloadedStep(e);
    assert forall i :: 1 <= i < |es| ==> es[i] == rest[i - 1];
    LoadedDirIsCursor(e.post, rest);
    CursorStep(es, e.listed, 0, e.post.dir.value.offset);
    assert es[0..] == es;
  }

  lemma StreamsLater(e: Entry, rest: seq<Entry>, k: nat)
    requires Atomic(e) && (e.op.ReadDir? || e.op.RewindDir?) && e.pre.dir == Some(Dir([], 0, false)) && !Loads(e)
    requires k <= |rest| && Streams(rest, k)
    ensures Streams([e] + rest, k + 1)
  {
    var es := [e] + rest;
    UnloadedStep(e);
    assert forall i :: 1 <= i < |es| ==> es[i] == rest[i - 1];
    assert es[k + 1..] == rest[k..];
  }

  /** Until a listing succeeds every readdir returns NULL and the list stays empty; the first that does brings in what
      the browser listed once and for all, and from there on the stream is a cursor over it, starting at the first
      name. */
  lemma {:induction false} DirectoryStream(start: View, es: seq<Entry>)
    requires DirRun(start, es) && start.dir.value == Dir([], 0, false)
    ensures Streams(es, FirstLoad(es))
    decreases |es|
  {
    if es == [] {
    } else if Loads(es[0]) {
      StreamsFromLoad(es);
    } else {
      var e, rest := es[0], es[1..];
      UnloadedStep(e);
      assert forall i :: 1 <= i < |es| ==> es[i] == rest[i - 1];
      DirectoryStream(e.post, rest);
      StreamsLater(e, rest, FirstLoad(rest));
      assert es == [e] + rest;
    }
  }

  /** Which name is next after these calls, if `at` was next before them: the list is left at its end. */
  function Position(at: nat, es: seq<Entry>): nat
    decreases |es|
  {
    if es == [] then at else Position(if es[0].op.RewindDir? then 0 else at + 1, es[1..])
  }

  /** What readdir returns at a position: the name there, whole if it has at most 255 characters and its first 255 if it
      has more; NULL past the end. */
  predicate IsNameAt(r: Result, names: seq<string>, at: nat) {
    if at < |names|
    then && r.Dirent? && r.name.Some? && r.name.value <= names[at]
         && |r.name.value| == if |names[at]| <= 255 then |names[at]| else 255
    else r == Dirent(None)
  }

  lemma {:induction false} NamesByPosition(start: View, es: seq<Entry>, at: nat, i: nat)
    requires DirRun(start, es) && start.dir.value.read && i < |es| && es[i].op.ReadDir?
    requires var names := start.dir.value.entries; start.dir.value.offset == if at < |names| then at else |names|
    ensures IsNameAt(es[i].result, start.dir.value.entries, Position(at, es[..i]))
    decreases i
  {
    var e, rest := es[0], es[1..];
    LoadedStep(e);
    if i > 0 {
      assert forall k :: 0 <= k < |rest| ==> rest[k] == es[k + 1];
      NamesByPosition(e.post, rest, if e.op.RewindDir? then 0 else at + 1, i - 1);
      assert es[..i][0] == e && es[..i][1..] == rest[..i - 1];
    }
  }

  lemma NamesAfterLoad(load: Entry, later: seq<Entry>, i: nat)
    requires Atomic(load) && Loads(load) && load.pre.dir == Some(Dir([], 0, false)) && DirRun(load.post, later)
    requires i < |later| && later[i].op.ReadDir?
    ensures IsNameAt(later[i].result, load.listed, Position(0, [load] + later[..i]))
  {
    UnloadedStep(load);
    NamesByPosition(load.post, later, 1, i);
    assert ([load] + later[..i])[1..] == later[..i];
  }

  lemma FromTo<T>(s: seq<T>, k: nat, i: nat)
    requires k < i < |s|
    ensures s[k..i] == [s[k]] + s[k + 1..][..i - k - 1] && s[k + 1..][i - k - 1] == s[i]
  {
  }

  lemma NameAfterLoad(es: seq<Entry>, k: nat, i: nat)
    requires k < i < |es| && es[i].op.ReadDir?
    requires Atomic(es[k]) && Loads(es[k]) && es[k].pre.dir == Some(Dir([], 0, false))
    requires DirRun(es[k].post, es[k + 1..])
    ensures IsNameAt(es[i].result, es[k].listed, Position(0, es[k..i]))
  {
    FromTo(es, k, i);
    NamesAfterLoad(es[k], es[k + 1..], i - k - 1);
  }

  /** From the first listing that succeeded on, each readdir returns the name at its position in what was listed. */
  lemma NamesFromLoad(start: View, es: seq<Entry>, i: nat)
    requires DirRun(start, es) && start.dir == Some(Dir([], 0, false)) && FirstLoad(es) <= i < |es| && es[i].op.ReadDir?
    ensures var k := FirstLoad(es); IsNameAt(es[i].result, es[k].listed, Position(0, es[k..i]))
  {
    LoadAt(start, es);
    if i == FirstLoad(es) {
      UnloadedStep(es[i]);
      assert es[i..i] == [];
    } else {
      NameAfterLoad(es, FirstLoad(es), i);
    }
  }

  lemma {:induction false} LoadAt(start: View, es: seq<Entry>)
    requires DirRun(start, es) && start.dir == Some(Dir([], 0, false)) && FirstLoad(es) < |es|
    ensures var k := FirstLoad(es);
            && Loads(es[k]) && Atomic(es[k]) && es[k].pre.dir == Some(Dir([], 0, false))
            && es[k].post.dir.Some? && DirRun(es[k].post, es[k + 1..])
    decreases |es|
  {
    var e, rest := es[0], es[1..];
    UnloadedStep(e);
    assert forall i :: 0 <= i < |rest| ==> rest[i] == es[i + 1];
    if !Loads(e) {
      LoadAt(e.post, rest);
      assert es[FirstLoad(es) + 1..] == rest[FirstLoad(rest) + 1..];
    }
  }

  /** A directory stream from its opening: NULL until a listing succeeds, and the listed names by position from then
      on. */
  lemma OpenedDirectoryStream(open: Entry, es: seq<Entry>)
    requires Atomic(open) && open.op.OpenDir? && RunFrom(open.post, es)
    requires forall i :: 0 <= i < |es| ==> es[i].op.ReadDir? || es[i].op.RewindDir?
    ensures open.post.dir.Some? && DirRun(open.post, es)
    ensures var k := FirstLoad(es);
            && (forall i :: 0 <= i < k ==> es[i].op.ReadDir? ==> es[i].result == Dirent(None))
            && (k < |es| ==> Results(es[k..]) == Cursor(es[k].listed, 0, Ops(es[k..])))
            && (forall i :: k <= i < |es| ==> es[i].op.ReadDir? ==>
                  IsNameAt(es[i].result, es[k].listed, Position(0, es[k..i])))
  {
    DirectoryStream(open.post, es);
    forall i | FirstLoad(es) <= i < |es| && es[i].op.ReadDir?
      ensures IsNameAt(es[i].result, es[FirstLoad(es)].listed, Position(0, es[FirstLoad(es)..i]))
    {
      NamesFromLoad(open.post, es, i);
    }
  }

  /** On a loaded directory, a rewinddir and one readdir more than there are names return every name once, in order
      and cut to 255 characters, and then NULL. */
  lemma FullListing(start: View, rewind: Entry, es: seq<Entry>)
    requires start.dir.Some? && start.dir.value.read
    requires Atomic(rewind) && rewind.op.RewindDir? && rewind.pre == start && RunFrom(rewind.post, es)
    requires |es| == |start.dir.value.entries| + 1
    requires forall i :: 0 <= i < |es| ==> es[i].op.ReadDir?
    ensures var names := start.dir.value.entries;
            && (forall i :: 0 <= i < |names| ==>
                  && es[i].result.Dirent? && es[i].result.name.Some? && es[i].result.name.value <= names[i]
                  && |es[i].result.name.value| == if |names[i]| <= 255 then |names[i]| else 255)
            && es[|names|].result == Dirent(None)
  {
    LoadedStep(rewind);
    forall i | 0 <= i < |es| ensures IsNameAt(es[i].result, start.dir.value.entries, i) {
      NamesByPosition(rewind.post, es, 0, i);
      OnlyReads(0, es[..i]);
    }
  }

  lemma {:induction false} OnlyReads(at: nat, es: seq<Entry>)
    requires forall i :: 0 <= i < |es| ==> es[i].op.ReadDir?
    ensures Position(at, es) == at + |es|
    decreases |es|
  {
    if es == [] {
    } else {
      assert forall i :: 0 <= i < |es[1..]| ==> es[1..][i] == es[i + 1];
      OnlyReads(at + 1, es[1..]);
    }
  }

  // Reading a run in two parts

  lemma {:induction false} RunSplit(start: View, a: seq<Entry>, b: seq<Entry>)
    requires RunFrom(start, a + b)
    ensures RunFrom(start, a) && RunFrom(End(start, a), b) && End(start, a + b) == End(End(start, a), b)
    decreases |a|
  {
    if a == [] {
      assert a + b == b;
    } else {
      assert (a + b)[1..] == a[1..] + b;
      RunSplit(a[0].post, a[1..], b);
    }
  }

  /** Appending and reading back as one run of calls. */
  lemma AppendThenReadBackRun(start: View, open: Entry, writes: seq<Entry>, seek: Entry, fetches: seq<Entry>)
    requires RunFrom(start, [open] + (writes + ([seek] + fetches)))
    requires open.op.Open? && open.op.oflag.append && open.result == Code(0)
    requires forall i :: 0 <= i < |writes| ==> writes[i].op.Write?
    requires seek.op == Seek(|open.post.contents|, SeekSet)
    requires fetches != [] && fetches[|fetches| - 1].result == Code(0)
    requires forall i :: 0 <= i < |fetches| ==>
               fetches[i].op.Read? && fetches[i].op.nbytes > 0 && fetches[i].result.Code? && fetches[i].result.code >= 0
    ensures seek.pre.contents == Truncated(open.op.oflag, start.contents) + Stored(writes)
    ensures Fetched(fetches) == Stored(writes)
  {
    var rest := writes + ([seek] + fetches);
    assert ([open] + rest)[1..] == rest;
    RunSplit(open.post, writes, [seek] + fetches);
    assert ([seek] + fetches)[1..] == fetches;
    AppendThenReadBack(open, writes, seek, fetches);
  }
}
