# naclfs in Dafny

naclfs gives a program the POSIX file calls inside a browser whose own file API is asynchronous and may only be used
from the main thread. This project models its four interlocking parts and proves what they promise.

* **Path resolution** (`Strings.dfy`, `Paths.dfy`, `FileSystem.dfy`). `CreateFullpath` splits the argument by walking
  a pointer, erases `..` in place with an iterator that may step back past the beginning, and joins the rest. The
  loops are proved equal to a stack fold, and composition, round trips and the working-directory invariant are proved
  of the fold.
* **Blocking calls on the main thread** (`Html5.dfy`, `AtomicFile.dfy`, `AsyncCall.dfy`, `Scripts.dfy`, `StaleSize.dfy`,
  `OpenModes.dfy`, `Rendezvous.dfy`). A call posts a task, sleeps on a condition variable, and is served by a handler
  that is re-entered once per completion, with its progress in two flags. `Html5` has the handlers, as a class and as
  the function they compute. `AsyncCall` is the transition system of one calling thread, the main thread, mutex,
  queue, pending request and file; `AtomicFile` is the specification it refines and what follows from that
  specification for whole runs. `OpenModes` says exactly when an open can succeed and what can be read and written
  through it; `StaleSize` is a run in which the cached size is wrong; `Scripts` plays such runs step by step.
  `Rendezvous` is the lock/post/wait/signal skeleton with any number of threads.
* **The console** (`Console.dfy`, `Stdin.dfy`). Typed characters go through a FIFO guarded by a mutex used as a binary
  semaphore; output goes to the page as tagged messages that JavaScript takes apart and cuts into lines.
* **Descriptors and ownership** (`Ownership.dfy`, `Failures.dfy`, `AsyncDescriptors.dfy`, `Outcomes.dfy`,
  `FileSystem.dfy`). An append-only table, explicit deletion, and delegates that belong to a descriptor, to an open
  directory, or to the call in progress. A browser-file delegate answers with calls that `AtomicFile` allows, or is
  refused on the main thread; `AsyncDescriptors` shows that whatever the asynchronous delegate does is such an answer.
  `Outcomes` tells what every call returns from the path and the completion codes alone.

`Runs.dfy` has what all transition systems share: runs, reachability, invariance, termination, runs without their
silent steps.

The class methods follow the C++ and JavaScript statement by statement and are specified by functions; the lemmas
are about those functions, and the run lemmas quantify over every sequence of steps.

## Assumptions

* An accepted browser request completes exactly once, in a later main-thread turn. Reads complete with bytes that are
  there, and with 0 only at the end of the file or when nothing was asked for; writes store a prefix; neither succeeds
  through a FileIO that was not opened for it. An open succeeds only on a file that is there or to be created, and not
  on one that is there and to be created exclusively; then it is there, and empty if it was to be truncated. A completion
  code that is not positive leaves file and buffer alone; a query that completes with 0 fills the FileInfo, one that
  does not leaves it alone.
* There are no spurious condition wakeups, and unlocking a mutex that is not locked changes nothing.
* One delegate is used by one thread at a time, and nobody else changes the file it has open.
* C strings contain no NUL; offsets and sizes do not overflow. Completion codes and error numbers are the customary
  ones from the platform headers, which are not part of this repository; the proofs use only that they are distinct
  and not zero.

## What turned out to be conditional

* Resolving after `chdir(p)` and resolving `p + "/" + q` agree exactly when `p` does not end in a bare `.` or `q`
  climbs above the directory `p` names: the splitter trims `.` only in front of a slash. `chdir(getcwd())` keeps the
  working directory, and resolving a resolved path changes nothing, exactly when no component but the last is `.`.
  Every path that ends in a bare `.` breaks all three (`Paths.FinalDotBreaksLaws`), for example `a/.` and then `b`
  from the root (`Paths.LawsCanFail`).
* A call can return exactly as long as the browser has refused no request whose immediate answer the code ignores:
  opening the browser file system, and the queries inside open and stat (`AsyncCall.ReturnsUnlessRefused`). A stat
  whose mount is refused blocks for good (`AsyncCall.RefusedMountNeverReturns`).
* A call returns with its own request finished, in every run, exactly when at most one thread calls: the wait has no
  predicate, and a signal may wake somebody else (`Rendezvous.TwoCallersDangle`).
* Readers of standard input never sleep on data exactly when there is at most one reader and it never asks for zero
  bytes (`Stdin.TwoReadersSleep`, `Stdin.EmptyReadSleeps`).
* The cached size equals the real size exactly as long as no write stores nothing while the position is past the
  cached size, until a later write reaches that size or a query succeeds. An empty file can report size 5
  (`StaleSize.EmptyFileOfSizeFive`).
* A failing call leaves no trace exactly if it is none of three: a write that completed with an error while the
  position was past the cached size, a seek to another, negative position, or a readdir that loaded an empty list
  (`Failures.FailuresAreTraceless`).
* A read of a file returns its answer exactly if that is not -2. After -2 it waits for the mutex, which only an input
  message unlocks (`FileSystems.FileReadEnds`, `Stdin.FileReadWaitsForInput`).

## Model

| member | source | states |
|---|---|---|
| FileSystems.FileSystem.CreateFullpath | src/filesystem.cc:528-577 | the four loops produce "/" and the joined stack fold of the working directory's components (for a relative path) followed by the path's |
| FileSystems.SplitCwd | src/filesystem.cc:531-542 | the stored working directory is cut at every slash, nothing trimmed |
| FileSystems.SplitPath | src/filesystem.cc:545-556 | the pointer walk appends the pieces of the path, without empty ones and without "." in front of a slash, but with a bare final "." |
| FileSystems.EraseDotDot | src/filesystem.cc:559-567 | in-place erasure with an iterator that may be -1 equals the stack fold, in exactly as many turns as there were components |
| FileSystems.JoinPaths | src/filesystem.cc:570-577 | no components give "/", others are each preceded by a slash |
| FileSystems.FileSystem.GetCwd | src/filesystem.cc:501-514 | succeeds exactly if "/", the directory and a NUL fit, writes just these, and otherwise leaves the buffer alone |
| FileSystems.FileSystem.ChDir | src/filesystem.cc:486-499 | moves the working directory only for an accepted path that is a directory; temporaries are deleted on every path |
| Outcomes.ChDirOutcome | src/filesystem.cc:486-499 | chdir is accepted, and moves the working directory to the resolved path, exactly if FileIO::Open found no file or the opened file turned out to be a directory; what exists but is no directory gets -1, everything else the error of stat |
| Paths.FoldAppend | src/filesystem.cc:559-567 | folding a concatenation is folding one part after the other, so Norm(Norm(a)+b) = Norm(a+b) |
| Paths.FoldActs | src/filesystem.cc:559-567 | on any stack a component list climbs a fixed number of levels, stopping at the root, and then appends a fixed list |
| Paths.ResolveIsProper | src/filesystem.cc:528-577 | resolved components are non-empty, slash-free and not ".."; re-splitting the result gives them back; a "." can only come from the working directory or a bare final "." |
| Paths.ResolutionComposes | src/filesystem.cc:486-499 | chdir(p) then q resolves like p + "/" + q exactly when p does not end in a bare "." or q climbs above p |
| Paths.EmptyPath | src/filesystem.cc:531-542 | the empty path names the working directory |
| Paths.ParentOfRoot | test/naclfs_tests.cc:166 | the parent of the root is the root |
| Paths.PlainPaths | src/filesystem.cc:528-577 | a path without ".." and "." is taken as it is: an absolute one names itself, a relative one is put behind the working directory |
| Paths.ParentPath | src/filesystem.cc:559-567 | ".." names the working directory without its last component, and the root from the root |
| Paths.ChdirToGetcwd | src/filesystem.cc:486-514 | chdir(getcwd()) keeps the working directory exactly when no component but the last is "." |
| Paths.ResolutionIdempotent | src/filesystem.cc:528-577 | resolving a resolved path changes nothing exactly when no component but the last is "."; always so from a working directory without "." |
| Paths.FinalDotBreaksLaws | src/filesystem.cc:545-556 | every path ending in a bare ".", followed by any component, breaks composition, chdir(getcwd()) and idempotence |
| Paths.LawsCanFail | src/filesystem.cc:486-514 | "a/." and "b" from the root break all three, in a directory that two chdir calls reach |
| Paths.ChdirRun | src/filesystem.cc:486-499 | after any run of chdir calls the directory is a join of proper components that re-splitting recovers, and has no "." unless an accepted argument ended in one |
| Strings.SplitJoin | src/filesystem.cc:533-541 | splitting undoes joining for separator-free pieces |
| Strings.JoinSplit | html/naclfs.js:63-69 | joining undoes splitting |
| Strings.SplitAppend | html/naclfs.js:63-69 | appended text changes only the last piece |
| Html5.PPErrorToErrNo | src/html5_filesystem.cc:53-76 | an error number is never 0 |
| Html5.ErrorNumbers | src/html5_filesystem.cc:53-76 | which completion codes each error number stands for, in both directions |
| Html5.Html5FileSystem.Proxy | src/filesystem.cc:233-323 | recording the completion code, resetting the chaining flag and dispatching do what the handler function says; the flags stay exclusive and are off unless the handler chained; a request only with chaining |
| Html5.ChainingMeansPending | src/html5_filesystem.cc:182-186 | the chaining flag and a pending request agree exactly if no unchecked request was refused |
| AsyncCall.FirstEntryMounts | src/html5_filesystem.cc:543-551 | without the shared object, the first run of open, stat, mkdir and opendir creates it and leaves one mount request pending, the delegate and both flags untouched |
| AsyncCall.ResumeOpen | src/html5_filesystem.cc:164-246 | re-entered after any completion, open has either exactly its next request pending or the result that the completion codes dictate: 0 with a FileIO opened for what the access mode says, FileInfo and starting position, or the last code's error number; both flags off at the end |
| AsyncCall.ResumeStat | src/html5_filesystem.cc:248-318 | the same for stat, where "not a file" means a directory and success reports the real size |
| AsyncCall.ResumeFstat | src/html5_filesystem.cc:325-361 | a completed query ends fstat with 0 even if it failed; only one that succeeded refreshes the FileInfo |
| AsyncCall.ResumeRead | src/html5_filesystem.cc:363-382 | read ends with the completion's count, the bytes at the position in the buffer, and the position moved past them only |
| AsyncCall.ResumeWrite | src/html5_filesystem.cc:384-406 | write ends with the completion's count, that much stored at the position, and the cached size raised to the position whatever the count |
| AsyncCall.FirstEntrySeek | src/html5_filesystem.cc:408-426 | seek ends in its first run with the position the origin and the offset give, SEEK_END counted from the cached size; an unknown origin changes nothing |
| AsyncCall.ResumeMkDir | src/html5_filesystem.cc:458-479 | mkdir ends with the code of its own completion, -1 if that was refused, never with the mount's |
| AsyncCall.ResumeOpenDir | src/html5_filesystem.cc:481-489 | opendir after the mount ends with an empty, unloaded directory |
| AsyncCall.ResumeReadDir | src/html5_filesystem.cc:498-528 | readdir after a listing returns its first name if it succeeded and NULL if not, and leaves the directory loaded exactly in the first case |
| AtomicFile.LoadedStep | src/html5_filesystem.cc:103-112 | on a loaded directory readdir and rewinddir are one cursor step and ask the browser for nothing |
| AtomicFile.UnloadedStep | src/html5_filesystem.cc:498-528 | on an unloaded directory only a listing that succeeds brings in the list, which is then the one the browser gave |
| AsyncCall.CallsAreAtomic | src/filesystem.cc:225-323 | in every interleaving with one caller, the returned calls are a run of atomic steps: results, contents, position, cached size and directory cursor are what the completion codes dictate |
| AsyncCall.NextEntry | src/html5_filesystem.cc:164-528 | a handler re-entered with a completion, whichever operation it is, either has the next request pending or ends with the atomic result of exactly these completions |
| AsyncCall.ContinuationInvariant | src/filesystem.cc:225-243 | never both flags; exactly one main-thread event refers to an outstanding call's arguments; an idle caller leaves nothing behind |
| AsyncCall.HandlerRunsAreBounded | src/filesystem.cc:233-323 | the handler runs once per post and completion: at most 4, 3, 2 or 1 times by operation, and exactly the bound in a call that went well |
| AsyncCall.CallReturns | src/filesystem.cc:225-243 | a call in progress takes at most 17 steps and can always take one until it has returned, unless an unchecked request was refused |
| AsyncCall.ReturnsUnlessRefused | src/html5_filesystem.cc:164-246 | in every run, the call in progress can be brought to its end exactly if the browser has refused no request whose answer the code ignores |
| AsyncCall.RefusedMountNeverReturns | src/html5_filesystem.cc:543-551 | for any file, a run in which a stat's mount is refused and the caller blocks for good |
| AsyncCall.OpenIsSound | src/html5_filesystem.cc:164-246 | an Open that returned 0 had both its requests complete with 0, and its FileIO is there in every later state |
| AsyncCall.AsyncCachedSize | src/html5_filesystem.cc:384-394 | along every asynchronous run the cached size is at least the real one and equal exactly when the calls say so |
| AsyncCall.AsyncAppendThenReadBack | src/html5_filesystem.cc:199-203 | along every asynchronous run, append writes with any partial counts, seeking back and reading until 0 return exactly what was stored behind the old contents |
| AsyncCall.AsyncDirectoryStream | src/html5_filesystem.cc:92-128 | along every asynchronous run, readdir returns NULL up to the first listing that succeeds and then, by position since the last rewinddir, each listed name, whole up to 255 characters |
| AsyncCall.AsyncReadOnly | src/html5_filesystem.cc:208-231 | along every asynchronous run, after an open with O_RDONLY the contents never change, not even in the middle of a call, and every write fails |
| AsyncCall.AsyncWriteOnly | src/html5_filesystem.cc:208-231 | along every asynchronous run, after an open with O_WRONLY every read fails and returns no bytes |
| OpenModes.OpenSucceedsExactly | src/html5_filesystem.cc:206-246 | an open can succeed exactly if the file is there or O_CREAT is given, and not if it is there and both O_CREAT and O_EXCL are |
| OpenModes.ReadsExactlyIfOpenedForReading | src/html5_filesystem.cc:206-246 | a read through an open can return bytes exactly if the open can succeed with O_RDWR, or with O_RDONLY on a file with bytes that is not truncated |
| OpenModes.WritesExactlyIfOpenedForWriting | src/html5_filesystem.cc:206-246 | a write through an open can store bytes exactly if the open can succeed with O_WRONLY or O_RDWR |
| StaleSize.EmptyFileOfSizeFive | src/html5_filesystem.cc:384-394 | a reachable state of the asynchronous system where an empty file had lseek return 5 and fstat report 5 |
| AtomicFile.CachedSizeTracks | src/html5_filesystem.cc:325-426 | the same for every run of atomic calls on an exclusively owned file |
| AtomicFile.SeekEndIsExact | src/html5_filesystem.cc:418-420 | seeking to the end reports the real size exactly when the cached size is exact |
| AtomicFile.FstatIsExact | src/html5_filesystem.cc:325-350 | a successful fstat reports the real size exactly if its query succeeded or the cached size was exact |
| AtomicFile.AppendThenReadBack | src/html5_filesystem.cc:199-203 | append writes leave the old contents followed by the stored prefixes; seeking back and reading until 0 returns exactly these |
| AtomicFile.OpenGrants | src/html5_filesystem.cc:206-246 | an open that succeeds leaves a file that is there, readable and writable as the access mode says, and empty exactly if truncated |
| AtomicFile.WriteChangesOnly | src/html5_filesystem.cc:384-406 | a write changes exactly the bytes from the position on, as many as it returned; a gap is filled with zeros |
| AtomicFile.WriteThenReadBack | src/html5_filesystem.cc:363-426 | writing anywhere, seeking back and reading returns the bytes that were stored |
| AtomicFile.DirectoryStream | src/html5_filesystem.cc:92-128 | failed loads return NULL and keep the list empty; one load succeeds at most and brings in what the browser listed; from then on readdir and rewinddir are a cursor over it |
| AtomicFile.FullListing | src/html5_filesystem.cc:103-116 | on a loaded directory, rewinddir and then one readdir more than there are names return each name once, whole if it has at most 255 characters and its first 255 otherwise, and then NULL |
| Rendezvous.NoLostWakeup | src/filesystem.cc:225-243 | blocked callers plus callers holding the lock after posting equal the unsignalled requests; every signal finds a waiter |
| Rendezvous.RunsEndReturned | src/naclfs.cc:77-100 | every run is finite, and one that cannot go on has every call returned, for any number of threads |
| Rendezvous.SafeExactlyForOneCaller | src/filesystem.cc:225-243 | no call returns before its own request is finished, in every run, exactly when at most one thread makes calls |
| Rendezvous.TwoCallersDangle | src/filesystem.cc:225-243 | a run in which a signal for one caller releases another while its arguments are still queued |
| Console.PortFileSystem.Open | src/port_filesystem.cc:64-92 | the delegate becomes the device of that name, and ENODEV changes nothing for an unknown one |
| Console.PortFileSystem.Read | src/port_filesystem.cc:121-138 | the loop returns what one read answers: the front of the buffer up to the size asked for; -2 or -1 when it took nothing |
| Console.PortFileSystem.ReadRetrying | src/filesystem.cc:388-401 | the retry loop returns the first data that is there or arrives; asking for zero bytes it never returns; unreadable and non-blocking descriptors get -1 at once if there is nothing |
| Console.PortFileSystem.Write | src/port_filesystem.cc:140-147 | a write posts one tagged message with the whole payload and returns its length, or posts nothing and returns -1 |
| Console.ThreeDevices | src/port_filesystem.cc:64-92 | exactly three names can be opened: "/dev/stdin" for reading as 0, "/dev/stdout" and "/dev/stderr" for writing as 1 and 2 |
| Console.StdInFetches | src/port_filesystem.cc:121-138 | a read of "/dev/stdin" returns the front of what is buffered, as much as asked for or all, and leaves the rest |
| Console.StdOutIsShown | src/port_filesystem.cc:140-147 | what is written to "/dev/stdout" is posted as "S1" and the text, and extends standard output on the page by exactly the text |
| Console.NamesReachStreams | html/naclfs.js:38-77 | however writes by name interleave, the page shows under each stream exactly what was written under its name, cut at the newlines |
| Console.FirstDataIsFirst | src/filesystem.cc:388-401 | what the retry loop returns data from is the first that is not empty, of the buffer and what arrives |
| Console.StdinBuffer.HandleMessage | src/port_filesystem.cc:175-183 | an input message appends the character at position 2, whatever lies there if the message is shorter; others are not handled |
| Console.KeyArrives | html/naclfs.js:79-81 | the message that the page posts for a key is input and carries that key |
| Console.ShowOne | html/naclfs.js:38-57 | one message extends exactly the stream it belongs to by exactly its text, lines and unfinished rest included |
| Console.OtherMessages | html/naclfs.js:38-57 | other ids go to the log with their number, other kinds of message and empty ones nowhere |
| Console.Page.AppendStdOut | html/naclfs.js:63-69 | finished lines are emitted, the unfinished rest is kept |
| Console.Page.AppendStdErr | html/naclfs.js:71-77 | the same for standard error |
| Console.StreamsAreSeparated | src/naclfs.cc:69-88 | for every interleaving and chunking, each stream's emitted lines and rest are the newline split of all its text, and the log is the list of log calls |
| Console.ChunkingDoesNotShow | html/naclfs.js:63-69 | equal texts look equal however they were cut; lines contain no newline and nothing is lost |
| Stdin.StdinIsFifo | src/port_filesystem.cc:121-138 | for any number of readers, bytes returned followed by the buffer are the typed characters in order; the mutex is taken at most once per message |
| Stdin.KeysReachReaders | html/naclfs.js:79-81 | in every run whose messages are those of some keys, with any number of readers, bytes returned followed by the buffer are these keys in order |
| Stdin.TryIsRead | src/port_filesystem.cc:121-138 | each try fetches and leaves what one read of the port delegate does, and waits exactly if that answers -2 |
| Stdin.NeverSleepsOnData | src/filesystem.cc:388-401 | readers never sleep on data in any interleaving exactly with at most one reader that never asks for zero bytes |
| Stdin.WaitingReaderCanProceed | src/filesystem.cc:516-526 | a waiting single reader finds the mutex free when data is there and no handler is about to unlock |
| Stdin.TwoReadersSleep | src/filesystem.cc:388-401 | two readers, messages that unlock once, and one reader left asleep on data |
| Stdin.EmptyReadSleeps | src/port_filesystem.cc:131-136 | a read of zero bytes asleep on data |
| Stdin.FileReadWaitsForInput | src/filesystem.cc:388-401 | a read of a file answered -2 before anything was typed does not end in any run until an input message comes; any other answer ends it |
| Ownership.DelegatesAreConserved | src/filesystem.cc:338-484 | between calls of every run each delegate is bound once, owned by one directory, or deleted once, and exactly one of these; none is in use |
| Ownership.MoveConserves | src/filesystem.cc:593-610 | deleting a temporary, binding it and giving it to a directory keep every delegate in exactly one place, in the middle of a call too |
| Ownership.ApplyKeepsSound | src/filesystem.cc:338-484 | every call on every success and failure path keeps conservation, usable descriptors and the proper working directory, and never reuses a slot |
| Ownership.DescriptorsAreUsable | src/filesystem.cc:338-355 | in every run a live descriptor is an opened device, or a file whose calls are an atomic run after a successful open: FileIO there, cached size exact exactly when the calls say so |
| Ownership.DescriptorsKeepTheirMode | src/html5_filesystem.cc:206-246 | in every run, behind a live descriptor opened with O_RDONLY the contents are what the open left, and one opened with O_WRONLY has returned no bytes |
| Ownership.ClosedStaysClosed | src/filesystem.cc:598-610 | a closed descriptor answers EBADF whatever happens later |
| Ownership.DirectoriesAreCursors | src/filesystem.cc:446-484 | in every run an open directory is a browser directory, and its reads are NULL up to the first successful listing and a cursor over it since |
| Ownership.NoLeaks | src/filesystem.cc:338-484 | in every run, whatever fails, delegates alive = open descriptors + open directories = successful open and opendir minus successful close and closedir |
| Ownership.DescriptorsAreNumbered | src/filesystem.cc:593-596 | in every run a successful open returns the number of opens that succeeded before it, so no descriptor is given out twice |
| Ownership.OnlyChdirsMove | src/filesystem.cc:486-499 | in every run the working directory is what the accepted chdir calls alone make of it |
| Failures.FailuresLeaveNoTrace | src/filesystem.cc:338-499 | taking out of a run every stat and mkdir and every failed call but those three that change a view leaves a run in which every call returns what it returned before, and which ends with the same working directory and the same devices and views behind the same descriptors and directories |
| Failures.FailuresAreTraceless | src/html5_filesystem.cc:363-528 | a failing call leaves everything later calls can notice as it was exactly if it is not a write completed with an error past the cached size, a seek to another negative position, or a readdir that loaded an empty list |
| Failures.SeesUse | src/filesystem.cc:381-415 | a call on one descriptor reaches the delegate behind it and no other descriptor or directory |
| AsyncDescriptors.AsyncAnswersAreLegal | src/filesystem.cc:338-484 | an asynchronous run of a delegate, made through a descriptor or a DIR pointer from any sound state with any legal calls on other descriptors, directories and paths in between, is a run of the file system: the open returns the next handle, each call of the delegate returns what the delegate returned (-2 is the answer of one turn of the read loop, not of read), and the handle ends with the delegate's view |
| FileSystems.FileSystem.Open | src/filesystem.cc:338-355 | create, open, then delete or bind |
| Outcomes.OpenOutcome | src/filesystem.cc:338-355 | open gives the next descriptor exactly for one of the three devices or a file whose two requests completed with 0, with the device of that name or the file as the open left it behind it; otherwise an error and nothing bound |
| FileSystems.FileSystem.Stat | src/filesystem.cc:357-368 | create, ask, delete |
| Outcomes.StatOutcome | src/filesystem.cc:357-368 | stat succeeds for the three devices, for a file whose two requests completed with 0, and for what is not a file; other "/dev/std" names are ENODEV, the main thread EIO |
| FileSystems.FileSystem.Close | src/filesystem.cc:370-379 | the delegate is deleted and the slot emptied only if it agrees to close |
| Outcomes.CloseOutcome | src/filesystem.cc:370-379 | close of a live descriptor succeeds and empties it, except for a file on the main thread (EIO); any other number is EBADF |
| FileSystems.FileSystem.MkDir | src/filesystem.cc:431-444 | create, ask, delete |
| Outcomes.MkDirOutcome | src/filesystem.cc:431-444 | mkdir returns its own completion code, -1 if refused or for a device, EIO on the main thread |
| FileSystems.FileSystem.OpenDir | src/filesystem.cc:446-460 | the delegate goes to the directory, or is deleted |
| Outcomes.OpenDirOutcome | src/filesystem.cc:446-460 | opendir gives a DIR pointer to an unloaded directory, except for devices and on the main thread |
| FileSystems.FileSystem.CloseDir | src/filesystem.cc:476-484 | the delegate is deleted if the directory closed |
| Outcomes.CloseDirOutcome | src/filesystem.cc:476-484 | closedir succeeds and ends the DIR pointer, except on the main thread |
| Outcomes.UseRefused | src/filesystem.cc:381-415 | fstat answers EBADF, and read, write and lseek -1, for a number that is no live descriptor; on the main thread EIO and -1 for a file |
| Outcomes.UseOfFile | src/filesystem.cc:381-415 | on a file, fstat, read, write and lseek return what their requests completed with and the position reached |
| Outcomes.UseOfDevice | src/port_filesystem.cc:114-152 | on a device, fstat and lseek return 0, a write its whole length on an output and -1 on standard input, a read -1 on an output |
| FileSystems.FileSystem.Read | src/filesystem.cc:388-401 | makes exactly the turns up to the first that is not answered -2 and returns that answer |
| FileSystems.FileReadEnds | src/filesystem.cc:388-401 | on a browser file one call of the delegate ends the read loop, with its answer, exactly if the answer is not -2 |

## Left out

- The threads' steps of `Call`, `Proxy` and the console handler are transitions, not Dafny methods: Dafny has no threads. Data races on the stdin buffer are left out with that; each step is atomic.
- FileSystems.FileSystem.Read: leaves the lock between two turns of the loop to `Stdin`, which has the mutex; the class has no threads.
- Two descriptors on one file, or a file and its later reopening: a delegate's file is its own, and what it finds at first is an input.
- Several threads on one delegate, or racing to create the shared file system object: only the counting results of `Rendezvous` cover more than one thread.
- The browser API itself: existence of paths, permissions, directory creation, quota.
- `isatty`, `fcntl`, file times, block counts, permission bits, `errno` side channels, trace text and the "can not create delegate" branch, which `new` never takes.
- src/wrap.cc, src/naclfs_crt.cc, build scripts and pages: interposition, start-up and user interface.
- Characters beyond ASCII.
- Directory names containing NUL, at which the copy of a name would stop.
