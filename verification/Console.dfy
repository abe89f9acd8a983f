/** The console devices: `PortFileSystem`, the retry loop of `FileSystem::Read`, and the page's half in
    html/naclfs.js.  Bytes are characters here, one each: the devices carry ASCII. */
module Console {
  import opened Wrappers
  import opened Strings
  import opened Errno

  // Input

  datatype Message = NotString | Text(s: string)

  predicate IsInput(m: Message) {
    m.Text? && m.s != "" && m.s[0] == 'S'
  }

  /** The character an input message carries, at position 2; `beyond` is what lies past the end of a message that is
      shorter. */
  function Carried(m: Message, beyond: char): char
    requires IsInput(m)
  {
    if |m.s| >= 3 then m.s[2] else beyond
  }

  /** What the page posts for a key. */
  function KeyMessage(key: char): Message {
    Text("S0" + [key])
  }

  /** Just the texts that start with 'S' are input. */
  lemma OnlyInputIsHandled(m: Message)
    ensures IsInput(m) <==> exists rest: string :: m == Text("S" + rest)
  {
    if IsInput(m) {
      assert m == Text("S" + m.s[1..]);
    }
  }

  /** What a key puts in front of the readers is the key, whatever lies past the end of its message. */
  lemma KeyArrives(key: char, beyond: char)
    ensures KeyMessage(key) == Text("S0" + [key]) && IsInput(KeyMessage(key)) && Carried(KeyMessage(key), beyond) == key
  {
    assert ("S0" + [key])[2] == key;
  }

  function Taken(buffer: string, nbytes: nat): string {
    if nbytes <= |buffer| then buffer[..nbytes] else buffer
  }

  function Left(buffer: string, nbytes: nat): string {
    if nbytes <= |buffer| then buffer[nbytes..] else ""
  }

  /** A read takes as much as there is, up to what was asked for, from the front. */
  lemma TakenFromFront(buffer: string, nbytes: nat)
    ensures |Taken(buffer, nbytes)| == (if nbytes <= |buffer| then nbytes else |buffer|)
    ensures Taken(buffer, nbytes) + Left(buffer, nbytes) == buffer
  {
  }

  /** Taking one at a time, until there are enough or no more, takes that. */
  lemma TakenWhole(buffer: string, nbytes: nat, k: nat)
    requires k <= |buffer| && k <= nbytes && (k == nbytes || buffer[k..] == "")
    ensures buffer[..k] == Taken(buffer, nbytes) && buffer[k..] == Left(buffer, nbytes)
  {
    if k < nbytes {
      assert |buffer[k..]| == 0;
      assert buffer[..k] == buffer;
    }
  }

  /** The static `buffer_`, shared by all port delegates. */
  class StdinBuffer {
    var bytes: string

    constructor ()
      ensures bytes == ""
    {
      bytes := "";
    }

    /** The length of a message is not checked. */
    method HandleMessage(m: Message, beyond: char) returns (handled: bool)
      modifies this
      ensures handled == IsInput(m)
      ensures bytes == old(bytes) + (if IsInput(m) then [Carried(m, beyond)] else "")
    {
      if !m.Text? {
        return false;
      }
      if m.s == "" || m.s[0] != 'S' {
        return false;
      }
      var third := if |m.s| >= 3 then m.s[2] else beyond;
      bytes := bytes + [third];
      handled := true;
    }
  }

  /** The data the reader finds once the buffer or one of the batches that arrive while it waits is not empty. */
  function FirstData(buffer: string, arrivals: seq<string>): Option<string>
    decreases |arrivals|
  {
    if buffer != "" then Some(buffer)
    else if arrivals == [] then None
    else FirstData(arrivals[0], arrivals[1..])
  }

  /** It is the first that is not empty, of the buffer and what arrives. */
  lemma {:induction false} FirstDataIsFirst(buffer: string, arrivals: seq<string>)
    ensures match FirstData(buffer, arrivals)
            case None => buffer == "" && forall k :: 0 <= k < |arrivals| ==> arrivals[k] == ""
            case Some(found) =>
              && found != ""
              && (found == buffer
                  || (buffer == "" && exists k :: 0 <= k < |arrivals| && arrivals[k] == found
                                                  && forall i :: 0 <= i < k ==> arrivals[i] == ""))
    decreases |arrivals|
  {
    if buffer == "" && arrivals != [] {
      var rest := arrivals[1..];
      FirstDataIsFirst(arrivals[0], rest);
      assert forall k :: 0 <= k < |rest| ==> rest[k] == arrivals[k + 1];
      var r := FirstData(arrivals[0], rest);
      if r.Some? && arrivals[0] == "" {
        var k :| 0 <= k < |rest| && rest[k] == r.value && forall i :: 0 <= i < k ==> rest[i] == "";
        assert arrivals[k + 1] == r.value;
        forall i | 0 <= i < k + 1 ensures arrivals[i] == "" {
          if i > 0 { assert rest[i - 1] == arrivals[i]; }
        }
      }
    }
  }

  lemma NextArrival(arrivals: seq<string>, next: nat)
    requires next < |arrivals|
    ensures FirstData("", arrivals[next..]) == FirstData(arrivals[next], arrivals[next + 1..])
  {
    assert arrivals[next..][0] == arrivals[next] && arrivals[next..][1..] == arrivals[next + 1..];
  }

  // Devices

  /** The part of a port delegate that is its own; -1 is the id before Open. */
  datatype Device = Device(id: int, readable: bool, writable: bool, blocking: bool)

  const NEW_DEVICE: Device := Device(-1, false, false, true)

  /** The id a device name stands for; -1 for an unknown device. */
  function DeviceId(path: string): int {
    if path == "/dev/stdin" then 0 else if path == "/dev/stdout" then 1 else if path == "/dev/stderr" then 2 else -1
  }

  /** Open and Stat answer alike. */
  function DeviceStatus(path: string): int {
    if DeviceId(path) < 0 then ENODEV else 0
  }

  function OpenDevice(d: Device, path: string): Device {
    var id := DeviceId(path);
    if id < 0 then d else d.(id := id, readable := d.readable || id == 0, writable := d.writable || id > 0)
  }

  /** Opened once: standard input is for reading, the outputs are for writing. */
  predicate IsOpen(d: Device) {
    0 <= d.id <= 2 && (d.readable <==> d.id == 0) && (d.writable <==> d.id > 0)
  }

  /** What one read may answer: between one byte and as many as asked for, or that there is nothing. */
  predicate ReadMayAnswer(d: Device, nbytes: nat, result: int) {
    if d.id < 0 || !d.readable then result == -1
    else 0 < result <= nbytes || result == if d.blocking then -2 else -1
  }

  /** What one read returns, the bytes it fetches, and what it leaves in the buffer. */
  function ReadAnswer(d: Device, buffer: string, nbytes: nat): (int, string, string) {
    if d.id < 0 || !d.readable then (-1, "", buffer)
    else
      var data := Taken(buffer, nbytes);
      (if data != "" then |data| else if d.blocking then -2 else -1, data, Left(buffer, nbytes))
  }

  /** -2 says that the device is blocking standard input, and the buffer was empty if anything was asked for. */
  lemma ReadNothing(d: Device, buffer: string, nbytes: nat)
    ensures var (result, data, rest) := ReadAnswer(d, buffer, nbytes);
            && (result == -2 ==> d.id >= 0 && d.readable && d.blocking && data == "")
            && (result == -2 && nbytes > 0 ==> buffer == "" && rest == "")
            && (result != -2 && d.id >= 0 && d.readable && d.blocking ==> buffer != "" && nbytes > 0)
  {
  }

  function WriteAnswer(d: Device, size: nat): int {
    if d.id < 0 || !d.writable then -1 else size
  }

  /** The message a write posts. */
  function Posted(d: Device, buf: string): Option<string> {
    if WriteAnswer(d, |buf|) < 0 then None else Some(Encode(if d.id == 1 then StdOut(buf) else StdErr(buf)))
  }

  class PortFileSystem {
    const stdin: StdinBuffer
    var readable: bool
    var writable: bool
    var blocking: bool
    var id: int

    ghost function State(): Device
      reads this
    {
      Device(id, readable, writable, blocking)
    }

    constructor (stdin: StdinBuffer)
      ensures this.stdin == stdin && State() == NEW_DEVICE
    {
      this.stdin, readable, writable, blocking, id := stdin, false, false, true, -1;
    }

    method Open(path: string) returns (code: int)
      modifies this
      ensures State() == OpenDevice(old(State()), path) && code == DeviceStatus(path)
      ensures code == 0 && old(State()) == NEW_DEVICE ==> IsOpen(State())
      ensures code != 0 ==> State() == old(State())
    {
      if path == "/dev/stdin" {
        id, readable := 0, true;
      } else if path == "/dev/stdout" {
        id, writable := 1, true;
      } else if path == "/dev/stderr" {
        id, writable := 2, true;
      } else {
        return ENODEV;
      }
      code := 0;
    }

    /** Takes bytes from the front, one at a time.  Nothing taken reads as "would block", -2, or as -1 on a
        non-blocking descriptor, even if nothing was asked for. */
    method Read(nbytes: nat) returns (result: int, data: string)
      modifies stdin
      ensures (result, data, stdin.bytes) == ReadAnswer(State(), old(stdin.bytes), nbytes)
      ensures ReadMayAnswer(State(), nbytes, result)
    {
      data := "";
      if id < 0 || !readable {
        return -1, data;
      }
      var readSize := 0;
      while readSize < nbytes && stdin.bytes != ""
        invariant readSize == |data| <= nbytes && readSize <= |old(stdin.bytes)|
        invariant data == old(stdin.bytes)[..readSize]
        invariant stdin.bytes == old(stdin.bytes)[readSize..]
        decreases nbytes - readSize
      {
        data := data + [stdin.bytes[0]];
        readSize := readSize + 1;
        stdin.bytes := stdin.bytes[1..];
      }
      TakenWhole(old(stdin.bytes), nbytes, readSize);
      if readSize == 0 {
        return if blocking then -2 else -1, data;
      }
      result := readSize;
    }

    /** `FileSystem::Read` on this delegate.  `arrivals` says what the page has sent by each time the reader gets the
        mutex, possibly nothing; no result means that it waits for the mutex still. */
    method ReadRetrying(nbytes: nat, arrivals: seq<string>) returns (result: Option<int>, data: string)
      modifies stdin
      ensures if id < 0 || !readable then result == Some(-1) && data == "" && stdin.bytes == old(stdin.bytes)
              else if !blocking then
                && data == Taken(old(stdin.bytes), nbytes) && stdin.bytes == Left(old(stdin.bytes), nbytes)
                && result == Some(if data != "" then |data| else -1)
              else match FirstData(old(stdin.bytes), arrivals)
                   case Some(found) =>
                     if nbytes > 0
                     then data == Taken(found, nbytes) && result == Some(|data|)
                          && stdin.bytes == Left(found, nbytes)
                     else result == None
                   case None => result == None && data == ""
    {
      var next := 0;
      ghost var first := FirstData(stdin.bytes, arrivals);
      while true
        invariant 0 <= next <= |arrivals|
        invariant nbytes > 0 ==> first == FirstData(stdin.bytes, arrivals[next..])
        invariant next > 0 ==> id >= 0 && readable && blocking
        invariant next == 0 ==> stdin.bytes == old(stdin.bytes)
        decreases |arrivals| - next
      {
        var r;
        ReadNothing(State(), stdin.bytes, nbytes);
        r, data := Read(nbytes);
        if r != -2 {
          return Some(r), data;
        }
        if next == |arrivals| {
          return None, data;
        }
        NextArrival(arrivals, next);
        assert nbytes > 0 ==> stdin.bytes + arrivals[next] == arrivals[next];
        stdin.bytes := stdin.bytes + arrivals[next];
        next := next + 1;
      }
    }

    /** The message a write posts to the page; the write itself always accepts everything. */
    method Write(buf: string) returns (result: int, posted: Option<string>)
      requires id < 0 || IsOpen(State())
      ensures result == WriteAnswer(State(), |buf|) && posted == Posted(State(), buf)
    {
      if id < 0 || !writable {
        return -1, None;
      }
      var digit := if id == 1 then "1" else "2";
      assert "S" + "1" == "S1" && "S" + "2" == "S2";
      result, posted := |buf|, Some("S" + digit + buf);
    }
  }

  // Output

  /** What one thread sends towards the page. */
  datatype Output = StdOut(payload: string) | StdErr(payload: string) | Log(text: string)

  function Encode(o: Output): string {
    match o
    case StdOut(payload) => "S1" + payload
    case StdErr(payload) => "S2" + payload
    case Log(text) => "E" + text
  }

  /** The page: unfinished lines, and what has been shown so far. */
  datatype Screen = Screen(outBuffer: string, errBuffer: string, outLines: seq<string>, errLines: seq<string>,
                           log: seq<string>)

  const BLANK: Screen := Screen("", "", [], [], [])

  function Show(screen: Screen, data: string): Screen {
    if data == "" then screen
    else if data[0] == 'E' then screen.(log := screen.log + [data[1..]])
    else if data[0] != 'S' then screen
    else if |data| == 1 then screen.(log := screen.log + ["port undefined: "])
    else
      var text := data[2..];
      if data[1] == '1' then
        var parts := Split(screen.outBuffer + text, '\n');
        screen.(outLines := screen.outLines + parts[..|parts| - 1], outBuffer := Last(parts))
      else if data[1] == '2' then
        var parts := Split(screen.errBuffer + text, '\n');
        screen.(errLines := screen.errLines + parts[..|parts| - 1], errBuffer := Last(parts))
      else screen.(log := screen.log + ["port " + [data[1]] + ": " + text])
  }

  /** `naclfs` in html/naclfs.js. */
  class Page {
    var outBuffer: string
    var errBuffer: string
    // What console.warn, console.error and console.log were given.
    var warned: seq<string>
    var errors: seq<string>
    var logged: seq<string>

    ghost function State(): Screen
      reads this
    {
      Screen(outBuffer, errBuffer, warned, errors, logged)
    }

    constructor ()
      ensures State() == BLANK
    {
      outBuffer, errBuffer, warned, errors, logged := "", "", [], [], [];
    }

    method AppendConsole(message: string)
      modifies this
      ensures State() == old(State()).(log := old(logged) + [message])
    {
      logged := logged + [message];
    }

    method AppendStdOut(message: string)
      modifies this
      ensures var parts := Split(old(outBuffer) + message, '\n');
              State() == old(State()).(outLines := old(warned) + parts[..|parts| - 1], outBuffer := Last(parts))
    {
      outBuffer := outBuffer + message;
      var lines := Split(outBuffer, '\n');
      var i := 0;
      while i < |lines| - 1
        invariant 0 <= i <= |lines| - 1
        invariant State() == old(State()).(outLines := old(warned) + lines[..i], outBuffer := outBuffer)
        invariant outBuffer == old(outBuffer) + message
      {
        warned := warned + [lines[i]];
        i := i + 1;
      }
      outBuffer := lines[i];
    }

    method AppendStdErr(message: string)
      modifies this
      ensures var parts := Split(old(errBuffer) + message, '\n');
              State() == old(State()).(errLines := old(errors) + parts[..|parts| - 1], errBuffer := Last(parts))
    {
      errBuffer := errBuffer + message;
      var lines := Split(errBuffer, '\n');
      var i := 0;
      while i < |lines| - 1
        invariant 0 <= i <= |lines| - 1
        invariant State() == old(State()).(errLines := old(errors) + lines[..i], errBuffer := errBuffer)
        invariant errBuffer == old(errBuffer) + message
      {
        errors := errors + [lines[i]];
        i := i + 1;
      }
      errBuffer := lines[i];
    }

    method HandleMessage(data: string)
      modifies this
      ensures State() == Show(old(State()), data)
    {
      if data == "" {
        return;
      }
      var kind := data[0];
      if kind == 'E' {
        AppendConsole(data[1..]);
      } else if kind == 'S' {
        if |data| == 1 {
          AppendConsole("port undefined: ");
        } else if data[1] == '1' {
          AppendStdOut(data[2..]);
        } else if data[1] == '2' {
          AppendStdErr(data[2..]);
        } else {
          AppendConsole("port " + [data[1]] + ": " + data[2..]);
        }
      }
    }
  }

  function ShowAll(screen: Screen, outputs: seq<Output>): Screen
    decreases |outputs|
  {
    if outputs == [] then screen else ShowAll(Show(screen, Encode(outputs[0])), outputs[1..])
  }

  function OutOf(o: Output): string { if o.StdOut? then o.payload else "" }
  function ErrOf(o: Output): string { if o.StdErr? then o.payload else "" }
  function LogOf(o: Output): seq<string> { if o.Log? then [o.text] else [] }

  /** What was written to each stream, whatever the pieces. */
  function OutText(outputs: seq<Output>): string {
    if outputs == [] then "" else OutOf(outputs[0]) + OutText(outputs[1..])
  }

  function ErrText(outputs: seq<Output>): string {
    if outputs == [] then "" else ErrOf(outputs[0]) + ErrText(outputs[1..])
  }

  function Logged(outputs: seq<Output>): seq<string> {
    if outputs == [] then [] else LogOf(outputs[0]) + Logged(outputs[1..])
  }

  /** The screen shows exactly these three streams. */
  ghost predicate Shows(screen: Screen, out: string, err: string, log: seq<string>) {
    && screen.outLines + [screen.outBuffer] == Split(out, '\n')
    && screen.errLines + [screen.errBuffer] == Split(err, '\n')
    && screen.log == log
  }

  lemma LinesGrow(lines: seq<string>, buffer: string, all: string, more: string)
    requires lines + [buffer] == Split(all, '\n')
    ensures var parts := Split(buffer + more, '\n');
            (lines + parts[..|parts| - 1]) + [Last(parts)] == Split(all + more, '\n')
  {
    var parts := Split(buffer + more, '\n');
    FrontOfSnoc(lines, buffer);
    SplitAppend(all, more, '\n');
    FrontLast(parts);
    Assoc(lines, parts[..|parts| - 1], [Last(parts)]);
  }

  lemma ShowOne(screen: Screen, o: Output, out: string, err: string, log: seq<string>)
    requires Shows(screen, out, err, log)
    ensures Shows(Show(screen, Encode(o)), out + OutOf(o), err + ErrOf(o), log + LogOf(o))
  {
    assert out + "" == out && err + "" == err && log + [] == log;
    match o
    case StdOut(payload) =>
      assert Encode(o)[2..] == payload;
      LinesGrow(screen.outLines, screen.outBuffer, out, payload);
    case StdErr(payload) =>
      assert Encode(o)[2..] == payload;
      LinesGrow(screen.errLines, screen.errBuffer, err, payload);
    case Log(text) =>
      assert Encode(o)[1..] == text;
  }

  lemma {:induction false} ShowRun(screen: Screen, outputs: seq<Output>, out: string, err: string, log: seq<string>)
    requires Shows(screen, out, err, log)
    ensures Shows(ShowAll(screen, outputs), out + OutText(outputs), err + ErrText(outputs), log + Logged(outputs))
    decreases |outputs|
  {
    if outputs == [] {
      assert out + "" == out && err + "" == err && log + [] == log;
    } else {
      var o, rest := outputs[0], outputs[1..];
      ShowOne(screen, o, out, err, log);
      ShowRun(Show(screen, Encode(o)), rest, out + OutOf(o), err + ErrOf(o), log + LogOf(o));
      Assoc(out, OutOf(o), OutText(rest));
      Assoc(err, ErrOf(o), ErrText(rest));
      Assoc(log, LogOf(o), Logged(rest));
    }
  }

  /** However one thread's writes to the two streams and its log calls interleave, and however the text is cut into
      writes, each stream's lines and unfinished rest are the newline split of what was written to it. */
  lemma StreamsAreSeparated(outputs: seq<Output>)
    ensures Shows(ShowAll(BLANK, outputs), OutText(outputs), ErrText(outputs), Logged(outputs))
  {
    assert Split("", '\n') == [""];
    ShowRun(BLANK, outputs, "", "", []);
    assert "" + OutText(outputs) == OutText(outputs) && "" + ErrText(outputs) == ErrText(outputs);
    assert [] + Logged(outputs) == Logged(outputs);
  }

  /** Two ways of writing the same text to standard output look the same on the page, and nothing is lost. */
  lemma ChunkingDoesNotShow(a: seq<Output>, b: seq<Output>)
    requires OutText(a) == OutText(b)
    ensures var s, t := ShowAll(BLANK, a), ShowAll(BLANK, b);
            && s.outLines == t.outLines && s.outBuffer == t.outBuffer
            && Join(s.outLines + [s.outBuffer], '\n') == OutText(a)
            && (forall i :: 0 <= i < |s.outLines| ==> '\n' !in s.outLines[i])
  {
    StreamsAreSeparated(a);
    StreamsAreSeparated(b);
    JoinSplit(OutText(a), '\n');
    var s, t := ShowAll(BLANK, a), ShowAll(BLANK, b);
    var p := Split(OutText(a), '\n');
    FrontOfSnoc(s.outLines, s.outBuffer);
    FrontOfSnoc(t.outLines, t.outBuffer);
    assert forall i :: 0 <= i < |s.outLines| ==> s.outLines[i] == p[i];
  }

  // From the name of a device to the stream it is

  /** A new delegate opened under a name. */
  function Named(path: string): Device {
    OpenDevice(NEW_DEVICE, path)
  }

  /** Just these three names can be opened: the first for reading, the others for writing. */
  lemma ThreeDevices(path: string)
    ensures DeviceStatus(path)
            == if path == "/dev/stdin" || path == "/dev/stdout" || path == "/dev/stderr" then 0 else ENODEV
    ensures path == "/dev/stdin" ==> Named(path) == Device(0, true, false, true)
    ensures path == "/dev/stdout" ==> Named(path) == Device(1, false, true, true)
    ensures path == "/dev/stderr" ==> Named(path) == Device(2, false, true, true)
  {
  }

  /** What is written to "/dev/stdout" is posted whole and shown as standard output. */
  lemma StdOutIsShown(screen: Screen, buf: string, out: string, err: string, log: seq<string>)
    requires Shows(screen, out, err, log)
    ensures WriteAnswer(Named("/dev/stdout"), |buf|) == |buf| && Posted(Named("/dev/stdout"), buf) == Some("S1" + buf)
    ensures Shows(Show(screen, "S1" + buf), out + buf, err, log)
  {
    ShowOne(screen, StdOut(buf), out, err, log);
    assert err + "" == err && log + [] == log;
  }

  /** What is written to "/dev/stderr" is posted whole and shown as standard error. */
  lemma StdErrIsShown(screen: Screen, buf: string, out: string, err: string, log: seq<string>)
    requires Shows(screen, out, err, log)
    ensures WriteAnswer(Named("/dev/stderr"), |buf|) == |buf| && Posted(Named("/dev/stderr"), buf) == Some("S2" + buf)
    ensures Shows(Show(screen, "S2" + buf), out, err + buf, log)
  {
    ShowOne(screen, StdErr(buf), out, err, log);
    assert out + "" == out && log + [] == log;
  }

  /** A log call is posted under its own tag and shown in the log. */
  lemma LogIsShown(screen: Screen, text: string, out: string, err: string, log: seq<string>)
    requires Shows(screen, out, err, log)
    ensures Encode(Log(text)) == "E" + text && Shows(Show(screen, "E" + text), out, err, log + [text])
  {
    ShowOne(screen, Log(text), out, err, log);
    assert out + "" == out && err + "" == err;
  }

  /** Everything else: other ids go to the log with their number, other kinds of message and empty ones nowhere. */
  lemma OtherMessages(screen: Screen, c: char, text: string)
    ensures c != '1' && c != '2' ==>
              Show(screen, "S" + [c] + text) == screen.(log := screen.log + ["port " + [c] + ": " + text])
    ensures c != 'E' && c != 'S' ==> Show(screen, [c] + text) == screen
    ensures Show(screen, "") == screen && Show(screen, "S") == screen.(log := screen.log + ["port undefined: "])
  {
    var data := "S" + [c] + text;
    assert data[1] == c && data[2..] == text;
    assert ([c] + text)[0] == c;
  }

  /** Reads and writes the wrong way are refused: "/dev/stdin" posts nothing, the outputs return no bytes. */
  lemma WrongWay(buf: string, nbytes: nat, result: int)
    ensures WriteAnswer(Named("/dev/stdin"), |buf|) == -1 && Posted(Named("/dev/stdin"), buf) == None
    ensures ReadMayAnswer(Named("/dev/stdout"), nbytes, result) <==> result == -1
    ensures ReadMayAnswer(Named("/dev/stderr"), nbytes, result) <==> result == -1
  {
  }

  /** A read of "/dev/stdin" returns the front of what is buffered, as much as was asked for or all, and leaves the rest;
      it is told to wait, with -2, if that is nothing. */
  lemma StdInFetches(buffer: string, nbytes: nat)
    ensures var (result, data, rest) := ReadAnswer(Named("/dev/stdin"), buffer, nbytes);
            && data + rest == buffer && |data| == (if nbytes <= |buffer| then nbytes else |buffer|)
            && result == if data == "" then -2 else |data|
  {
    TakenFromFront(buffer, nbytes);
  }

  /** A write to a device by its name. */
  datatype NamedWrite = NamedWrite(path: string, buf: string)

  predicate IsOutput(path: string) {
    path == "/dev/stdout" || path == "/dev/stderr"
  }

  function ShowWrites(screen: Screen, ws: seq<NamedWrite>): Screen
    decreases |ws|
  {
    if ws == [] then screen
    else
      var posted := Posted(Named(ws[0].path), ws[0].buf);
      ShowWrites(if posted.None? then screen else Show(screen, posted.value), ws[1..])
  }

  /** What was written under one name. */
  function WrittenTo(path: string, ws: seq<NamedWrite>): string {
    if ws == [] then "" else (if ws[0].path == path then ws[0].buf else "") + WrittenTo(path, ws[1..])
  }

  lemma {:induction false} ShowWritesRun(screen: Screen, ws: seq<NamedWrite>, out: string, err: string, log: seq<string>)
    requires Shows(screen, out, err, log)
    requires forall i :: 0 <= i < |ws| ==> IsOutput(ws[i].path)
    ensures Shows(ShowWrites(screen, ws), out + WrittenTo("/dev/stdout", ws), err + WrittenTo("/dev/stderr", ws), log)
    decreases |ws|
  {
    if ws == [] {
      assert out + "" == out && err + "" == err;
    } else {
      var w, rest := ws[0], ws[1..];
      var o := if w.path == "/dev/stdout" then w.buf else "";
      var e := if w.path == "/dev/stderr" then w.buf else "";
      assert out + "" == out && err + "" == err;
      if w.path == "/dev/stdout" {
        StdOutIsShown(screen, w.buf, out, err, log);
        ShowWritesRun(Show(screen, "S1" + w.buf), rest, out + o, err + e, log);
      } else {
        StdErrIsShown(screen, w.buf, out, err, log);
        ShowWritesRun(Show(screen, "S2" + w.buf), rest, out + o, err + e, log);
      }
      Assoc(out, o, WrittenTo("/dev/stdout", rest));
      Assoc(err, e, WrittenTo("/dev/stderr", rest));
    }
  }

  /** However writes to the two outputs, by name, interleave: the page shows under each stream exactly what was written
      under its name, cut at the newlines. */
  lemma NamesReachStreams(ws: seq<NamedWrite>)
    requires forall i :: 0 <= i < |ws| ==> IsOutput(ws[i].path)
    ensures Shows(ShowWrites(BLANK, ws), WrittenTo("/dev/stdout", ws), WrittenTo("/dev/stderr", ws), [])
  {
    assert Split("", '\n') == [""];
    ShowWritesRun(BLANK, ws, "", "", []);
    assert "" + WrittenTo("/dev/stdout", ws) == WrittenTo("/dev/stdout", ws);
    assert "" + WrittenTo("/dev/stderr", ws) == WrittenTo("/dev/stderr", ws);
  }
}
