/** Path resolution: what `FileSystem::CreateFullpath` computes, stated as a left-to-right stack fold, and the
    laws that hold of it.  The treatment is purely lexical, and `..` at the root is dropped, as section 4.13
    (Pathname Resolution) of IEEE Std 1003.1-2017, Base Definitions, allows. */
module Paths {
  import opened Strings

  predicate Absolute(path: string) {
    path != "" && path[0] == '/'
  }

  /** The path ends in a component that is exactly "."; the splitter keeps such a component. */
  predicate EndsInDot(path: string) {
    Last(Split(path, '/')) == "."
  }

  function Kept(piece: string): seq<string> {
    if piece == "" || piece == "." then [] else [piece]
  }

  /** Drops what the splitter trims in front of a '/'. */
  function Trim(pieces: seq<string>): seq<string> {
    if pieces == [] then [] else Kept(pieces[0]) + Trim(pieces[1..])
  }

  /** The pieces of a path that count: only an empty piece is trimmed at the very end. */
  function Counted(pieces: seq<string>): seq<string>
    requires |pieces| > 0
  {
    Trim(pieces[..|pieces| - 1]) + (if Last(pieces) == "" then [] else [Last(pieces)])
  }

  /** The components of `path`. */
  function Tokens(path: string): seq<string> {
    Counted(Split(path, '/'))
  }

  /** The components of the stored working directory, which are never trimmed. */
  function CwdParts(cwd: string): seq<string> {
    if cwd == "" then [] else Split(cwd, '/')
  }

  /** One component against the stack: ".." pops if it can and is dropped at the root. */
  function Push(stack: seq<string>, c: string): seq<string> {
    if c != ".." then stack + [c]
    else if stack == [] then []
    else stack[..|stack| - 1]
  }

  function Fold(stack: seq<string>, components: seq<string>): seq<string>
    decreases |components|
  {
    if components == [] then stack else Fold(Push(stack, components[0]), components[1..])
  }

  function Base(cwd: string, path: string): seq<string> {
    if Absolute(path) then [] else CwdParts(cwd)
  }

  function Resolve(cwd: string, path: string): seq<string> {
    Fold([], Base(cwd, path) + Tokens(path))
  }

  function Render(components: seq<string>): string {
    "/" + Join(components, '/')
  }

  function FullPath(cwd: string, path: string): (full: string)
    ensures Absolute(full)
  {
    Render(Resolve(cwd, path))
  }

  /** The working directory after an accepted chdir: the full path without its first slash. */
  function NextCwd(cwd: string, path: string): string {
    FullPath(cwd, path)[1..]
  }

  predicate Component(c: string) {
    c != "" && c != ".." && '/' !in c
  }

  ghost predicate Proper(components: seq<string>) {
    forall i :: 0 <= i < |components| ==> Component(components[i])
  }

  ghost predicate CwdOk(cwd: string) {
    Proper(CwdParts(cwd))
  }

  // The fold

  lemma {:induction false} FoldAppend(stack: seq<string>, a: seq<string>, b: seq<string>)
    ensures Fold(stack, a + b) == Fold(Fold(stack, a), b)
    decreases |a|
  {
    if a == [] {
      assert a + b == b;
    } else {
      FoldAppend(Push(stack, a[0]), a[1..], b);
      assert (a + b)[1..] == a[1..] + b;
    }
  }

  lemma FoldSnoc(stack: seq<string>, a: seq<string>, c: string)
    ensures Fold(stack, a + [c]) == Push(Fold(stack, a), c)
  {
    FoldAppend(stack, a, [c]);
    assert Fold(Fold(stack, a), [c]) == Fold(Push(Fold(stack, a), c), []);
  }

  lemma {:induction false} FoldProper(stack: seq<string>, components: seq<string>)
    requires Proper(stack) && Proper(components)
    ensures Fold(stack, components) == stack + components
    decreases |components|
  {
    if components == [] {
      assert stack + components == stack;
    } else {
      FoldProper(stack + [components[0]], components[1..]);
      assert stack + components == stack + [components[0]] + components[1..];
    }
  }

  /** Components that are slash-free and non-empty, ".." allowed. */
  ghost predicate Clean(components: seq<string>) {
    forall i :: 0 <= i < |components| ==> components[i] != "" && '/' !in components[i]
  }

  lemma {:induction false} FoldIsProper(stack: seq<string>, components: seq<string>)
    requires Proper(stack) && Clean(components)
    ensures Proper(Fold(stack, components))
    ensures forall c <- Fold(stack, components) :: c in stack || c in components
    decreases |components|
  {
    if components == [] {
    } else {
      FoldIsProper(Push(stack, components[0]), components[1..]);
    }
  }

  // What a token list does to any stack: it climbs `n` levels and then appends

  datatype Effect = Effect(climb: nat, pushed: seq<string>)

  function Act(e: Effect, components: seq<string>): Effect
    decreases |components|
  {
    if components == [] then e
    else
      var c := components[0];
      var e' := if c != ".." then e.(pushed := e.pushed + [c])
                else if e.pushed == [] then e.(climb := e.climb + 1)
                else e.(pushed := e.pushed[..|e.pushed| - 1]);
      Act(e', components[1..])
  }

  function Climbed(stack: seq<string>, n: nat): seq<string> {
    if n >= |stack| then [] else stack[..|stack| - n]
  }

  lemma {:induction false} FoldActs(stack: seq<string>, e: Effect, components: seq<string>)
    ensures var r := Act(e, components);
            Fold(Climbed(stack, e.climb) + e.pushed, components) == Climbed(stack, r.climb) + r.pushed
    decreases |components|
  {
    if components == [] {
    } else {
      var c, s := components[0], Climbed(stack, e.climb) + e.pushed;
      if c != ".." {
        assert Push(s, c) == Climbed(stack, e.climb) + (e.pushed + [c]);
        FoldActs(stack, e.(pushed := e.pushed + [c]), components[1..]);
      } else if e.pushed == [] {
        assert Push(s, c) == Climbed(stack, e.climb + 1) + [];
        FoldActs(stack, e.(climb := e.climb + 1), components[1..]);
      } else {
        var shorter := e.pushed[..|e.pushed| - 1];
        assert Push(s, c) == Climbed(stack, e.climb) + shorter;
        FoldActs(stack, e.(pushed := shorter), components[1..]);
      }
    }
  }

  /** How many levels above its starting directory `path` reaches. */
  function Climb(path: string): nat {
    Act(Effect(0, []), Tokens(path)).climb
  }

  lemma ClimbedForgets(stack: seq<string>, c: string, n: nat, pushed: seq<string>)
    ensures Climbed(stack + [c], n) + pushed == Climbed(stack, n) + pushed <==> n > |stack|
  {
    if n <= |stack| {
      assert |Climbed(stack + [c], n) + pushed| == |Climbed(stack, n) + pushed| + 1;
    } else {
      assert Climbed(stack + [c], n) == [] && Climbed(stack, n) == [];
    }
  }

  lemma FoldFrom(stack: seq<string>, components: seq<string>)
    ensures var r := Act(Effect(0, []), components); Fold(stack, components) == Climbed(stack, r.climb) + r.pushed
  {
    assert Climbed(stack, 0) + [] == stack;
    FoldActs(stack, Effect(0, []), components);
  }

  /** One more component on the starting stack is invisible in the result exactly when the path climbs past it. */
  lemma FoldForgets(stack: seq<string>, c: string, path: string)
    ensures Fold(stack + [c], Tokens(path)) == Fold(stack, Tokens(path)) <==> Climb(path) > |stack|
  {
    var r := Act(Effect(0, []), Tokens(path));
    FoldFrom(stack, Tokens(path));
    FoldFrom(stack + [c], Tokens(path));
    ClimbedForgets(stack, c, r.climb, r.pushed);
  }

  // Splitting and trimming

  lemma {:induction false} TrimAppend(a: seq<string>, b: seq<string>)
    ensures Trim(a + b) == Trim(a) + Trim(b)
  {
    if a == [] {
      assert a + b == b;
    } else {
      var both, rest := a + b, a[1..];
      assert both[0] == a[0];
      assert both[1..] == rest + b;
      TrimAppend(rest, b);
      Assoc(Kept(a[0]), Trim(rest), Trim(b));
    }
  }

  lemma {:induction false} TrimClean(pieces: seq<string>)
    requires forall i :: 0 <= i < |pieces| ==> '/' !in pieces[i]
    ensures Clean(Trim(pieces)) && "." !in Trim(pieces)
    ensures forall p <- Trim(pieces) :: p in pieces
  {
    if pieces == [] {
    } else {
      TrimClean(pieces[1..]);
    }
  }

  /** Trimming shortens a list of proper components exactly when one of them is ".". */
  lemma {:induction false} TrimLength(pieces: seq<string>)
    requires "" !in pieces
    ensures |Trim(pieces)| <= |pieces|
    ensures "." !in pieces ==> Trim(pieces) == pieces
    ensures "." in pieces ==> |Trim(pieces)| < |pieces|
  {
    if pieces == [] {
    } else {
      var first, rest := pieces[0], pieces[1..];
      InCons(".", first, rest);
      InCons("", first, rest);
      assert pieces == [first] + rest;
      TrimLength(rest);
      assert Kept(first) == if first == "." then [] else [first];
    }
  }

  lemma TokensClean(path: string)
    ensures Clean(Tokens(path))
    ensures "." in Tokens(path) <==> EndsInDot(path)
  {
    var pieces := Split(path, '/');
    TrimClean(pieces[..|pieces| - 1]);
  }

  lemma TrimOne(p: string)
    ensures Trim([p]) == Kept(p)
  {
    assert Kept(p) + [] == Kept(p);
  }

  lemma TrimSnoc(a: seq<string>, p: string)
    ensures Trim(a + [p]) == Trim(a) + Kept(p)
  {
    TrimAppend(a, [p]);
    TrimOne(p);
  }

  /** Only a bare final "." sets the tokens of a path apart from its trimmed pieces. */
  lemma TokensFinalDot(p: string)
    ensures Tokens(p) == Trim(Split(p, '/')) + (if EndsInDot(p) then ["."] else [])
  {
    var a := Split(p, '/');
    assert a == a[..|a| - 1] + [Last(a)];
    TrimSnoc(a[..|a| - 1], Last(a));
  }

  lemma CountedAppend(a: seq<string>, b: seq<string>)
    requires |b| > 0
    ensures Counted(a + b) == Trim(a) + Counted(b)
  {
    var front := b[..|b| - 1];
    assert (a + b)[..|a + b| - 1] == a + front;
    TrimAppend(a, front);
    var tail := if Last(b) == "" then [] else [Last(b)];
    assert Trim(a) + (Trim(front) + tail) == Trim(a) + Trim(front) + tail;
  }

  /** A slash after `p` trims whatever `p` ended in; the rest of the path contributes its own tokens. */
  lemma TokensSlash(p: string, q: string)
    ensures Tokens(p + "/" + q) == Trim(Split(p, '/')) + Tokens(q)
  {
    SplitConcat(p, q, '/');
    CountedAppend(Split(p, '/'), Split(q, '/'));
  }

  lemma TrailingSlash(p: string)
    ensures Tokens(p + "/") == Trim(Split(p, '/'))
  {
    TokensSlash(p, "");
    assert p + "/" + "" == p + "/";
  }

  /** The stored string and its components determine each other. */
  lemma CwdRoundTrip(components: seq<string>)
    requires Proper(components)
    ensures CwdParts(Render(components)[1..]) == components
  {
    assert Render(components)[1..] == Join(components, '/');
    if components != [] {
      SplitJoin(components, '/');
    }
  }

  lemma CwdString(cwd: string)
    ensures Render(CwdParts(cwd)) == "/" + cwd
  {
    if cwd != "" {
      JoinSplit(cwd, '/');
    }
  }

  lemma RenderInjective(a: seq<string>, b: seq<string>)
    requires Proper(a) && Proper(b)
    ensures Render(a) == Render(b) <==> a == b
  {
    CwdRoundTrip(a);
    CwdRoundTrip(b);
  }

  // Laws of resolution

  /** Whatever the path, the resolved components are non-empty, slash-free and not ".."; a "." among them
      comes from the working directory or from a bare final ".". */
  lemma ResolveIsProper(cwd: string, path: string)
    requires CwdOk(cwd)
    ensures Proper(Resolve(cwd, path))
    ensures "." in Resolve(cwd, path) ==> "." in CwdParts(cwd) || EndsInDot(path)
    ensures CwdParts(NextCwd(cwd, path)) == Resolve(cwd, path)
    ensures CwdOk(NextCwd(cwd, path))
  {
    TokensClean(path);
    FoldIsProper([], Base(cwd, path) + Tokens(path));
    CwdRoundTrip(Resolve(cwd, path));
  }

  /** Resolving after a chdir starts from what the chdir resolved to. */
  lemma ResolveAfter(cwd: string, p: string, q: string)
    requires CwdOk(cwd) && !Absolute(q)
    ensures Resolve(NextCwd(cwd, p), q) == Fold(Resolve(cwd, p), Tokens(q))
  {
    ResolveIsProper(cwd, p);
    var r := Resolve(cwd, p);
    FoldAppend([], r, Tokens(q));
    FoldProper([], r);
    assert [] + r == r;
  }

  /** Resolution composes: chdir(p) and then q gives the same path as p + "/" + q, unless p ends in a bare "."
      and q does not climb above the directory p names. */
  lemma ResolutionComposes(cwd: string, p: string, q: string)
    requires CwdOk(cwd) && p != "" && !Absolute(q)
    ensures FullPath(NextCwd(cwd, p), q) == FullPath(cwd, p + "/" + q)
            <==> !EndsInDot(p) || Climb(q) > |Resolve(cwd, p + "/")|
  {
    var pq := p + "/" + q;
    ComposedStems(cwd, p, q);
    ResolveStem(cwd, p);
    ResolveAfter(cwd, p, q);
    if EndsInDot(p) {
      FoldForgets(Stem(cwd, p), ".", q);
    }
    ResolveIsProper(cwd, p);
    ResolveIsProper(NextCwd(cwd, p), q);
    ResolveIsProper(cwd, pq);
    RenderInjective(Resolve(NextCwd(cwd, p), q), Resolve(cwd, pq));
  }

  function Stem(cwd: string, p: string): seq<string> {
    Fold([], Base(cwd, p) + Trim(Split(p, '/')))
  }

  /** A bare final "." is pushed on top of what the rest of the path resolves to. */
  lemma ResolveStem(cwd: string, p: string)
    ensures Resolve(cwd, p) == (if EndsInDot(p) then Stem(cwd, p) + ["."] else Stem(cwd, p))
  {
    var base, trimmed := Base(cwd, p), Trim(Split(p, '/'));
    TokensFinalDot(p);
    if EndsInDot(p) {
      FoldThree(base, trimmed, ["."]);
      FoldSnoc([], base + trimmed, ".");
    } else {
      assert trimmed + [] == trimmed;
    }
  }

  lemma ComposedStems(cwd: string, p: string, q: string)
    requires p != ""
    ensures Resolve(cwd, p + "/") == Stem(cwd, p)
    ensures Resolve(cwd, p + "/" + q) == Fold(Stem(cwd, p), Tokens(q))
  {
    TrailingSlash(p);
    TokensSlash(p, q);
    FoldThree(Base(cwd, p), Trim(Split(p, '/')), Tokens(q));
  }

  lemma FoldThree(a: seq<string>, b: seq<string>, c: seq<string>)
    ensures Fold([], a + (b + c)) == Fold(Fold([], a + b), c)
  {
    assert a + (b + c) == (a + b) + c;
    FoldAppend([], a + b, c);
  }

  /** An empty path names the working directory, and chdir("") changes nothing. */
  lemma EmptyPath(cwd: string)
    requires CwdOk(cwd)
    ensures NextCwd(cwd, "") == cwd
  {
    assert Tokens("") == [];
    assert CwdParts(cwd) + [] == CwdParts(cwd);
    FoldProper([], CwdParts(cwd));
    assert [] + CwdParts(cwd) == CwdParts(cwd);
    CwdString(cwd);
  }

  lemma CountedPlain(components: seq<string>)
    requires Proper(components) && components != [] && "." !in components
    ensures Counted(components) == components
  {
    var front, last := components[..|components| - 1], Last(components);
    FrontLast(components);
    forall i | 0 <= i < |front| ensures front[i] != "" && front[i] != "." {
      assert front[i] == components[i] && components[i] in components;
    }
    TrimLength(front);
    assert Component(components[|components| - 1]);
  }

  lemma SlashInFront(path: string)
    ensures Tokens("/" + path) == Tokens(path)
  {
    TokensSlash("", path);
    assert "" + "/" + path == "/" + path;
    assert Split("", '/') == [""];
    TrimOne("");
    assert [] + Tokens(path) == Tokens(path);
  }

  lemma PlainTokens(components: seq<string>)
    requires Proper(components) && components != [] && "." !in components
    ensures Tokens(Join(components, '/')) == components && Tokens("/" + Join(components, '/')) == components
  {
    SplitJoin(components, '/');
    CountedPlain(components);
    SlashInFront(Join(components, '/'));
  }

  /** A path without ".." and "." is taken as it is: an absolute one names itself, a relative one is put behind the
      working directory. */
  lemma PlainPaths(cwd: string, components: seq<string>)
    requires CwdOk(cwd) && Proper(components) && components != [] && "." !in components
    ensures FullPath(cwd, "/" + Join(components, '/')) == "/" + Join(components, '/')
    ensures FullPath(cwd, Join(components, '/'))
            == (if cwd == "" then "" else "/" + cwd) + ("/" + Join(components, '/'))
  {
    var joined := Join(components, '/');
    PlainTokens(components);
    FoldProper([], components);
    assert [] + components == components;
    RelativeJoin(components);
    FoldProper([], CwdParts(cwd) + components);
    assert [] + (CwdParts(cwd) + components) == CwdParts(cwd) + components;
    PlainBehind(cwd, components);
  }

  lemma RelativeJoin(components: seq<string>)
    requires Proper(components) && components != []
    ensures !Absolute(Join(components, '/'))
  {
    assert components[0][0] != '/';
    if |components| > 1 {
      assert Join(components, '/')[0] == components[0][0];
    }
  }

  lemma PlainBehind(cwd: string, components: seq<string>)
    requires components != []
    ensures Render(CwdParts(cwd) + components) == (if cwd == "" then "" else "/" + cwd) + ("/" + Join(components, '/'))
  {
    if cwd == "" {
      assert [] + components == components;
    } else {
      JoinConcat(Split(cwd, '/'), components);
      JoinSplit(cwd, '/');
      Assoc("/", cwd, "/" + Join(components, '/'));
      Assoc(cwd, "/", Join(components, '/'));
    }
  }

  lemma {:induction false} JoinConcat(a: seq<string>, b: seq<string>)
    requires a != [] && b != []
    ensures Join(a + b, '/') == Join(a, '/') + "/" + Join(b, '/')
    decreases |a|
  {
    if |a| == 1 {
      assert (a + b)[1..] == b;
    } else {
      TailOfAppend(a, b);
      JoinConcat(a[1..], b);
      var first, rest := a[0] + "/", Join(a[1..], '/');
      Assoc(first, rest + "/", Join(b, '/'));
      Assoc(first, rest, "/");
    }
  }

  /** ".." names the directory that the working directory is in, and the root from the root. */
  lemma ParentPath(cwd: string)
    requires CwdOk(cwd)
    ensures var parts := CwdParts(cwd);
            FullPath(cwd, "..") == Render(if parts == [] then [] else parts[..|parts| - 1])
  {
    var parts := CwdParts(cwd);
    SplitFree("..", '/');
    assert Tokens("..") == [] + [".."] == [".."];
    FoldProper([], parts);
    assert [] + parts == parts;
    FoldSnoc([], parts, "..");
  }

  /** ".." at the root names the root: a leading "../" disappears when the path starts at the root. */
  lemma ParentOfRoot(q: string)
    ensures Resolve("", "../" + q) == Fold([], Tokens(q)) == Resolve("", "/../" + q)
    ensures !Absolute(q) ==> FullPath("", "../" + q) == FullPath("", q) == FullPath("", "/../" + q)
  {
    TokensSlash("..", q);
    TokensSlash("/..", q);
    assert ".." + "/" + q == "../" + q && "/.." + "/" + q == "/../" + q;
    SplitFree("..", '/');
    assert "/.."[1..] == "..";
    assert Split("/..", '/') == [""] + [".."];
    TrimAppend([""], [".."]);
    assert Trim([".."]) == [".."] + Trim([]) && Trim([""]) == [] + Trim([]);
    assert [] + [".."] == [".."] && [] + Tokens(q) == Tokens(q);
    FoldThree([], [".."], Tokens(q));
    assert Fold([], [".."]) == Fold(Push([], ".."), []);
  }

  /** chdir(getcwd()) leaves the working directory alone exactly when no component but the last is ".". */
  lemma ChdirToGetcwd(cwd: string)
    requires CwdOk(cwd)
    ensures NextCwd(cwd, "/" + cwd) == cwd
            <==> (forall i :: 0 <= i < |CwdParts(cwd)| - 1 ==> CwdParts(cwd)[i] != ".")
  {
    var parts := CwdParts(cwd);
    CwdString(cwd);
    TokensOfGetcwd(cwd);
    if cwd != "" {
      var front := parts[..|parts| - 1];
      var tokens := Trim(front) + [Last(parts)];
      TrimmedFront(parts);
      FoldProper([], tokens);
      assert [] + tokens == tokens;
      assert Resolve(cwd, "/" + cwd) == tokens;
      RenderInjective(tokens, parts);
      DotInFront(parts);
    }
  }

  lemma TrimmedFront(parts: seq<string>)
    requires Proper(parts) && |parts| > 0
    ensures var front := parts[..|parts| - 1];
            var tokens := Trim(front) + [Last(parts)];
            Proper(tokens) && (tokens == parts <==> "." !in front)
  {
    var front := parts[..|parts| - 1];
    TrimLength(front);
    TrimClean(front);
    forall i | 0 <= i < |Trim(front)| ensures Component(Trim(front)[i]) {
      assert Trim(front)[i] in front;
    }
    assert parts == front + [Last(parts)];
  }

  lemma DotInFront(parts: seq<string>)
    requires |parts| > 0
    ensures "." in parts[..|parts| - 1] <==> exists i :: 0 <= i < |parts| - 1 && parts[i] == "."
  {
    var front := parts[..|parts| - 1];
    forall i | 0 <= i < |parts| - 1 && parts[i] == "." ensures "." in front {
      assert front[i] == ".";
    }
  }

  lemma TokensOfGetcwd(cwd: string)
    ensures var parts := CwdParts(cwd);
            Tokens("/" + cwd) == (if cwd == "" then [] else Tokens(cwd))
  {
    SlashInFront(cwd);
  }

  /** Resolving a resolved path again, from anywhere, changes nothing exactly when no component but the last is "."
      in it; from a working directory without "." components that is always so. */
  lemma ResolutionIdempotent(cwd: string, path: string, elsewhere: string)
    requires CwdOk(cwd)
    ensures var r := Resolve(cwd, path);
            FullPath(elsewhere, FullPath(cwd, path)) == FullPath(cwd, path)
            <==> (forall i :: 0 <= i < |r| - 1 ==> r[i] != ".")
    ensures "." !in CwdParts(cwd) ==> FullPath(elsewhere, FullPath(cwd, path)) == FullPath(cwd, path)
  {
    ResolveIsProper(cwd, path);
    ChdirToGetcwd(NextCwd(cwd, path));
    if "." !in CwdParts(cwd) {
      DotOnlyLast(cwd, path);
    }
  }

  lemma DotOnlyLast(cwd: string, path: string)
    requires CwdOk(cwd) && "." !in CwdParts(cwd)
    ensures var r := Resolve(cwd, path); forall i :: 0 <= i < |r| - 1 ==> r[i] != "."
  {
    ResolveStem(cwd, path);
    TrimClean(Split(path, '/'));
    FoldIsProper([], Base(cwd, path) + Trim(Split(path, '/')));
    assert "." !in Stem(cwd, path);
  }

  // A path where the laws fail

  lemma OnePiece(p: string)
    requires Component(p)
    ensures Split(p, '/') == [p] && Tokens(p) == [p] && (p != "." ==> Trim(Split(p, '/')) == [p])
  {
    SplitFree(p, '/');
    TrimOne(p);
    assert [p][..0] == [] && [] + [p] == [p];
  }

  /** After a path that ends in a bare ".", the dot stays in front of whatever comes next. */
  lemma FinalDotStays(cwd: string, p: string, c: string)
    requires CwdOk(cwd) && EndsInDot(p) && Component(c)
    ensures Climb(c) == 0
    ensures var parts := Resolve(NextCwd(cwd, p), c);
            |parts| >= 2 && parts[|parts| - 2] == "." && CwdParts(NextCwd(NextCwd(cwd, p), c)) == parts
  {
    OnePiece(c);
    assert Act(Effect(0, []), [c]) == Act(Effect(0, [] + [c]), []);
    ResolveStem(cwd, p);
    ResolveAfter(cwd, p, c);
    ResolveIsProper(cwd, p);
    ResolveIsProper(NextCwd(cwd, p), c);
    FoldProper(Resolve(cwd, p), [c]);
  }

  /** Every path that ends in a bare "." breaks the three laws, followed by any component: it does not compose with
      it, chdir(getcwd()) leaves the directory reached, and the resolved path is not yet resolved. */
  lemma FinalDotBreaksLaws(cwd: string, p: string, c: string, elsewhere: string)
    requires CwdOk(cwd) && EndsInDot(p) && Component(c)
    ensures FullPath(NextCwd(cwd, p), c) != FullPath(cwd, p + "/" + c)
    ensures var there := NextCwd(NextCwd(cwd, p), c); CwdOk(there) && NextCwd(there, "/" + there) != there
    ensures FullPath(elsewhere, FullPath(NextCwd(cwd, p), c)) != FullPath(NextCwd(cwd, p), c)
  {
    SplitFree("", '/');
    ResolveIsProper(cwd, p);
    ResolveIsProper(NextCwd(cwd, p), c);
    FinalDotStays(cwd, p, c);
    ResolutionComposes(cwd, p, c);
    ChdirToGetcwd(NextCwd(NextCwd(cwd, p), c));
    ResolutionIdempotent(NextCwd(cwd, p), c, elsewhere);
  }

  lemma ADotEndsInDot()
    ensures EndsInDot("a/.") && Component("b")
  {
    SplitFree(".", '/');
    SplitConcat("a", ".", '/');
    assert "a" + "/" + "." == "a/.";
  }

  /** For example "a/." and "b", starting at the root: two accepted chdir calls reach the directory. */
  lemma LawsCanFail(elsewhere: string)
    ensures FullPath(NextCwd("", "a/."), "b") != FullPath("", "a/." + "/" + "b")
    ensures var there := AfterChdirs("", [Chdir("a/.", true), Chdir("b", true)]); NextCwd(there, "/" + there) != there
    ensures FullPath(elsewhere, FullPath(NextCwd("", "a/."), "b")) != FullPath(NextCwd("", "a/."), "b")
  {
    ADotEndsInDot();
    FinalDotBreaksLaws("", "a/.", "b", elsewhere);
    TwoChdirs("", "a/.", "b");
  }

  lemma TwoChdirs(cwd: string, p: string, q: string)
    ensures AfterChdirs(cwd, [Chdir(p, true), Chdir(q, true)]) == NextCwd(NextCwd(cwd, p), q)
  {
    var last := [Chdir(q, true)];
    assert [Chdir(p, true), Chdir(q, true)][1..] == last;
    assert AfterChdirs(NextCwd(cwd, p), last) == AfterChdirs(NextCwd(NextCwd(cwd, p), q), last[1..]);
  }

  // Runs of chdir calls

  /** One call to chdir: whether it is accepted is up to `Stat`. */
  datatype Chdir = Chdir(path: string, accepted: bool)

  function AfterChdirs(cwd: string, calls: seq<Chdir>): string
    decreases |calls|
  {
    if calls == [] then cwd
    else AfterChdirs(if calls[0].accepted then NextCwd(cwd, calls[0].path) else cwd, calls[1..])
  }

  /** After any run of chdir calls the working directory re-splits into proper components, and it has a "."
      component only if some accepted argument ended in a bare ".". */
  lemma {:induction false} ChdirRun(cwd: string, calls: seq<Chdir>)
    requires CwdOk(cwd)
    ensures var end := AfterChdirs(cwd, calls);
            && CwdOk(end)
            && Render(CwdParts(end)) == "/" + end
            && ("." in CwdParts(end) ==>
                  "." in CwdParts(cwd) || exists call <- calls :: call.accepted && EndsInDot(call.path))
    decreases |calls|
  {
    if calls == [] {
      CwdString(cwd);
    } else {
      ResolveIsProper(cwd, calls[0].path);
      ChdirRun(if calls[0].accepted then NextCwd(cwd, calls[0].path) else cwd, calls[1..]);
    }
  }
}
