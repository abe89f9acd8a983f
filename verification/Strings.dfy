/** Splitting and joining strings on one separator character.  Path resolution (separator '/') and the
    line buffers of the browser page (separator '\n') both rest on these two functions. */
module Strings {

  /** The maximal separator-free pieces of `s`, in order, empty pieces included. */
  function Split(s: string, sep: char): (parts: seq<string>)
    ensures |parts| > 0
    ensures forall i :: 0 <= i < |parts| ==> sep !in parts[i]
  {
    if s == "" then [""]
    else
      var rest := Split(s[1..], sep);
      if s[0] == sep then [""] + rest else [[s[0]] + rest[0]] + rest[1..]
  }

  function Join(parts: seq<string>, sep: char): string {
    if |parts| == 0 then ""
    else if |parts| == 1 then parts[0]
    else parts[0] + [sep] + Join(parts[1..], sep)
  }

  function Last<T>(s: seq<T>): T
    requires |s| > 0
  {
    s[|s| - 1]
  }

  lemma Assoc<T>(a: seq<T>, b: seq<T>, c: seq<T>)
    ensures a + b + c == a + (b + c)
  {
  }

  lemma FrontLast<T>(s: seq<T>)
    requires |s| > 0
    ensures s == s[..|s| - 1] + [Last(s)]
  {
  }

  lemma FrontOfSnoc<T>(s: seq<T>, x: T)
    ensures (s + [x])[..|s|] == s && Last(s + [x]) == x
  {
  }

  lemma FrontCons<T>(x: T, s: seq<T>)
    requires |s| > 0
    ensures ([x] + s)[..|s|] == [x] + s[..|s| - 1] && Last([x] + s) == Last(s)
  {
  }

  lemma TailOfAppend<T>(a: seq<T>, b: seq<T>)
    requires |a| > 0
    ensures (a + b)[0] == a[0] && (a + b)[1..] == a[1..] + b
  {
  }

  lemma InCons<T>(x: T, first: T, rest: seq<T>)
    ensures x in [first] + rest <==> x == first || x in rest
  {
  }

  lemma {:induction false} SplitFree(s: string, sep: char)
    requires sep !in s
    ensures Split(s, sep) == [s]
  {
    if s == "" {
    } else {
      SplitFree(s[1..], sep);
      assert [s[0]] + s[1..] == s;
    }
  }

  /** What putting one character in front of a text does to its pieces. */
  function Cons(c: char, pieces: seq<string>, sep: char): seq<string>
    requires |pieces| > 0
  {
    if c == sep then [""] + pieces else [[c] + pieces[0]] + pieces[1..]
  }

  lemma SplitCons(c: char, s: string, sep: char)
    ensures Split([c] + s, sep) == Cons(c, Split(s, sep), sep)
  {
    assert ([c] + s)[1..] == s;
  }

  /** Text appended to `a` only ever changes the last piece of `a`. */
  lemma {:induction false} SplitAppend(a: string, b: string, sep: char)
    ensures var p := Split(a, sep); Split(a + b, sep) == p[..|p| - 1] + Split(Last(p) + b, sep)
  {
    if a == "" {
      assert a + b == b;
    } else {
      assert a == [a[0]] + a[1..];
      SplitAppend(a[1..], b, sep);
      SplitAppendCons(a[0], a[1..], b, sep);
    }
  }

  lemma SplitAppendCons(c: char, rest: string, b: string, sep: char)
    requires var r := Split(rest, sep); Split(rest + b, sep) == r[..|r| - 1] + Split(Last(r) + b, sep)
    ensures var p := Split([c] + rest, sep); Split([c] + rest + b, sep) == p[..|p| - 1] + Split(Last(p) + b, sep)
  {
    Assoc([c], rest, b);
    SplitCons(c, rest, sep);
    SplitCons(c, rest + b, sep);
    ConsStep(c, Split(rest, sep), b, sep);
  }

  /** The step of `SplitAppend`, on pieces. */
  lemma ConsStep(c: char, r: seq<string>, b: string, sep: char)
    requires |r| > 0
    ensures var p, tail := Cons(c, r, sep), Split(Last(r) + b, sep);
            Cons(c, r[..|r| - 1] + tail, sep) == p[..|p| - 1] + Split(Last(p) + b, sep)
  {
    var tail := Split(Last(r) + b, sep);
    if c != sep && |r| == 1 {
      Assoc([c], r[0], b);
      SplitCons(c, r[0] + b, sep);
      assert r[..0] + tail == tail;
    } else {
      ConsAppend(c, r, tail, sep);
    }
  }

  lemma ConsAppend(c: char, r: seq<string>, tail: seq<string>, sep: char)
    requires |r| > 0 && |tail| > 0 && (c == sep || |r| > 1)
    ensures Last(Cons(c, r, sep)) == Last(r)
    ensures Cons(c, r[..|r| - 1] + tail, sep) == Cons(c, r, sep)[..|Cons(c, r, sep)| - 1] + tail
  {
    var front := r[..|r| - 1];
    if c == sep {
      FrontCons("", r);
      Assoc([""], front, tail);
    } else {
      var first, rest := [c] + r[0], r[1..];
      FrontCons(first, rest);
      assert front[1..] == rest[..|rest| - 1];
      TailOfAppend(front, tail);
      Assoc([first], front[1..], tail);
    }
  }

  lemma {:induction false} SplitConcat(a: string, b: string, sep: char)
    ensures Split(a + [sep] + b, sep) == Split(a, sep) + Split(b, sep)
  {
    var p := Split(a, sep);
    Assoc(a, [sep], b);
    SplitAppend(a, [sep] + b, sep);
    FreeThenSep(Last(p), b, sep);
    FrontLast(p);
    Assoc(p[..|p| - 1], [Last(p)], Split(b, sep));
  }

  lemma {:induction false} FreeThenSep(a: string, b: string, sep: char)
    requires sep !in a
    ensures Split(a + ([sep] + b), sep) == [a] + Split(b, sep)
  {
    var s := a + ([sep] + b);
    if a == "" {
      assert s[1..] == b;
    } else {
      FreeThenSep(a[1..], b, sep);
      assert s[1..] == a[1..] + ([sep] + b);
      assert [a[0]] + a[1..] == a;
      assert ([a[1..]] + Split(b, sep))[1..] == Split(b, sep);
    }
  }

  lemma {:induction false} JoinSplit(s: string, sep: char)
    ensures Join(Split(s, sep), sep) == s
  {
    if s == "" {
    } else {
      JoinSplit(s[1..], sep);
      var rest := Split(s[1..], sep);
      if s[0] == sep {
        assert ([""] + rest)[1..] == rest;
      } else {
        assert ([[s[0]] + rest[0]] + rest[1..])[1..] == rest[1..];
      }
    }
  }

  lemma {:induction false} SplitJoin(parts: seq<string>, sep: char)
    requires |parts| > 0
    requires forall i :: 0 <= i < |parts| ==> sep !in parts[i]
    ensures Split(Join(parts, sep), sep) == parts
  {
    if |parts| == 1 {
      SplitFree(parts[0], sep);
    } else {
      SplitJoin(parts[1..], sep);
      SplitConcat(parts[0], Join(parts[1..], sep), sep);
      SplitFree(parts[0], sep);
    }
  }

  lemma {:induction false} JoinSnoc(parts: seq<string>, p: string, sep: char)
    requires |parts| > 0
    ensures Join(parts + [p], sep) == Join(parts, sep) + [sep] + p
  {
    if |parts| == 1 {
      assert (parts + [p])[1..] == [p];
    } else {
      JoinSnoc(parts[1..], p, sep);
      TailOfAppend(parts, [p]);
      var first, rest := parts[0] + [sep], Join(parts[1..], sep);
      Assoc(first, rest + [sep], p);
      Assoc(first, rest, [sep]);
    }
  }
}
