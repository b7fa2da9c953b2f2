/** Texts cut at newlines and joined again: Rust's `str::lines`, Python's `split("\n")` and `join`. */
module Newlines {
  import opened Text

  predicate IsNewline(c: char) { c == '\n' }

  function Split(s: string): (ls: seq<string>)
    ensures ls != []
    decreases |s|
  {
    var n := FirstOf(s, IsNewline);
    if n == |s| then [s] else [s[..n]] + Split(s[n + 1..])
  }

  /** `str::lines`: no empty line after a final newline.  A carriage return before the newline is left to
      the trimming that follows. */
  function TextLines(s: string): seq<string> {
    var ls := Split(s);
    if ls[|ls| - 1] == "" then ls[..|ls| - 1] else ls
  }

  function Join(parts: seq<string>, sep: string): string {
    if parts == [] then ""
    else if |parts| == 1 then parts[0]
    else parts[0] + sep + Join(parts[1..], sep)
  }

  lemma SplitAt(first: string, rest: string)
    requires Free(first, IsNewline)
    ensures Split(first + "\n" + rest) == [first] + Split(rest)
  {
    var s := first + "\n" + rest;
    assert s[..|first|] == first && s[|first| + 1..] == rest;
    FirstOfIs(s, IsNewline, |first|);
  }

  lemma {:induction false} SplitConcat(a: string, b: string)
    ensures Split(a + "\n" + b) == Split(a) + Split(b)
    decreases |a|
  {
    hide Split, Free;
    var n := FirstOf(a, IsNewline);
    if n == |a| {
      assert a[..n] == a;
      SplitAt(a, b);
      SplitOne(a);
    } else {
      var first, rest := a[..n], a[n + 1..];
      SplitConcat(rest, b);
      SplitAt(first, rest);
      SplitAt(first, rest + "\n" + b);
      assert a == first + "\n" + rest;
      assert a + "\n" + b == first + "\n" + (rest + "\n" + b);
    }
  }

  lemma SplitOne(s: string)
    requires Free(s, IsNewline)
    ensures Split(s) == [s]
  {
    assert s[..|s|] == s;
    FirstOfIs(s, IsNewline, |s|);
  }

  lemma {:induction false} SplitLinesFree(s: string)
    ensures forall l <- Split(s) :: Free(l, IsNewline)
    decreases |s|
  {
    var n := FirstOf(s, IsNewline);
    if n < |s| {
      SplitLinesFree(s[n + 1..]);
    } else {
      assert s[..n] == s;
    }
  }

  lemma {:induction false} SplitOfJoin(ls: seq<string>)
    requires ls != [] && forall l <- ls :: Free(l, IsNewline)
    ensures Split(Join(ls, "\n")) == ls
  {
    hide Split, Free;
    if |ls| == 1 {
      SplitOne(ls[0]);
    } else {
      SplitAt(ls[0], Join(ls[1..], "\n"));
      SplitOfJoin(ls[1..]);
    }
  }
}
