/** Strings as the scripts and the daemon handle them: trimming, searching, lines. */
module Text {

  datatype Option<+T> = None | Some(value: T)

  /** White space of Python's `str.strip` and `str.isspace`. */
  predicate PySpace(c: char) {
    RustSpace(c) || '\U{1C}' <= c <= '\U{1F}'
  }

  /** White space of Rust's `str::trim` and `char::is_whitespace` (Unicode White_Space). */
  predicate RustSpace(c: char) {
    || c == ' '
    || '\t' <= c <= '\r'
    || c == '\U{85}' || c == '\U{A0}' || c == '\U{1680}'
    || '\U{2000}' <= c <= '\U{200A}'
    || c == '\U{2028}' || c == '\U{2029}' || c == '\U{202F}' || c == '\U{205F}' || c == '\U{3000}'
  }

  predicate IsColon(c: char) { c == ':' }

  predicate IsQuote(c: char) { c == '"' }

  function TrimStart(s: string, space: char -> bool): string {
    if s != "" && space(s[0]) then TrimStart(s[1..], space) else s
  }

  function TrimEnd(s: string, space: char -> bool): string {
    if s != "" && space(s[|s| - 1]) then TrimEnd(s[..|s| - 1], space) else s
  }

  function Trim(s: string, space: char -> bool): string {
    TrimEnd(TrimStart(s, space), space)
  }

  lemma {:induction false} TrimStartSpec(s: string, space: char -> bool)
    ensures var r := TrimStart(s, space); |r| <= |s| && r == s[|s| - |r|..] && (r == "" || !space(r[0]))
  {
    if s != "" && space(s[0]) {
      TrimStartSpec(s[1..], space);
    }
  }

  lemma {:induction false} TrimEndSpec(s: string, space: char -> bool)
    ensures var r := TrimEnd(s, space); r <= s && (r == "" || !space(r[|r| - 1]))
  {
    if s != "" && space(s[|s| - 1]) {
      TrimEndSpec(s[..|s| - 1], space);
    }
  }

  /** Neither end is white space, so trimming does nothing. */
  predicate Trimmed(s: string, space: char -> bool) {
    s == "" || (!space(s[0]) && !space(s[|s| - 1]))
  }

  lemma TrimOfTrimmed(s: string, space: char -> bool)
    requires Trimmed(s, space)
    ensures Trim(s, space) == TrimStart(s, space) == TrimEnd(s, space) == s
  {
  }

  lemma TrimIsTrimmed(s: string, space: char -> bool)
    ensures Trimmed(Trim(s, space), space)
  {
    hide TrimStart, TrimEnd;
    TrimStartSpec(s, space);
    TrimEndSpec(TrimStart(s, space), space);
  }

  /** Every character of `s` is white space. */
  predicate Blank(s: string, space: char -> bool) {
    forall i | 0 <= i < |s| :: space(s[i])
  }

  lemma {:induction false} TrimStartSkips(pre: string, s: string, space: char -> bool)
    requires Blank(pre, space)
    ensures TrimStart(pre + s, space) == TrimStart(s, space)
  {
    if pre == "" {
      assert pre + s == s;
    } else {
      assert (pre + s)[1..] == pre[1..] + s;
      TrimStartSkips(pre[1..], s, space);
    }
  }

  lemma {:induction false} TrimEndSkips(s: string, post: string, space: char -> bool)
    requires Blank(post, space)
    ensures TrimEnd(s + post, space) == TrimEnd(s, space)
  {
    if post == "" {
      assert s + post == s;
    } else {
      var n := |post| - 1;
      assert (s + post)[..|s| + n] == s + post[..n];
      TrimEndSkips(s, post[..n], space);
    }
  }

  lemma TrimBetween(pre: string, core: string, post: string, space: char -> bool)
    requires Blank(pre, space) && Blank(post, space) && core != "" && Trimmed(core, space)
    ensures Trim(pre + core + post, space) == core
  {
    hide TrimStart, TrimEnd;
    assert pre + core + post == pre + (core + post);
    TrimStartSkips(pre, core + post, space);
    StartsSolid(core + post, space);
    TrimEndSkips(core, post, space);
    TrimOfTrimmed(core, space);
  }

  /** What trimming cuts off is white space. */
  lemma {:induction false} TrimStartCuts(s: string, space: char -> bool) returns (pre: string)
    ensures Blank(pre, space) && s == pre + TrimStart(s, space)
  {
    pre := "";
    if s != "" && space(s[0]) {
      pre := TrimStartCuts(s[1..], space);
      pre := [s[0]] + pre;
    }
  }

  lemma {:induction false} TrimEndCuts(s: string, space: char -> bool) returns (post: string)
    ensures Blank(post, space) && s == TrimEnd(s, space) + post
  {
    post := "";
    if s != "" && space(s[|s| - 1]) {
      post := TrimEndCuts(s[..|s| - 1], space);
      post := post + [s[|s| - 1]];
    }
  }

  lemma TrimCuts(s: string, space: char -> bool) returns (pre: string, post: string)
    ensures Blank(pre, space) && Blank(post, space) && s == pre + Trim(s, space) + post
  {
    pre := TrimStartCuts(s, space);
    post := TrimEndCuts(TrimStart(s, space), space);
  }

  lemma TrimOfBlank(s: string, space: char -> bool)
    requires Blank(s, space)
    ensures Trim(s, space) == ""
  {
    assert s + "" == s;
    TrimStartSkips(s, "", space);
  }

  /** `core` is `s` without the white space around it. */
  ghost predicate Stripped(s: string, core: string, space: char -> bool) {
    && Trimmed(core, space)
    && exists a: string, b: string :: Blank(a, space) && Blank(b, space) && s == a + core + b
  }

  /** Trimming strips, and nothing else does. */
  lemma StrippedIff(s: string, core: string, space: char -> bool)
    ensures Trim(s, space) == core <==> Stripped(s, core, space)
  {
    hide TrimStart, TrimEnd, Trim;
    if Stripped(s, core, space) {
      var a: string, b: string :| Blank(a, space) && Blank(b, space) && s == a + core + b;
      if core == "" {
        assert s == a + b;
        TrimOfBlank(s, space);
      } else {
        TrimBetween(a, core, b, space);
      }
    }
    if Trim(s, space) == core {
      var a, b := TrimCuts(s, space);
      TrimIsTrimmed(s, space);
    }
  }

  lemma StartsSolid(s: string, space: char -> bool)
    requires s != "" && !space(s[0])
    ensures TrimStart(s, space) == s
  {
  }

  lemma {:induction false} TrimEndKeeps(solid: string, rest: string, space: char -> bool)
    requires solid != "" && !space(solid[|solid| - 1])
    ensures TrimEnd(solid + rest, space) == solid + TrimEnd(rest, space)
  {
    if rest == "" {
      assert solid + rest == solid;
    } else {
      var n := |rest| - 1;
      assert (solid + rest)[..|solid| + n] == solid + rest[..n];
      TrimEndKeeps(solid, rest[..n], space);
    }
  }

  lemma {:induction false} TrimDropsLast(s: string, c: char, space: char -> bool)
    requires space(c)
    ensures Trim(s + [c], space) == Trim(s, space)
  {
    if s == "" {
      assert s + [c] == [c] && [c][1..] == "";
    } else {
      assert (s + [c])[1..] == s[1..] + [c] && (s + [c])[..|s|] == s;
      TrimDropsLast(s[1..], c, space);
    }
  }

  lemma {:induction false} TrimTwice(s: string, space: char -> bool)
    ensures Trim(TrimEnd(s, space), space) == Trim(s, space)
  {
    if s != "" && space(s[|s| - 1]) {
      var n := |s| - 1;
      TrimTwice(s[..n], space);
      TrimDropsLast(s[..n], s[n], space);
      assert s == s[..n] + [s[n]];
    }
  }

  predicate EndsWith(s: string, suffix: string) {
    |suffix| <= |s| && s[|s| - |suffix|..] == suffix
  }

  /** No character of `s` is a stop. */
  predicate Free(s: string, stop: char -> bool) {
    forall i | 0 <= i < |s| :: !stop(s[i])
  }

  lemma SliceFree(s: string, lo: nat, hi: nat, stop: char -> bool)
    requires lo <= hi <= |s| && Free(s, stop)
    ensures Free(s[lo..hi], stop)
  {
  }

  lemma FreeConcat(a: string, b: string, stop: char -> bool)
    ensures Free(a + b, stop) <==> Free(a, stop) && Free(b, stop)
  {
    assert (a + b)[..|a|] == a && (a + b)[|a|..] == b;
    if Free(a + b, stop) {
      SliceFree(a + b, 0, |a|, stop);
      SliceFree(a + b, |a|, |a + b|, stop);
    }
  }

  lemma TrimFree(s: string, space: char -> bool, stop: char -> bool)
    requires Free(s, stop)
    ensures Free(Trim(s, space), stop)
  {
    hide TrimStart, TrimEnd;
    var t := TrimStart(s, space);
    var r := TrimEnd(t, space);
    TrimStartSpec(s, space);
    TrimEndSpec(t, space);
    assert forall i | 0 <= i < |r| :: r[i] == t[i] == s[|s| - |t| + i];
  }

  /** The first index holding a stop, or the length. */
  function FirstOf(s: string, stop: char -> bool): (n: nat)
    ensures n <= |s|
    ensures n < |s| ==> stop(s[n])
    ensures Free(s[.. n], stop)
  {
    if s == "" || stop(s[0]) then 0
    else
      var n := 1 + FirstOf(s[1..], stop);
      assert forall i | 0 < i < n :: s[..n][i] == s[1..][..n - 1][i - 1];
      n
  }

  lemma {:induction false} FirstOfIs(s: string, stop: char -> bool, n: nat)
    requires n <= |s| && (n < |s| ==> stop(s[n]))
    requires Free(s[..n], stop)
    ensures FirstOf(s, stop) == n
  {
    if n > 0 {
      assert s[..n][0] == s[0];
      assert s[1..][..n - 1] == s[..n][1..];
      FirstOfIs(s[1..], stop, n - 1);
    }
  }

  lemma FirstOfCons(c: char, rest: string, stop: char -> bool)
    ensures FirstOf([c] + rest, stop) == if stop(c) then 0 else 1 + FirstOf(rest, stop)
  {
    assert ([c] + rest)[1..] == rest;
  }

  /** The first element from `i` on with `p`, or the length. */
  function FindFirst<T>(xs: seq<T>, p: T -> bool, i: nat): (n: nat)
    requires i <= |xs|
    ensures i <= n <= |xs|
    ensures n < |xs| ==> p(xs[n])
    ensures forall k | i <= k < n :: !p(xs[k])
    decreases |xs| - i
  {
    if i == |xs| || p(xs[i]) then i else FindFirst(xs, p, i + 1)
  }

  lemma FindFirstIs<T>(xs: seq<T>, p: T -> bool, i: nat, n: nat)
    requires i <= n < |xs| && p(xs[n]) && forall k | i <= k < n :: !p(xs[k])
    ensures FindFirst(xs, p, i) == n
  {
    var m := FindFirst(xs, p, i);
    assert !(m < n) && !(n < m);
  }

  /** What follows the last stop. */
  function AfterLast(s: string, stop: char -> bool): (r: string)
    ensures |r| <= |s| && r == s[|s| - |r|..]
    ensures Free(r, stop)
    ensures Free(s, stop) ==> r == s
  {
    if s == "" || stop(s[|s| - 1]) then "" else AfterLast(s[..|s| - 1], stop) + [s[|s| - 1]]
  }

  lemma {:induction false} AfterLastCuts(s: string, stop: char -> bool) returns (pre: string)
    ensures s == pre + AfterLast(s, stop) && (pre == "" || stop(pre[|pre| - 1]))
  {
    pre := s;
    if s != "" && !stop(s[|s| - 1]) {
      pre := AfterLastCuts(s[..|s| - 1], stop);
    }
  }

  lemma AfterLastIs(pre: string, rest: string, stop: char -> bool)
    requires (pre == "" || stop(pre[|pre| - 1])) && Free(rest, stop)
    ensures AfterLast(pre + rest, stop) == rest
  {
    var s := pre + rest;
    hide AfterLast;
    var before := AfterLastCuts(s, stop);
    LastStop(before, AfterLast(s, stop), pre, rest, stop);
    LastStop(pre, rest, before, AfterLast(s, stop), stop);
    assert s[|pre|..] == rest && s[|before|..] == AfterLast(s, stop);
  }

  lemma LastStop(p: string, r: string, pre: string, rest: string, stop: char -> bool)
    requires p + r == pre + rest && (pre == "" || stop(pre[|pre| - 1])) && Free(r, stop)
    ensures |r| <= |rest|
  {
    assert pre != "" ==> stop((pre + rest)[|pre| - 1]);
    assert forall i | |p| <= i < |p| + |r| :: !stop((p + r)[i]);
  }

  function Flat(parts: seq<string>): string {
    if parts == [] then "" else parts[0] + Flat(parts[1..])
  }

  lemma {:induction false} FlatConcat(a: seq<string>, b: seq<string>)
    ensures Flat(a + b) == Flat(a) + Flat(b)
  {
    if a == [] {
      assert a + b == b;
    } else {
      calc {
        Flat(a + b);
        { assert (a + b)[1..] == a[1..] + b; }
        a[0] + Flat(a[1..] + b);
        { FlatConcat(a[1..], b); }
        a[0] + (Flat(a[1..]) + Flat(b));
        Flat(a) + Flat(b);
      }
    }
  }

  lemma ConcatFour(a: string, b: string, c: string, d: string)
    ensures a + b + c + d == a + (b + c + d)
  {
  }

  lemma PrefixCancels<T>(p: seq<T>, a: seq<T>, b: seq<T>)
    ensures p + a == p + b <==> a == b
  {
    assert (p + a)[|p|..] == a && (p + b)[|p|..] == b;
  }

  // ---- Lines kept with their ends (Python's splitlines(keepends=True)) ----------------------

  /** Where `splitlines` breaks, in text read with universal newlines: no lone carriage return is left. */
  predicate IsBreak(c: char) {
    || '\n' <= c <= '\U{0C}' || '\U{1C}' <= c <= '\U{1E}'
    || c == '\U{85}' || c == '\U{2028}' || c == '\U{2029}'
  }

  function Lines(s: string): (ls: seq<string>)
    decreases |s|
  {
    if s == "" then []
    else
      var n := FirstOf(s, IsBreak);
      if n == |s| then [s] else [s[..n + 1]] + Lines(s[n + 1..])
  }

  /** A line with its end: one break, at the end. */
  predicate FullLine(l: string) {
    l != "" && FirstOf(l, IsBreak) == |l| - 1
  }

  /** The last line of a text may lack its end. */
  predicate AnyLine(l: string) {
    l != "" && FirstOf(l, IsBreak) >= |l| - 1
  }

  lemma {:induction false} LinesJoin(s: string)
    ensures Flat(Lines(s)) == s
    decreases |s|
  {
    if s != "" {
      var n := FirstOf(s, IsBreak);
      if n == |s| {
        assert Flat([s]) == s + Flat([]);
      } else {
        var head, tail := s[..n + 1], s[n + 1..];
        LinesJoin(tail);
        calc {
          Flat(Lines(s));
          Flat([head] + Lines(tail));
          { assert ([head] + Lines(tail))[1..] == Lines(tail); }
          head + Flat(Lines(tail));
          s;
        }
      }
    }
  }

  lemma LinesPrepend(l: string, rest: string)
    requires FullLine(l)
    ensures Lines(l + rest) == [l] + Lines(rest)
  {
    FirstOfIs(l + rest, IsBreak, |l| - 1);
    assert (l + rest)[..|l|] == l && (l + rest)[|l|..] == rest;
  }

  lemma {:induction false} LinesOfFull(ls: seq<string>, rest: string)
    requires forall l <- ls :: FullLine(l)
    ensures Lines(Flat(ls) + rest) == ls + Lines(rest)
  {
    if ls == [] {
      assert Flat(ls) + rest == rest;
    } else {
      var tail := Flat(ls[1..]) + rest;
      calc {
        Lines(Flat(ls) + rest);
        { assert Flat(ls) + rest == ls[0] + tail; }
        Lines(ls[0] + tail);
        { LinesPrepend(ls[0], tail); }
        [ls[0]] + Lines(tail);
        { LinesOfFull(ls[1..], rest); }
        [ls[0]] + (ls[1..] + Lines(rest));
        ls + Lines(rest);
      }
    }
  }

  lemma {:induction false} LinesAreLines(s: string)
    ensures forall i | 0 <= i < |Lines(s)| :: AnyLine(Lines(s)[i]) && (i < |Lines(s)| - 1 ==> FullLine(Lines(s)[i]))
    decreases |s|
  {
    if s != "" {
      var n := FirstOf(s, IsBreak);
      if n < |s| {
        LinesAreLines(s[n + 1..]);
        FirstOfIs(s[..n + 1], IsBreak, n);
      }
    }
  }

  lemma {:induction false} LinesOfLines(ls: seq<string>)
    requires forall i | 0 <= i < |ls| :: AnyLine(ls[i]) && (i < |ls| - 1 ==> FullLine(ls[i]))
    ensures Lines(Flat(ls)) == ls
  {
    hide AnyLine, FullLine;
    if ls != [] {
      LinesOfLines(ls[1..]);
      if |ls| == 1 {
        assert ls == [ls[0]] && Flat(ls[1..]) == "" && Flat(ls) == ls[0];
        LineAlone(ls[0]);
      } else {
        LinesPrepend(ls[0], Flat(ls[1..]));
      }
    }
  }

  lemma LineAlone(l: string)
    requires AnyLine(l)
    ensures Lines(l) == [l]
  {
    assert l[..|l|] == l && l[|l|..] == "";
  }
}
