/** Markdown links between memories, read and rewritten character by character
    (scripts/migrate-memory-split.py, `MD_LINK_RE`, `parse_md_href`, `rewrite_links`, `extract_dangling`). */
module MemoryLinks {
  import opened Text
  import opened MemoryFront

  // ---- Scanning -----------------------------------------------------------------------------

  /** One piece of a line: a plain character, or a match of `\[([^\]]*)\]\(([^()]*)\)`. */
  datatype Token = Ch(c: char) | Link(text: string, href: string)

  function Print(t: Token): (s: string)
    ensures s != ""
  {
    match t
    case Ch(c) => [c]
    case Link(text, href) => "[" + text + "](" + href + ")"
  }

  function PrintAll(ts: seq<Token>): string {
    if ts == [] then "" else Print(ts[0]) + PrintAll(ts[1..])
  }

  predicate IsBracket(c: char) { c == ']' }

  predicate IsParen(c: char) { c == '(' || c == ')' }

  predicate IsSlash(c: char) { c == '/' || c == '\\' }

  /** What stands between `open` and the first stop, when that is `close`. */
  function Enclosed(s: string, open: char, stop: char -> bool, close: char): (r: Option<string>)
    ensures r.Some? ==> [open] + r.value + [close] <= s && Free(r.value, stop)
  {
    if s == "" || s[0] != open then None
    else
      var inside := s[1..];
      var k := FirstOf(inside, stop);
      if k == |inside| || inside[k] != close then None
      else
        assert s == [open] + inside[..k] + [close] + inside[k + 1..];
        Some(inside[..k])
  }

  lemma EnclosedBetween(inner: string, rest: string, open: char, stop: char -> bool, close: char)
    requires stop(close) && Free(inner, stop)
    ensures Enclosed([open] + inner + [close] + rest, open, stop, close) == Some(inner)
  {
    var s := [open] + inner + [close] + rest;
    assert s[1..] == inner + [close] + rest;
    assert s[1..][..|inner|] == inner;
    FirstOfIs(s[1..], stop, |inner|);
  }

  /** The regular expression matched at the start of `s`. */
  function MatchHere(s: string): Option<Token> {
    match Enclosed(s, '[', IsBracket, ']')
    case None => None
    case Some(text) =>
      match Enclosed(s[|text| + 2..], '(', IsParen, ')')
      case None => None
      case Some(href) => Some(Link(text, href))
  }

  /** What a match of the expression can hold. */
  predicate LinkShape(t: Token) {
    t.Link? ==> Free(t.text, IsBracket) && Free(t.href, IsParen)
  }

  lemma MatchIsPrefix(s: string)
    requires MatchHere(s).Some?
    ensures MatchHere(s).value.Link? && LinkShape(MatchHere(s).value)
    ensures Print(MatchHere(s).value) <= s
  {
    var Link(text, href) := MatchHere(s).value;
    var first, second := "[" + text + "]", "(" + href + ")";
    assert second <= s[|first|..] by {
      assert |first| == |text| + 2;
    }
    PrefixesMeet(s, first, second);
    assert Print(Link(text, href)) == first + second;
  }

  lemma PrefixesMeet(s: string, first: string, second: string)
    requires first <= s && second <= s[|first|..]
    ensures first + second <= s
  {
    var after := s[|first|..];
    assert s == first + after && after == second + after[|second|..];
  }

  lemma MatchOfPrinted(t: Token, rest: string)
    requires t.Link? && LinkShape(t)
    ensures MatchHere(Print(t) + rest) == Some(t)
  {
    var first, second := "[" + t.text + "]", "(" + t.href + ")" + rest;
    assert Print(t) + rest == first + second;
    EnclosedBetween(t.text, second, '[', IsBracket, ']');
    EnclosedBetween(t.href, rest, '(', IsParen, ')');
    assert (first + second)[|t.text| + 2..] == second;
  }

  /** Leftmost, non-overlapping matches, as `finditer` yields them. */
  function Scan(s: string): seq<Token>
    decreases |s|
  {
    if s == "" then []
    else
      match MatchHere(s)
      case None => [Ch(s[0])] + Scan(s[1..])
      case Some(t) =>
        MatchIsPrefix(s);
        [t] + Scan(s[|Print(t)|..])
  }

  /** Scanning loses nothing. */
  lemma {:induction false} PrintOfScan(s: string)
    ensures PrintAll(Scan(s)) == s
    ensures forall t <- Scan(s) :: LinkShape(t)
    decreases |s|
  {
    if s != "" {
      match MatchHere(s)
      case None =>
        PrintOfScan(s[1..]);
      case Some(t) =>
        MatchIsPrefix(s);
        PrintOfScan(s[|Print(t)|..]);
    }
  }

  // ---- Scanning what was printed ----------------------------------------------------------------

  /** What first closes a bracket opened just before some tokens: nothing that makes a link, the link at
      an index, or a closing bracket at an index, outside a link, that an opening parenthesis follows. */
  datatype Closing = Nothing | ByLink(at: nat) | ByGap(at: nat)

  function Closes(ts: seq<Token>): Closing {
    if ts == [] then Nothing
    else if ts[0].Link? then ByLink(0)
    else if ts[0].c == ']' then (if |ts| > 1 && ts[1] == Ch('(') then ByGap(0) else Nothing)
    else
      match Closes(ts[1..])
      case Nothing => Nothing
      case ByLink(k) => ByLink(k + 1)
      case ByGap(k) => ByGap(k + 1)
  }

  /** No bracket outside a link is closed by a `](` outside a link. */
  predicate GapFree(ts: seq<Token>) {
    ts != [] ==> (ts[0] == Ch('[') ==> !Closes(ts[1..]).ByGap?) && GapFree(ts[1..])
  }

  predicate Inside(t: Token) { t.Ch? && t.c != ']' }

  lemma {:induction false} ClosesIs(ts: seq<Token>)
    requires !Closes(ts).Nothing?
    ensures var k := Closes(ts).at; k < |ts| && forall i | 0 <= i < k :: Inside(ts[i])
    ensures var k := Closes(ts).at; Closes(ts).ByLink? ==> ts[k].Link?
    ensures var k := Closes(ts).at; Closes(ts).ByGap? ==> ts[k] == Ch(']') && k + 1 < |ts| && ts[k + 1] == Ch('(')
  {
    if ts[0].Ch? && ts[0].c != ']' {
      ClosesIs(ts[1..]);
      var k := Closes(ts).at;
      assert forall i | 0 < i <= k :: ts[i] == ts[1..][i - 1];
    }
  }

  /** What a scan finds in printed tokens: an opening bracket outside a link takes in the text up to the
      next link, when nothing closes it before. */
  function Joined(ts: seq<Token>): seq<Token>
    decreases |ts|
  {
    if ts == [] then []
    else if ts[0] == Ch('[') && Closes(ts[1..]).ByLink? then
      ClosesIs(ts[1..]);
      var k := Closes(ts[1..]).at;
      [Taken(ts[1..][..k], ts[1..][k])] + Joined(ts[1..][k + 1..])
    else [ts[0]] + Joined(ts[1..])
  }

  function Taken(before: seq<Token>, link: Token): Token
    requires link.Link?
  {
    Link(PrintAll(before) + "[" + link.text, link.href)
  }

  /** Where the texts of the links end, the first token being at `at`. */
  function Closers(ts: seq<Token>, at: nat): set<nat> {
    if ts == [] then {}
    else (if ts[0].Link? then {at + 1 + |ts[0].text|} else {}) + Closers(ts[1..], at + |Print(ts[0])|)
  }

  /** The matches of a scan from `i` on whose `](` is at none of the closers. */
  function LooseFrom(s: string, i: nat, closers: set<nat>): (r: seq<Token>)
    requires i <= |s|
    ensures forall t <- r :: t.Link?
    decreases |s| - i
  {
    if i == |s| then []
    else
      match MatchHere(s[i..])
      case None => LooseFrom(s, i + 1, closers)
      case Some(t) =>
        MatchIsPrefix(s[i..]);
        (if i + 1 + |t.text| in closers then [] else [t]) + LooseFrom(s, i + |Print(t)|, closers)
  }

  /** The links that scanning printed tokens makes out of text: their `](` belongs to no link that was
      printed. */
  function LooseLinks(ts: seq<Token>): (r: seq<Token>)
    ensures forall t <- r :: t.Link?
  {
    LooseFrom(PrintAll(ts), 0, Closers(ts, 0))
  }

  /** From `at` on, `closers` are those of the tokens. */
  ghost predicate Agrees(closers: set<nat>, ts: seq<Token>, at: nat) {
    forall q: nat | at <= q :: q in closers <==> q in Closers(ts, at)
  }

  lemma {:induction false} ClosersAfter(ts: seq<Token>, at: nat)
    ensures forall q <- Closers(ts, at) :: at < q
  {
    if ts != [] {
      ClosersAfter(ts[1..], at + |Print(ts[0])|);
    }
  }

  lemma AgreesNext(closers: set<nat>, ts: seq<Token>, at: nat)
    requires Agrees(closers, ts, at) && ts != []
    ensures Agrees(closers, ts[1..], at + |Print(ts[0])|)
  {
    hide Print;
    forall q: nat | at + |Print(ts[0])| <= q
      ensures q in closers <==> q in Closers(ts[1..], at + |Print(ts[0])|)
    {
      ClosersStep(ts, at, q);
    }
  }

  lemma {:induction false} AgreesTail(closers: set<nat>, ts: seq<Token>, at: nat, n: nat)
    requires Agrees(closers, ts, at) && n <= |ts|
    ensures Agrees(closers, ts[n..], at + |PrintAll(ts[..n])|)
  {
    hide Agrees, PrintAll, Print;
    if n == 0 {
      assert ts[0..] == ts && ts[..0] == [];
      NothingToPrint();
    } else {
      AgreesNext(closers, ts, at);
      AgreesTail(closers, ts[1..], at + |Print(ts[0])|, n - 1);
      assert ts[1..][n - 1..] == ts[n..];
      PlaceStep(ts, n);
    }
  }

  /** A link closes at a closer; a bracket outside links does not. */
  lemma {:induction false} CloserIff(ts: seq<Token>, at: nat, j: nat)
    requires j < |ts|
    ensures ts[j].Link? ==> at + |PrintAll(ts[..j])| + 1 + |ts[j].text| in Closers(ts, at)
    ensures ts[j].Ch? ==> at + |PrintAll(ts[..j])| !in Closers(ts, at)
  {
    hide PrintAll, Print;
    ClosersAfter(ts, at);
    if j == 0 {
      assert ts[..0] == [];
      NothingToPrint();
    } else {
      var next := at + |Print(ts[0])|;
      CloserIff(ts[1..], next, j - 1);
      PlaceStep(ts, j);
      ClosersStep(ts, at, at + |PrintAll(ts[..j])|);
    }
  }

  lemma PlaceStep(ts: seq<Token>, j: nat)
    requires 0 < j <= |ts|
    ensures |PrintAll(ts[..j])| == |Print(ts[0])| + |PrintAll(ts[1..][..j - 1])|
  {
    hide Print;
    assert ts[..j] == [ts[0]] + ts[1..][..j - 1];
    PrintCons(ts[0], ts[1..][..j - 1]);
  }

  lemma ClosersStep(ts: seq<Token>, at: nat, q: nat)
    requires ts != [] && at + |Print(ts[0])| <= q
    ensures q in Closers(ts, at) <==> q in Closers(ts[1..], at + |Print(ts[0])|)
    ensures Closers(ts[1..], at + |Print(ts[0])|) <= Closers(ts, at)
  {
  }

  lemma {:induction false} PrintFree(ts: seq<Token>, stop: char -> bool)
    requires forall i | 0 <= i < |ts| :: ts[i].Ch? && !stop(ts[i].c)
    ensures Free(PrintAll(ts), stop)
  {
    if ts != [] {
      PrintFree(ts[1..], stop);
      FreeConcat(Print(ts[0]), PrintAll(ts[1..]), stop);
    }
  }

  lemma InsideFree(ts: seq<Token>)
    requires forall i | 0 <= i < |ts| :: Inside(ts[i])
    ensures Free(PrintAll(ts), IsBracket)
  {
    PrintFree(ts, IsBracket);
  }

  lemma TakenIs(before: seq<Token>, link: Token)
    requires link.Link? && LinkShape(link)
    requires forall i | 0 <= i < |before| :: Inside(before[i])
    ensures LinkShape(Taken(before, link)) && Print(Taken(before, link)) == "[" + (PrintAll(before) + Print(link))
  {
    hide PrintAll, Inside;
    InsideFree(before);
    TakenShape(PrintAll(before), link);
  }

  lemma TakenShape(text: string, link: Token)
    requires link.Link? && LinkShape(link) && Free(text, IsBracket)
    ensures var t := Link(text + "[" + link.text, link.href); LinkShape(t) && Print(t) == "[" + (text + Print(link))
  {
    FreeConcat(text + "[", link.text, IsBracket);
    FreeConcat(text, "[", IsBracket);
    var t := Link(text + "[" + link.text, link.href);
    assert Print(t) == "[" + (text + ("[" + link.text + "](" + link.href + ")"));
  }

  /** A bracket that nothing makes a link: no closing bracket comes, or one without a parenthesis. */
  lemma {:induction false} NothingCloses(ts: seq<Token>)
    requires Closes(ts).Nothing?
    ensures var s := PrintAll(ts); var j := FirstOf(s, IsBracket); j < |s| ==> j + 1 == |s| || s[j + 1] != '('
  {
    hide FirstOf;
    if ts != [] {
      var s, rest := PrintAll(ts), PrintAll(ts[1..]);
      assert s == [ts[0].c] + rest;
      FirstOfCons(ts[0].c, rest, IsBracket);
      if ts[0].c != ']' {
        NothingCloses(ts[1..]);
      } else if |ts| > 1 {
        PrintStarts(ts[1..]);
      }
    } else {
      assert FirstOf("", IsBracket) == 0;
    }
  }

  lemma PrintStarts(ts: seq<Token>)
    requires ts != [] && ts[0] != Ch('(')
    ensures PrintAll(ts) != "" && PrintAll(ts)[0] != '('
  {
  }

  lemma NothingMatches(ts: seq<Token>)
    requires Closes(ts).Nothing?
    ensures MatchHere("[" + PrintAll(ts)) == None
  {
    hide Closes, PrintAll;
    NothingCloses(ts);
    var s := "[" + PrintAll(ts);
    assert s[1..] == PrintAll(ts);
  }

  /** A match that starts at a bracket with a gap ends its text at the closing bracket of the gap. */
  lemma GapMatch(ts: seq<Token>)
    requires Closes(ts).ByGap? && MatchHere("[" + PrintAll(ts)).Some?
    ensures Closes(ts).at + 1 < |ts| && MatchHere("[" + PrintAll(ts)).value.text == PrintAll(ts[..Closes(ts).at])
    ensures PrintAll(ts) == PrintAll(ts[..Closes(ts).at]) + "](" + PrintAll(ts[Closes(ts).at + 2..])
  {
    ClosesIs(ts);
    var k := Closes(ts).at;
    InsideFree(ts[..k]);
    hide PrintAll, Closes, Inside, MatchHere;
    GapSplit(ts, k);
    GapText(PrintAll(ts[..k]), PrintAll(ts[k + 2..]));
  }

  lemma GapSplit(ts: seq<Token>, k: nat)
    requires k + 1 < |ts| && ts[k] == Ch(']') && ts[k + 1] == Ch('(')
    ensures PrintAll(ts) == PrintAll(ts[..k]) + "](" + PrintAll(ts[k + 2..])
  {
    hide PrintAll, Print;
    var before, after := ts[..k], ts[k + 2..];
    assert ts == before + [Ch(']')] + ([Ch('(')] + after);
    PrintThree(before, Ch(']'), [Ch('(')] + after);
    PrintCons(Ch('('), after);
    PrintOfChar(']');
    PrintOfChar('(');
    GapParts(PrintAll(before), PrintAll(after));
  }

  lemma GapParts(before: string, after: string)
    ensures before + "]" + ("(" + after) == before + "](" + after
  {
  }

  lemma GapText(text: string, after: string)
    requires Free(text, IsBracket)
    ensures var m := MatchHere("[" + (text + "](" + after)); m.Some? ==> m.value.text == text
  {
    hide Free;
    var rest := "(" + after;
    assert "[" + (text + "](" + after) == "[" + text + "]" + rest;
    EnclosedBetween(text, rest, '[', IsBracket, ']');
  }

  lemma ScanStep(t: Token, rest: string)
    requires LinkShape(t) && (t == Ch('[') ==> MatchHere("[" + rest) == None)
    ensures Scan(Print(t) + rest) == [t] + Scan(rest)
    ensures MatchHere(Print(t) + rest) == if t.Link? then Some(t) else None
  {
    hide LinkShape;
    var s := Print(t) + rest;
    assert s[|Print(t)|..] == rest;
    if t.Link? {
      MatchOfPrinted(t, rest);
    } else {
      assert s[1..] == rest;
      assert t.c != '[' ==> Enclosed(s, '[', IsBracket, ']') == None;
    }
  }

  /** How many tokens the first token of `Joined` takes in. */
  function Taking(ts: seq<Token>): (n: nat)
    requires ts != []
    ensures 0 < n <= |ts|
  {
    if ts[0] == Ch('[') && Closes(ts[1..]).ByLink? then
      ClosesIs(ts[1..]);
      Closes(ts[1..]).at + 2
    else 1
  }

  /** A bracket outside links at which a match starts that no printed link closes. */
  predicate LooseHere(ts: seq<Token>) {
    ts != [] && ts[0] == Ch('[') && Closes(ts[1..]).ByGap? && MatchHere(PrintAll(ts)).Some?
  }

  lemma JoinedStep(ts: seq<Token>)
    requires ts != [] && forall t <- ts :: LinkShape(t)
    ensures var n := Taking(ts);
            && |Joined(ts)| > 0 && Joined(ts) == [Joined(ts)[0]] + Joined(ts[n..])
            && Print(Joined(ts)[0]) == PrintAll(ts[..n]) && LinkShape(Joined(ts)[0])
  {
    if ts[0] == Ch('[') && Closes(ts[1..]).ByLink? {
      ClosesIs(ts[1..]);
      var k := Closes(ts[1..]).at;
      assert ts[1..][k + 1..] == ts[k + 2..];
      assert Joined(ts) == [Taken(ts[1..][..k], ts[1..][k])] + Joined(ts[k + 2..]);
      hide PrintAll, LinkShape, Joined, Taken, Closes, Print;
      TakenPrints(ts, k);
    } else {
      assert ts[..1] == [ts[0]] && ts[0] in ts;
      PrintOfOne(ts[0]);
    }
  }

  lemma TakenPrints(ts: seq<Token>, k: nat)
    requires k + 1 < |ts| && ts[0] == Ch('[') && ts[k + 1].Link? && forall i | 0 <= i < k :: Inside(ts[1..][i])
    requires forall t <- ts :: LinkShape(t)
    ensures var t := Taken(ts[1..][..k], ts[1..][k]); LinkShape(t) && Print(t) == PrintAll(ts[..k + 2])
  {
    hide PrintAll, LinkShape, Inside, Print, Taken;
    var before, link := ts[1..][..k], ts[1..][k];
    assert link in ts;
    TakenIs(before, link);
    assert ts[..k + 2] == [Ch('[')] + (before + [link]);
    PrintCons(Ch('['), before + [link]);
    PrintConcat(before, [link]);
    PrintOfOne(link);
    PrintOfChar('[');
  }

  lemma PrintSplit(ts: seq<Token>, n: nat)
    requires n <= |ts|
    ensures PrintAll(ts) == PrintAll(ts[..n]) + PrintAll(ts[n..])
  {
    assert ts == ts[..n] + ts[n..];
    PrintConcat(ts[..n], ts[n..]);
  }

  lemma JoinedBracket(ts: seq<Token>)
    requires ts != [] && Joined(ts)[..1] == [Ch('[')] && !LooseHere(ts)
    ensures Taking(ts) == 1 && MatchHere("[" + PrintAll(ts[1..])) == None
  {
    hide MatchHere, PrintAll;
    PrintHead(ts);
    PrintOfChar('[');
    if Closes(ts[1..]).Nothing? {
      NothingMatches(ts[1..]);
    }
  }

  /** Where no loose link starts, the scan takes what `Joined` says. */
  lemma ScanOfStep(ts: seq<Token>)
    requires ts != [] && !LooseHere(ts) && forall t <- ts :: LinkShape(t)
    ensures Joined(ts) != [] && Scan(PrintAll(ts)) == [Joined(ts)[0]] + Scan(PrintAll(ts[Taking(ts)..]))
    ensures var h := Joined(ts)[0]; MatchHere(PrintAll(ts)) == if h.Link? then Some(h) else None
  {
    hide Scan, MatchHere, LinkShape, PrintAll, Joined, LooseHere, Taking;
    JoinedStep(ts);
    var n := Taking(ts);
    var h := Joined(ts)[0];
    PrintSplit(ts, n);
    if h == Ch('[') {
      assert Joined(ts)[..1] == [h];
      JoinedBracket(ts);
    }
    ScanStep(h, PrintAll(ts[n..]));
  }

  lemma LooseStep(pre: string, ts: seq<Token>, closers: set<nat>)
    requires ts != [] && (forall t <- ts :: LinkShape(t)) && Agrees(closers, ts, |pre|)
    ensures var s, n := pre + PrintAll(ts), Taking(ts);
            && Agrees(closers, ts[n..], |pre + PrintAll(ts[..n])|)
            && s == pre + PrintAll(ts[..n]) + PrintAll(ts[n..])
            && if LooseHere(ts) then LooseFrom(s, |pre|, closers) != []
               else LooseFrom(s, |pre|, closers) == LooseFrom(s, |pre + PrintAll(ts[..n])|, closers)
  {
    hide LinkShape, PrintAll, Joined, MatchHere, Agrees, Closers, Taking, LooseHere, LooseFrom, Scan;
    var n := Taking(ts);
    AgreesTail(closers, ts, |pre|, n);
    PrintSplit(ts, n);
    if LooseHere(ts) {
      LooseIsLoose(ts);
      LooseGap(|pre|, ts, closers);
      LooseMatch(pre, PrintAll(ts), closers);
    } else {
      JoinedStep(ts);
      ScanOfStep(ts);
      LinkCloses(|pre|, ts, closers);
      TightMatch(pre, PrintAll(ts[..n]), PrintAll(ts[n..]), closers);
    }
  }

  lemma LooseMatch(pre: string, s: string, closers: set<nat>)
    requires s != "" && MatchHere(s).Some? && |pre| + 1 + |MatchHere(s).value.text| !in closers
    ensures LooseFrom(pre + s, |pre|, closers) != []
  {
    hide MatchHere;
    assert (pre + s)[|pre|..] == s;
  }

  lemma TightMatch(pre: string, head: string, rest: string, closers: set<nat>)
    requires var m := MatchHere(head + rest);
             && head != ""
             && if m.Some? then Print(m.value) == head && |pre| + 1 + |m.value.text| in closers else |head| == 1
    ensures LooseFrom(pre + (head + rest), |pre|, closers) == LooseFrom(pre + (head + rest), |pre + head|, closers)
  {
    hide MatchHere, Print;
    assert (pre + (head + rest))[|pre|..] == head + rest;
    if MatchHere(head + rest).Some? {
      MatchIsPrefix(head + rest);
    }
  }

  lemma LooseIsLoose(ts: seq<Token>)
    requires LooseHere(ts)
    ensures MatchHere(PrintAll(ts)).Some? && PrintAll(ts) != ""
  {
    assert PrintAll([]) == "";
  }

  lemma LooseGap(at: nat, ts: seq<Token>, closers: set<nat>)
    requires LooseHere(ts) && Agrees(closers, ts, at)
    ensures at + 1 + |MatchHere(PrintAll(ts)).value.text| !in closers
  {
    hide MatchHere, Closers, PrintAll;
    PrintHead(ts);
    PrintOfChar('[');
    var rest := ts[1..];
    ClosesIs(rest);
    GapMatch(rest);
    var k := Closes(rest).at;
    CloserIff(ts, at, k + 1);
    assert ts[..k + 1] == [ts[0]] + rest[..k];
    PrintCons(ts[0], rest[..k]);
  }

  lemma PrintHead(ts: seq<Token>)
    requires ts != []
    ensures PrintAll(ts) == Print(ts[0]) + PrintAll(ts[1..])
  {
  }

  lemma LinkCloses(at: nat, ts: seq<Token>, closers: set<nat>)
    requires ts != [] && Agrees(closers, ts, at)
    ensures |Joined(ts)| > 0 && (Joined(ts)[0].Link? ==> at + 1 + |Joined(ts)[0].text| in closers)
  {
    hide Closers, PrintAll;
    if ts[0].Link? {
      CloserIff(ts, at, 0);
      assert ts[..0] == [];
      NothingToPrint();
    } else if ts[0] == Ch('[') && Closes(ts[1..]).ByLink? {
      var rest := ts[1..];
      ClosesIs(rest);
      var k := Closes(rest).at;
      CloserIff(ts, at, k + 1);
      assert ts[..k + 1] == [ts[0]] + rest[..k];
      PrintCons(ts[0], rest[..k]);
      PrintOfChar('[');
    }
  }

  /** Reading back what was printed: the scan finds the printed tokens, joined, exactly when no link is
      made by text alone. */
  lemma {:induction false} ScanFromIff(pre: string, ts: seq<Token>, closers: set<nat>)
    requires (forall t <- ts :: LinkShape(t)) && Agrees(closers, ts, |pre|)
    ensures LooseFrom(pre + PrintAll(ts), |pre|, closers) == [] <==> Scan(PrintAll(ts)) == Joined(ts)
    decreases |ts|
  {
    hide Scan, MatchHere, LinkShape, PrintAll, LooseFrom, Agrees, Taking, LooseHere;
    if ts == [] {
      NothingToPrint();
      assert Scan("") == [] by { ScanEmpty(); }
      assert LooseFrom(pre + "", |pre|, closers) == [] by { LooseEnds(pre, closers); }
    } else {
      var n := Taking(ts);
      LooseStep(pre, ts, closers);
      JoinedStep(ts);
      if LooseHere(ts) {
        LooseScans(ts);
      } else {
        ScanOfStep(ts);
        ScanFromIff(pre + PrintAll(ts[..n]), ts[n..], closers);
        if Scan(PrintAll(ts)) == Joined(ts) {
          assert Scan(PrintAll(ts))[1..] == Scan(PrintAll(ts[n..]));
          assert Joined(ts)[1..] == Joined(ts[n..]);
        }
      }
    }
  }

  lemma LooseEnds(pre: string, closers: set<nat>)
    ensures LooseFrom(pre + "", |pre|, closers) == []
  {
    assert pre + "" == pre;
  }

  lemma LooseScans(ts: seq<Token>)
    requires LooseHere(ts)
    ensures Scan(PrintAll(ts)) != [] && Scan(PrintAll(ts))[0].Link? && Joined(ts)[0] == Ch('[')
    ensures Scan(PrintAll(ts))[0] == MatchHere(PrintAll(ts)).value
  {
    MatchIsPrefix(PrintAll(ts));
  }

  lemma ScanOfPrint(ts: seq<Token>)
    requires forall t <- ts :: LinkShape(t)
    ensures LooseLinks(ts) == [] <==> Scan(PrintAll(ts)) == Joined(ts)
  {
    hide Scan, PrintAll, LooseFrom, Closers, LinkShape, Joined;
    assert "" + PrintAll(ts) == PrintAll(ts);
    ScanFromIff("", ts, Closers(ts, 0));
  }

  /** Brackets without gaps make no loose links. */
  lemma {:induction false} GapFreeFrom(pre: string, ts: seq<Token>, closers: set<nat>)
    requires GapFree(ts) && (forall t <- ts :: LinkShape(t)) && Agrees(closers, ts, |pre|)
    ensures LooseFrom(pre + PrintAll(ts), |pre|, closers) == []
    decreases |ts|
  {
    hide LinkShape, PrintAll, LooseFrom, Agrees, Taking;
    if ts == [] {
      NothingToPrint();
      LooseEnds(pre, closers);
    } else {
      var n := Taking(ts);
      LooseStep(pre, ts, closers);
      GapFreeTail(ts, n);
      GapFreeFrom(pre + PrintAll(ts[..n]), ts[n..], closers);
    }
  }

  lemma {:induction false} GapFreeTail(ts: seq<Token>, n: nat)
    requires GapFree(ts) && n <= |ts|
    ensures GapFree(ts[n..])
  {
    if n > 0 {
      GapFreeTail(ts[1..], n - 1);
      assert ts[1..][n - 1..] == ts[n..];
    }
  }

  lemma GapFreeNoneLoose(ts: seq<Token>)
    requires GapFree(ts) && forall t <- ts :: LinkShape(t)
    ensures LooseLinks(ts) == []
  {
    hide PrintAll, LooseFrom, Closers, LinkShape, GapFree;
    assert "" + PrintAll(ts) == PrintAll(ts);
    GapFreeFrom("", ts, Closers(ts, 0));
  }

  lemma PrintCons(t: Token, ts: seq<Token>)
    ensures PrintAll([t] + ts) == Print(t) + PrintAll(ts)
  {
    assert ([t] + ts)[1..] == ts;
  }

  lemma PrintThree(before: seq<Token>, t: Token, after: seq<Token>)
    ensures PrintAll(before + [t] + after) == PrintAll(before) + Print(t) + PrintAll(after)
  {
    hide PrintAll;
    PrintConcat(before + [t], after);
    PrintConcat(before, [t]);
    PrintOfOne(t);
  }

  lemma NothingToPrint()
    ensures PrintAll([]) == ""
  {
  }

  lemma ScanEmpty()
    ensures Scan("") == []
  {
  }

  // ---- Hrefs --------------------------------------------------------------------------------

  /** An href is a memory link, with or without a layer, or not one at all. */
  datatype Href = External | Memory(prefix: Option<Layer>, stem: string)

  /** `'..' in s`. */
  predicate TwoDots(s: string) {
    exists i | 0 < i < |s| :: s[i - 1] == '.' && s[i] == '.'
  }

  predicate MdSuffix(s: string) {
    && |s| > 3
    && s[|s| - 3] == '.'
    && (s[|s| - 2] == 'm' || s[|s| - 2] == 'M')
    && (s[|s| - 1] == 'd' || s[|s| - 1] == 'D')
  }

  function SplitPrefix(stem: string): Href {
    if "agent:" < stem then Memory(Some(Agent), stem[6..])
    else if "user:" < stem then Memory(Some(User), stem[5..])
    else Memory(None, stem)
  }

  predicate ExternalStart(t: string) {
    "http://" <= t || "https://" <= t || "#" <= t || "mailto:" <= t
  }

  /** The text after the last slash, trimmed, from which a stem is read. */
  function Segment(href: string): string {
    Trim(AfterLast(Trim(href, PySpace), IsSlash), PySpace)
  }

  function ParseHref(href: string): Href {
    var t := Trim(href, PySpace);
    if t == "" || ExternalStart(t) then External
    else
      var segment := Segment(href);
      if segment == "" || TwoDots(segment) || !MdSuffix(segment) then External
      else
        var stem := segment[..|segment| - 3];
        if '\n' in stem then External else SplitPrefix(stem)
  }

  function Qualified(prefix: Option<Layer>, stem: string): string {
    match prefix
    case None => stem
    case Some(l) => LayerName(l) + ":" + stem
  }

  /** The href of `stem` in `layer`, seen from `src`. */
  function HrefFor(stem: string, layer: Layer, src: Layer): string {
    if layer == src then stem + ".md" else LayerName(layer) + ":" + stem + ".md"
  }

  // ---- One link -----------------------------------------------------------------------------

  datatype Change = Keep | Delink(target: string) | Retarget(href: string)

  function Decide(href: string, src: Layer, surviving: map<string, Layer>): Change {
    match ParseHref(href)
    case External => Keep
    case Memory(prefix, stem) =>
      if stem !in surviving then Delink(Qualified(prefix, stem))
      else
        var layer := surviving[stem];
        match prefix
        case None => if layer != src then Retarget(LayerName(layer) + ":" + stem + ".md") else Keep
        case Some(p) => if p != layer then Retarget(HrefFor(stem, layer, src)) else Keep
  }

  /** What `extract_dangling` says of one href. */
  predicate Dangles(href: string, src: Layer, inventory: map<string, Layer>) {
    match ParseHref(href)
    case External => false
    case Memory(prefix, stem) =>
      || stem !in inventory
      || (prefix.Some? && inventory[stem] != prefix.value)
      || (prefix.None? && inventory[stem] != src)
  }

  /** Names that a bare href does not give a layer. */
  predicate Unlayered(stem: string) {
    !("agent:" < stem) && !("user:" < stem)
  }

  /** Names that a bare href can carry: read back, they are neither external nor layer-qualified. */
  predicate BareSafe(stem: string) {
    !("#" <= stem) && !("mailto:" <= stem) && Unlayered(stem)
  }

  /** Names as `load_tsv` yields them (trimmed) that no href gives a layer; a bare href to one is read as
      that name or as an outside link. */
  predicate LinkName(stem: string) {
    stem != "" && Trimmed(stem, PySpace) && Unlayered(stem)
  }

  /** Those that no href can misread. */
  predicate SafeName(stem: string) {
    LinkName(stem) && BareSafe(stem)
  }

  predicate NotInStem(c: char) {
    IsSlash(c) || IsParen(c) || c == '\n'
  }

  /** What a stem read from any href satisfies. */
  ghost predicate StemShape(stem: string) {
    stem != "" && Free(stem, NotInStem) && !TwoDots(stem + ".md")
  }

  lemma PrefixedStem(whole: string)
    requires whole != ""
    ensures var stem := SplitPrefix(whole).stem; stem != "" && |stem| <= |whole| && stem == whole[|whole| - |stem|..]
  {
  }

  /** A stem is a piece of its href. */
  lemma StemFree(href: string, stop: char -> bool)
    requires ParseHref(href).Memory? && Free(href, stop)
    ensures Free(ParseHref(href).stem, stop)
  {
    hide ExternalStart, PySpace, TwoDots, SplitPrefix, Free, TrimStart, TrimEnd, Trim, AfterLast;
    var t := Trim(href, PySpace);
    TrimFree(href, PySpace, stop);
    var tail := AfterLast(t, IsSlash);
    SliceFree(t, |t| - |tail|, |t|, stop);
    assert t[|t| - |tail|..|t|] == tail;
    TrimFree(tail, PySpace, stop);
    var segment := Trim(tail, PySpace);
    var whole := segment[..|segment| - 3];
    assert segment == Segment(href);
    SliceFree(segment, 0, |segment| - 3, stop);
    PrefixedStem(whole);
    var stem := ParseHref(href).stem;
    SliceFree(whole, |whole| - |stem|, |whole|, stop);
    assert whole[|whole| - |stem|..|whole|] == stem;
  }

  lemma ParsedStem(href: string)
    requires ParseHref(href).Memory? && Free(href, IsParen)
    ensures StemShape(ParseHref(href).stem)
  {
    hide ExternalStart, PySpace, Trim, AfterLast, SplitPrefix, TwoDots;
    var stem := ParseHref(href).stem;
    var segment := Segment(href);
    var whole := segment[..|segment| - 3];
    PrefixedStem(whole);
    StemFree(href, IsParen);
    SegmentFree(href);
    SliceFree(segment, |whole| - |stem|, |whole|, IsSlash);
    assert segment[|whole| - |stem|..|whole|] == stem;
    DotsOfSegment(segment, stem);
  }

  lemma SegmentFree(href: string)
    ensures Free(Segment(href), IsSlash)
  {
    TrimFree(AfterLast(Trim(href, PySpace), IsSlash), PySpace, IsSlash);
  }

  /** Dropping the front of a file name and normalising the case of its suffix adds no dots. */
  lemma DotsOfSegment(segment: string, stem: string)
    requires MdSuffix(segment) && !TwoDots(segment)
    requires |stem| + 3 <= |segment| && stem == segment[|segment| - 3 - |stem|..|segment| - 3]
    ensures !TwoDots(stem + ".md")
  {
    var named := stem + ".md";
    var cut := |segment| - |named|;
    forall i | 0 < i < |named|
      ensures named[i - 1] != '.' || named[i] != '.'
    {
      assert segment[cut + i - 1] != '.' || segment[cut + i] != '.';
    }
  }

  /** Hrefs without slashes that start like none of the external ones are read as they are. */
  lemma PlainHref(href: string)
    requires href != "" && Trimmed(href, PySpace) && Free(href, IsSlash)
    requires href[0] != '#' && !("mailto:" <= href)
    ensures Trim(href, PySpace) == href && Segment(href) == href
    ensures !ExternalStart(href)
  {
    hide *;
    WholeSegment(href);
    NotExternal(href);
  }

  lemma NotExternal(href: string)
    requires Free(href, IsSlash) && href != "" && href[0] != '#' && !("mailto:" <= href)
    ensures !ExternalStart(href)
  {
    assert |href| > 6 ==> href[6] != '/';
    assert |href| > 7 ==> href[7] != '/';
  }

  lemma WholeSegment(href: string)
    requires Trimmed(href, PySpace) && Free(href, IsSlash)
    ensures Trim(href, PySpace) == href && Segment(href) == href
  {
    hide PySpace, Free, Trim, TrimStart, TrimEnd;
    TrimOfTrimmed(href, PySpace);
  }

  lemma ParsePlain(whole: string)
    requires whole != "" && '\n' !in whole && !TwoDots(whole + ".md")
    requires Trimmed(whole + ".md", PySpace) && Free(whole + ".md", IsSlash)
    requires whole[0] != '#' && !("mailto:" <= whole + ".md")
    ensures ParseHref(whole + ".md") == SplitPrefix(whole)
  {
    hide PySpace, Trim, Segment, TwoDots, ExternalStart, SplitPrefix, Free, Trimmed;
    var href := whole + ".md";
    PlainHref(href);
    assert href[..|href| - 3] == whole;
  }

  /** Putting a name in front of a stem adds no dots, slashes or line ends. */
  lemma NamedShape(name: string, stem: string)
    requires StemShape(stem) && forall i | 0 <= i < |name| :: 'a' <= name[i] <= 'z' || name[i] == ':'
    requires name + stem != "" && !PySpace((name + stem)[0])
    ensures var href := name + stem + ".md";
            !TwoDots(href) && Free(href, IsSlash) && '\n' !in name + stem && Trimmed(href, PySpace)
  {
    hide PySpace;
    var named := stem + ".md";
    var href := name + stem + ".md";
    NoSpace('d');
    forall i | 0 < i < |href|
      ensures href[i - 1] != '.' || href[i] != '.'
    {
      if i > |name| {
        assert named[i - |name| - 1] != '.' || named[i - |name|] != '.';
      }
    }
  }

  lemma NoSpace(c: char)
    requires '!' <= c <= '~'
    ensures !PySpace(c)
  {
  }

  lemma ReadBackQualified(layer: Layer, stem: string)
    requires StemShape(stem)
    ensures ParseHref(LayerName(layer) + ":" + stem + ".md") == Memory(Some(layer), stem)
  {
    hide PySpace, TwoDots, ParseHref;
    var name := LayerName(layer) + ":";
    NoSpace(name[0]);
    NamedShape(name, stem);
    ParsePlain(name + stem);
    assert (name + stem)[|name|..] == stem;
  }

  lemma ReadBackBare(stem: string)
    requires StemShape(stem) && SafeName(stem)
    ensures ParseHref(stem + ".md") == Memory(None, stem)
  {
    hide PySpace, TwoDots, ParseHref;
    assert "" + stem == stem;
    NamedShape("", stem);
    assert |stem| >= 7 ==> (stem + ".md")[..7] == stem[..7];
    assert (stem + ".md")[|stem|] == '.';
    ParsePlain(stem);
  }

  /** The href a kept or retargeted link ends with. */
  function NewHref(href: string, src: Layer, surviving: map<string, Layer>): string {
    match Decide(href, src, surviving)
    case Retarget(h) => h
    case _ => href
  }

  /** A link whose target survives still names that target after the rewrite, in the layer where the
      target now lives, and nothing is left to rewrite. */
  lemma NewHrefKeepsTarget(href: string, src: Layer, surviving: map<string, Layer>)
    requires Free(href, IsParen)
    requires ParseHref(href).Memory? && ParseHref(href).stem in surviving && SafeName(ParseHref(href).stem)
    ensures ParseHref(NewHref(href, src, surviving)).Memory?
    ensures ParseHref(NewHref(href, src, surviving)).stem == ParseHref(href).stem
    ensures !Dangles(NewHref(href, src, surviving), src, surviving)
    ensures Decide(NewHref(href, src, surviving), src, surviving) == Keep
  {
    hide ParseHref, SafeName, StemShape;
    ParsedStem(href);
    var Memory(prefix, stem) := ParseHref(href);
    ReadBackQualified(surviving[stem], stem);
    ReadBackBare(stem);
  }

  /** A bare href to a name that is not `BareSafe` reads as an outside link or as another name. */
  lemma UnsafeBareHref(stem: string)
    requires StemShape(stem) && Trimmed(stem, PySpace) && !BareSafe(stem)
    ensures var r := ParseHref(stem + ".md"); r.External? || r.stem != stem
  {
    var href := stem + ".md";
    assert "" + stem == stem;
    assert !PySpace(stem[0]);
    NamedShape("", stem);
    WholeSegment(href);
    hide PySpace, Trim, Segment, TwoDots;
    assert href[..|href| - 3] == stem;
    assert "#" <= stem ==> "#" <= href;
    assert "mailto:" <= stem ==> "mailto:" <= href;
  }

  /** A bare href to a name that starts with `#` or `mailto:` is an outside link. */
  lemma ExternalBareHref(stem: string)
    requires StemShape(stem) && LinkName(stem) && !BareSafe(stem)
    ensures ParseHref(stem + ".md").External?
  {
    var href := stem + ".md";
    assert "" + stem == stem;
    NamedShape("", stem);
    WholeSegment(href);
    hide PySpace, Trim, Segment, TwoDots;
    assert "#" <= stem ==> "#" <= href;
    assert "mailto:" <= stem ==> "mailto:" <= href;
  }

  /** Exactly when the rewrite of one link keeps its target: always, unless it drops a wrong layer
      prefix from a name that a bare href cannot carry (one starting with `#`, `mailto:`, `agent:` or
      `user:`). */
  lemma TargetKeptIff(href: string, src: Layer, surviving: map<string, Layer>)
    requires Free(href, IsParen) && ParseHref(href).Memory?
    requires ParseHref(href).stem in surviving && Trimmed(ParseHref(href).stem, PySpace)
    ensures var stem, h := ParseHref(href).stem, NewHref(href, src, surviving);
            (ParseHref(h).Memory? && ParseHref(h).stem == stem && !Dangles(h, src, surviving))
            <==> (Decide(href, src, surviving) == Retarget(stem + ".md") ==> BareSafe(stem))
  {
    hide ParseHref, StemShape, BareSafe;
    ParsedStem(href);
    var Memory(prefix, stem) := ParseHref(href);
    ReadBackQualified(surviving[stem], stem);
    if BareSafe(stem) {
      BareIsSafe(stem);
      ReadBackBare(stem);
    } else {
      UnsafeBareHref(stem);
    }
  }

  lemma BareIsSafe(stem: string)
    requires StemShape(stem) && Trimmed(stem, PySpace) && BareSafe(stem)
    ensures SafeName(stem)
  {
  }

  // ---- Rewriting a body -----------------------------------------------------------------------

  /** What the rewrite of one file is told: its layer, where each survivor lives, today's date. */
  datatype View = View(src: Layer, surviving: map<string, Layer>, date: string)

  ghost predicate LinkNames(surviving: map<string, Layer>) {
    forall name <- surviving :: LinkName(name)
  }

  ghost predicate SafeNames(surviving: map<string, Layer>) {
    forall name <- surviving :: SafeName(name)
  }

  lemma SafeAreLinkNames(surviving: map<string, Layer>)
    requires SafeNames(surviving)
    ensures LinkNames(surviving)
  {
    hide LinkName, BareSafe;
  }

  function Note(target: string, date: string): string {
    "（" + date + " 迁移清理：目标 " + target + " 已移除）"
  }

  function Chars(s: string): seq<Token> {
    if s == "" then [] else [Ch(s[0])] + Chars(s[1..])
  }

  /** A dead link becomes plain text; the others stay links. */
  function Replace(t: Token, v: View): seq<Token> {
    match t
    case Ch(_) => [t]
    case Link(text, href) =>
      match Decide(href, v.src, v.surviving)
      case Keep => [t]
      case Delink(target) => Chars(text + Note(target, v.date))
      case Retarget(h) => [Link(text, h)]
  }

  function ReplaceAll(ts: seq<Token>, v: View): seq<Token> {
    if ts == [] then [] else Replace(ts[0], v) + ReplaceAll(ts[1..], v)
  }

  function RewriteLine(line: string, v: View): string {
    PrintAll(ReplaceAll(Scan(line), v))
  }

  function RewriteLines(ls: seq<string>, v: View): seq<string> {
    seq(|ls|, i requires 0 <= i < |ls| => RewriteLine(ls[i], v))
  }

  function RewriteBody(body: string, v: View): string {
    Flat(RewriteLines(Lines(body), v))
  }

  /** What is reported for one token: href rewrites, and dead targets. */
  function RewriteOf(t: Token, v: View): seq<(string, string)> {
    if t.Link? && Decide(t.href, v.src, v.surviving).Retarget? then
      [(Trim(t.href, PySpace), Decide(t.href, v.src, v.surviving).href)]
    else []
  }

  function DeadOf(t: Token, v: View): seq<string> {
    if t.Link? && Decide(t.href, v.src, v.surviving).Delink? then
      [Decide(t.href, v.src, v.surviving).target + ".md"]
    else []
  }

  function Rewrites(ts: seq<Token>, v: View): seq<(string, string)> {
    if ts == [] then [] else RewriteOf(ts[0], v) + Rewrites(ts[1..], v)
  }

  function Dead(ts: seq<Token>, v: View): seq<string> {
    if ts == [] then [] else DeadOf(ts[0], v) + Dead(ts[1..], v)
  }

  /** All the tokens the rewrite sees, line by line. */
  function ScanLines(ls: seq<string>): seq<Token> {
    if ls == [] then [] else Scan(ls[0]) + ScanLines(ls[1..])
  }

  predicate IsOpening(c: char) { c == '[' }

  lemma {:induction false} PrintConcat(a: seq<Token>, b: seq<Token>)
    ensures PrintAll(a + b) == PrintAll(a) + PrintAll(b)
  {
    hide Print;
    if a == [] {
      assert a + b == b;
    } else {
      calc {
        PrintAll(a + b);
        { assert (a + b)[1..] == a[1..] + b; }
        Print(a[0]) + PrintAll(a[1..] + b);
        { PrintConcat(a[1..], b); }
        Print(a[0]) + (PrintAll(a[1..]) + PrintAll(b));
        PrintAll(a) + PrintAll(b);
      }
    }
  }

  lemma {:induction false} ReplaceConcat(a: seq<Token>, b: seq<Token>, v: View)
    ensures ReplaceAll(a + b, v) == ReplaceAll(a, v) + ReplaceAll(b, v)
  {
    hide Replace;
    if a == [] {
      assert a + b == b;
    } else {
      calc {
        ReplaceAll(a + b, v);
        { assert (a + b)[1..] == a[1..] + b; }
        Replace(a[0], v) + ReplaceAll(a[1..] + b, v);
        { ReplaceConcat(a[1..], b, v); }
        Replace(a[0], v) + (ReplaceAll(a[1..], v) + ReplaceAll(b, v));
        ReplaceAll(a, v) + ReplaceAll(b, v);
      }
    }
  }

  /** Neither letters nor the punctuation the rewrite adds to an href are stops. */
  ghost predicate SparesNames(stop: char -> bool) {
    !stop(':') && !stop('.') && forall c | 'a' <= c <= 'z' :: !stop(c)
  }

  /** New hrefs and noted targets are made of the old href and layer names. */
  lemma ChangeFree(href: string, v: View, stop: char -> bool)
    requires Free(href, stop) && SparesNames(stop)
    ensures var d := Decide(href, v.src, v.surviving);
            (d.Retarget? ==> Free(d.href, stop)) && (d.Delink? ==> Free(d.target, stop))
  {
    hide ParseHref;
    if ParseHref(href).Memory? {
      StemFree(href, stop);
    }
  }

  // ---- Lines stay lines -------------------------------------------------------------------------

  lemma EnclosedSnoc(m: string, b: char, open: char, stop: char -> bool, close: char)
    requires !stop(b) && b != open && stop(close)
    ensures Enclosed(m + [b], open, stop, close) == Enclosed(m, open, stop, close)
  {
    if m != "" && m[0] == open {
      var inside := m[1..];
      assert (m + [b])[1..] == inside + [b];
      var k := FirstOf(inside, stop);
      assert (inside + [b])[..k] == inside[..k];
      if k < |inside| {
        FirstOfIs(inside + [b], stop, k);
      } else {
        FirstOfIs(inside + [b], stop, k + 1);
      }
    }
  }

  /** A line end is never part of a match. */
  lemma MatchSnoc(m: string, b: char)
    requires IsBreak(b) && m != ""
    ensures MatchHere(m + [b]) == MatchHere(m)
  {
    hide Enclosed;
    EnclosedSnoc(m, b, '[', IsBracket, ']');
    match Enclosed(m, '[', IsBracket, ']')
    case None =>
    case Some(text) =>
      assert (m + [b])[|text| + 2..] == m[|text| + 2..] + [b];
      EnclosedSnoc(m[|text| + 2..], b, '(', IsParen, ')');
  }

  lemma {:induction false} ScanSnoc(m: string, b: char)
    requires IsBreak(b)
    ensures Scan(m + [b]) == Scan(m) + [Ch(b)]
    decreases |m|
  {
    hide MatchHere, LinkShape, Print;
    if m == "" {
      assert m + [b] == [b];
      BreakAlone(b);
    } else {
      MatchSnoc(m, b);
      match MatchHere(m)
      case None =>
        assert (m + [b])[1..] == m[1..] + [b];
        ScanSnoc(m[1..], b);
      case Some(t) =>
        MatchIsPrefix(m);
        assert (m + [b])[|Print(t)|..] == m[|Print(t)|..] + [b];
        ScanSnoc(m[|Print(t)|..], b);
    }
  }

  lemma BreakAlone(b: char)
    requires IsBreak(b)
    ensures Scan([b]) == [Ch(b)]
  {
    assert Enclosed([b], '[', IsBracket, ']') == None;
    assert [b][1..] == "";
  }

  lemma RewriteSnoc(m: string, b: char, v: View)
    requires IsBreak(b)
    ensures RewriteLine(m + [b], v) == RewriteLine(m, v) + [b]
  {
    hide Scan, Replace;
    var out := ReplaceAll(Scan(m), v);
    calc {
      RewriteLine(m + [b], v);
      { ScanSnoc(m, b); }
      PrintAll(ReplaceAll(Scan(m) + [Ch(b)], v));
      { ReplaceConcat(Scan(m), [Ch(b)], v); ReplaceChar(b, v); }
      PrintAll(out + [Ch(b)]);
      { PrintConcat(out, [Ch(b)]); PrintOfOne(Ch(b)); }
      PrintAll(out) + [b];
    }
  }

  lemma ReplaceChar(b: char, v: View)
    ensures ReplaceAll([Ch(b)], v) == [Ch(b)]
  {
    assert ReplaceAll([Ch(b)], v) == Replace(Ch(b), v) + ReplaceAll([], v);
  }

  lemma PrintOfOne(t: Token)
    ensures PrintAll([t]) == Print(t)
  {
    assert PrintAll([t]) == Print(t) + PrintAll([]);
  }

  /** An ISO date: digits and hyphens. */
  predicate IsoDate(date: string) {
    forall i | 0 <= i < |date| :: '0' <= date[i] <= '9' || date[i] == '-'
  }

  lemma NoteFree(target: string, date: string)
    requires Free(target, IsBreak) && IsoDate(date)
    ensures Free(Note(target, date), IsBreak)
  {
    var opening, middle, closing := "（", " 迁移清理：目标 ", " 已移除）";
    assert Free(opening, IsBreak) && Free(date, IsBreak) && Free(middle, IsBreak) && Free(closing, IsBreak);
  }

  lemma LinkPrintFree(text: string, href: string)
    ensures Free(Print(Link(text, href)), IsBreak) <==> Free(text, IsBreak) && Free(href, IsBreak)
  {
    hide Free;
    FreeConcat("[" + text + "](" + href, ")", IsBreak);
    FreeConcat("[" + text + "](", href, IsBreak);
    FreeConcat("[" + text, "](", IsBreak);
    FreeConcat("[", text, IsBreak);
    PunctuationFree();
  }

  lemma PunctuationFree()
    ensures Free("[", IsBreak) && Free("](", IsBreak) && Free(")", IsBreak)
  {
  }

  lemma {:induction false} PrintOfChars(s: string)
    ensures PrintAll(Chars(s)) == s
  {
    if s != "" {
      PrintOfChars(s[1..]);
    }
  }

  lemma ReplaceOneFree(t: Token, v: View)
    requires Free(Print(t), IsBreak) && IsoDate(v.date)
    ensures Free(PrintAll(Replace(t, v)), IsBreak) && PrintAll(Replace(t, v)) != ""
  {
    hide Decide, Free, IsoDate, Note;
    PrintOfOne(t);
    if t.Link? {
      LinkPrintFree(t.text, t.href);
      ChangeFree(t.href, v, IsBreak);
      match Decide(t.href, v.src, v.surviving)
      case Keep =>
      case Delink(target) =>
        NoteFree(target, v.date);
        NoteNotEmpty(target, v.date);
        FreeConcat(t.text, Note(target, v.date), IsBreak);
        PrintOfChars(t.text + Note(target, v.date));
      case Retarget(h) =>
        PrintOfOne(Link(t.text, h));
        LinkPrintFree(t.text, h);
    }
  }

  lemma NoteNotEmpty(target: string, date: string)
    ensures Note(target, date) != ""
  {
  }

  /** The rewrite brings no line end into a line. */
  lemma {:induction false} ReplaceFree(ts: seq<Token>, v: View)
    requires IsoDate(v.date) && forall t <- ts :: Free(Print(t), IsBreak)
    ensures Free(PrintAll(ReplaceAll(ts, v)), IsBreak)
    ensures ts != [] ==> PrintAll(ReplaceAll(ts, v)) != ""
  {
    if ts != [] {
      hide Decide, Free;
      ReplaceFree(ts[1..], v);
      ReplaceOneFree(ts[0], v);
      PrintConcat(Replace(ts[0], v), ReplaceAll(ts[1..], v));
      FreeConcat(PrintAll(Replace(ts[0], v)), PrintAll(ReplaceAll(ts[1..], v)), IsBreak);
    }
  }

  lemma {:induction false} TokensFree(ts: seq<Token>, stop: char -> bool)
    requires Free(PrintAll(ts), stop)
    ensures forall t <- ts :: Free(Print(t), stop)
  {
    if ts != [] {
      FreeConcat(Print(ts[0]), PrintAll(ts[1..]), stop);
      TokensFree(ts[1..], stop);
    }
  }

  lemma RewriteFree(line: string, v: View)
    requires IsoDate(v.date) && Free(line, IsBreak)
    ensures Free(RewriteLine(line, v), IsBreak)
    ensures line != "" ==> RewriteLine(line, v) != ""
  {
    hide Free, IsoDate;
    PrintOfScan(line);
    TokensFree(Scan(line), IsBreak);
    ReplaceFree(Scan(line), v);
  }

  /** A rewritten line is still one line, with the same end. */
  lemma RewriteKeepsLine(line: string, v: View)
    requires IsoDate(v.date) && AnyLine(line)
    ensures FullLine(line) ==> FullLine(RewriteLine(line, v))
    ensures AnyLine(RewriteLine(line, v))
    ensures FullLine(line) ==>
              exists m, b :: line == m + [b] && IsBreak(b) && RewriteLine(line, v) == RewriteLine(m, v) + [b]
  {
    var n := FirstOf(line, IsBreak);
    if n == |line| {
      assert line[..n] == line;
      RewriteFree(line, v);
      FirstOfIs(RewriteLine(line, v), IsBreak, |RewriteLine(line, v)|);
    } else {
      var m, b := line[..n], line[n];
      assert line == m + [b];
      RewriteSnoc(m, b, v);
      RewriteFree(m, v);
      var r := RewriteLine(m, v);
      assert (r + [b])[..|r|] == r;
      FirstOfIs(r + [b], IsBreak, |r|);
    }
  }

  lemma LinesOfRewritten(body: string, v: View)
    requires IsoDate(v.date)
    ensures Lines(RewriteBody(body, v)) == RewriteLines(Lines(body), v)
  {
    hide RewriteLine, FullLine, AnyLine, IsoDate;
    var ls := Lines(body);
    var rs := RewriteLines(ls, v);
    LinesAreLines(body);
    forall i | 0 <= i < |ls| {
      RewriteKeepsLine(ls[i], v);
    }
    LinesOfLines(rs);
  }

  // ---- What the rewrite achieves ------------------------------------------------------------------

  predicate Resolved(t: Token, src: Layer, inventory: map<string, Layer>) {
    t.Link? ==> !Dangles(t.href, src, inventory)
  }

  /** `extract_dangling`: the hrefs of a body that do not resolve. */
  function DanglingHrefs(ts: seq<Token>, src: Layer, inventory: map<string, Layer>): seq<string> {
    if ts == [] then []
    else (if Resolved(ts[0], src, inventory) then [] else [ts[0].href]) + DanglingHrefs(ts[1..], src, inventory)
  }

  /** Nothing is left to do for a token. */
  predicate Settled(t: Token, v: View) {
    t.Link? ==> Decide(t.href, v.src, v.surviving) == Keep
  }

  /** What a link to a survivor ends as does not dangle and needs no rewrite. */
  lemma NewHrefSettles(href: string, src: Layer, surviving: map<string, Layer>)
    requires Free(href, IsParen)
    requires ParseHref(href).Memory? && ParseHref(href).stem in surviving && LinkName(ParseHref(href).stem)
    ensures !Dangles(NewHref(href, src, surviving), src, surviving)
    ensures Decide(NewHref(href, src, surviving), src, surviving) == Keep
  {
    hide ParseHref, StemShape;
    ParsedStem(href);
    var stem := ParseHref(href).stem;
    if BareSafe(stem) {
      NewHrefKeepsTarget(href, src, surviving);
    } else {
      ReadBackQualified(surviving[stem], stem);
      ExternalBareHref(stem);
    }
  }

  lemma ReplacedIsSettled(t: Token, v: View)
    requires LinkNames(v.surviving) && LinkShape(t)
    ensures forall r <- Replace(t, v) :: Settled(r, v) && Resolved(r, v.src, v.surviving)
  {
    hide ParseHref, LinkName, Note;
    if t.Link? {
      match Decide(t.href, v.src, v.surviving)
      case Delink(target) => CharsAreChars(t.text + Note(target, v.date));
      case _ =>
        if ParseHref(t.href).Memory? {
          NewHrefSettles(t.href, v.src, v.surviving);
        }
    }
  }

  lemma {:induction false} CharsAreChars(s: string)
    ensures forall t <- Chars(s) :: t.Ch?
  {
    if s != "" {
      CharsAreChars(s[1..]);
    }
  }

  lemma {:induction false} AllSettled(ts: seq<Token>, v: View)
    requires LinkNames(v.surviving) && forall t <- ts :: LinkShape(t)
    ensures forall r <- ReplaceAll(ts, v) :: Settled(r, v) && Resolved(r, v.src, v.surviving)
  {
    if ts != [] {
      hide Settled, Resolved, Replace, LinkShape;
      ReplacedIsSettled(ts[0], v);
      AllSettled(ts[1..], v);
    }
  }

  lemma {:induction false} ScanLinesShape(ls: seq<string>)
    ensures forall t <- ScanLines(ls) :: LinkShape(t)
  {
    if ls != [] {
      PrintOfScan(ls[0]);
      ScanLinesShape(ls[1..]);
    }
  }

  /** New hrefs hold no parenthesis, and link texts stay. */
  lemma ReplacedShape(t: Token, v: View)
    requires LinkShape(t)
    ensures forall r <- Replace(t, v) :: LinkShape(r)
  {
    hide Decide;
    if t.Link? {
      ChangeFree(t.href, v, IsParen);
      match Decide(t.href, v.src, v.surviving)
      case Delink(target) => CharsAreChars(t.text + Note(target, v.date));
      case _ =>
    }
  }

  lemma {:induction false} AllShaped(ts: seq<Token>, v: View)
    requires forall t <- ts :: LinkShape(t)
    ensures forall r <- ReplaceAll(ts, v) :: LinkShape(r)
  {
    if ts != [] {
      hide Replace, LinkShape;
      ReplacedShape(ts[0], v);
      AllShaped(ts[1..], v);
    }
  }

  /** The tokens of a rewritten body, in the order they are written. */
  function RewrittenTokens(body: string, v: View): seq<Token> {
    ReplaceAll(ScanLines(Lines(body)), v)
  }

  lemma {:induction false} LinesPrint(ls: seq<string>, v: View)
    ensures PrintAll(ReplaceAll(ScanLines(ls), v)) == Flat(RewriteLines(ls, v))
  {
    hide Scan, Replace, RewriteLine;
    if ls != [] {
      var rest := ScanLines(ls[1..]);
      LinesPrint(ls[1..], v);
      ReplaceConcat(Scan(ls[0]), rest, v);
      PrintConcat(ReplaceAll(Scan(ls[0]), v), ReplaceAll(rest, v));
      assert RewriteLines(ls, v)[1..] == RewriteLines(ls[1..], v);
      assert RewriteLines(ls, v)[0] == PrintAll(ReplaceAll(Scan(ls[0]), v)) by { RewriteIs(ls[0], v); }
    }
  }

  lemma RewriteIs(line: string, v: View)
    ensures RewriteLine(line, v) == PrintAll(ReplaceAll(Scan(line), v))
  {
  }

  lemma BodyPrints(body: string, v: View)
    ensures RewriteBody(body, v) == PrintAll(RewrittenTokens(body, v))
    ensures forall t <- RewrittenTokens(body, v) :: LinkShape(t)
  {
    hide Scan, ReplaceAll, RewriteLines, LinkShape, ScanLines;
    LinesPrint(Lines(body), v);
    ScanLinesShape(Lines(body));
    AllShaped(ScanLines(Lines(body)), v);
  }

  lemma RewrittenIsSettled(body: string, v: View)
    requires LinkNames(v.surviving)
    ensures forall t <- RewrittenTokens(body, v) :: Settled(t, v) && Resolved(t, v.src, v.surviving)
  {
    hide Settled, Resolved, ReplaceAll, ScanLines, LinkNames;
    ScanLinesShape(Lines(body));
    AllSettled(ScanLines(Lines(body)), v);
  }

  // ---- Links that only the text makes --------------------------------------------------------------

  lemma {:induction false} CloserOf(ts: seq<Token>, at: nat, q: nat) returns (j: nat)
    requires q in Closers(ts, at)
    ensures j < |ts| && ts[j].Link? && q == at + |PrintAll(ts[..j])| + 1 + |ts[j].text|
  {
    if ts[0].Link? && q == at + 1 + |ts[0].text| {
      assert ts[..0] == [];
      j := 0;
    } else {
      var k := CloserOf(ts[1..], at + |Print(ts[0])|, q);
      PrintCons(ts[0], ts[1..][..k]);
      assert ts[..k + 1] == [ts[0]] + ts[1..][..k];
      j := k + 1;
    }
  }

  /** The text from the closer of a link on is its href, whatever came before. */
  lemma HrefAfterCloser(ts: seq<Token>, j: nat)
    requires j < |ts| && ts[j].Link?
    ensures var q := |PrintAll(ts[..j])| + 1 + |ts[j].text|;
            q + 1 <= |PrintAll(ts)| && exists rest :: PrintAll(ts)[q + 1..] == "(" + ts[j].href + ")" + rest
  {
    hide PrintAll;
    var t, rest := ts[j], PrintAll(ts[j + 1..]);
    assert ts == ts[..j] + [t] + ts[j + 1..];
    PrintThree(ts[..j], t, ts[j + 1..]);
    var front := PrintAll(ts[..j]) + ("[" + t.text + "]");
    assert PrintAll(ts) == front + ("(" + t.href + ")" + rest);
    assert |front| == |PrintAll(ts[..j])| + 2 + |t.text|;
  }

  /** A match that ends its text at the closer of a printed link has the href of that link. */
  lemma MatchAtCloser(ts: seq<Token>, i: nat)
    requires (forall t <- ts :: LinkShape(t)) && i <= |PrintAll(ts)|
    requires var m := MatchHere(PrintAll(ts)[i..]); m.Some? && m.value.Link? && i + 1 + |m.value.text| in Closers(ts, 0)
    ensures exists r <- ts :: r.Link? && r.href == MatchHere(PrintAll(ts)[i..]).value.href
  {
    hide PrintAll, Closers, Enclosed;
    var s := PrintAll(ts);
    var t := MatchHere(s[i..]).value;
    var j := CloserOf(ts, 0, i + 1 + |t.text|);
    HrefAfterCloser(ts, j);
    var r := ts[j];
    assert r in ts && LinkShape(r);
    var q := i + 1 + |t.text|;
    var rest :| s[q + 1..] == "(" + r.href + ")" + rest;
    EnclosedBetween(r.href, rest, '(', IsParen, ')');
    assert s[i..][|t.text| + 2..] == s[q + 1..];
  }

  /** Every link of the scan has the href of a printed link, or is loose. */
  lemma {:induction false} LinksOfScan(ts: seq<Token>, i: nat)
    requires (forall t <- ts :: LinkShape(t)) && i <= |PrintAll(ts)|
    ensures var s := PrintAll(ts);
            && (forall t <- Scan(s[i..]) | t.Link? ::
                  t in LooseFrom(s, i, Closers(ts, 0)) || exists r <- ts :: r.Link? && r.href == t.href)
            && (forall t <- LooseFrom(s, i, Closers(ts, 0)) :: t in Scan(s[i..]) && t.Link?)
    decreases |PrintAll(ts)| - i
  {
    hide PrintAll, Closers, MatchHere, LinkShape, Print;
    var s := PrintAll(ts);
    if i < |s| {
      match MatchHere(s[i..])
      case None =>
        assert s[i..][1..] == s[i + 1..];
        LinksOfScan(ts, i + 1);
      case Some(t) =>
        MatchIsPrefix(s[i..]);
        assert s[i..][|Print(t)|..] == s[i + |Print(t)|..];
        LinksOfScan(ts, i + |Print(t)|);
        if i + 1 + |t.text| in Closers(ts, 0) {
          MatchAtCloser(ts, i);
        }
    }
  }

  lemma LinksOfPrint(ts: seq<Token>)
    requires forall t <- ts :: LinkShape(t)
    ensures forall t <- Scan(PrintAll(ts)) | t.Link? ::
              t in LooseLinks(ts) || exists r <- ts :: r.Link? && r.href == t.href
    ensures forall t <- LooseLinks(ts) :: t in Scan(PrintAll(ts)) && t.Link?
  {
    hide PrintAll, Closers, LooseFrom, Scan;
    LinksOfScan(ts, 0);
    assert PrintAll(ts)[0..] == PrintAll(ts);
  }

  lemma {:induction false} DanglingIff(ts: seq<Token>, src: Layer, inventory: map<string, Layer>)
    ensures DanglingHrefs(ts, src, inventory) == [] <==> forall t <- ts :: Resolved(t, src, inventory)
  {
    hide Resolved;
    if ts != [] {
      DanglingIff(ts[1..], src, inventory);
      assert ts == [ts[0]] + ts[1..];
    }
  }

  /** Zero dangling, exactly: every memory link of a rewritten body resolves, in every inventory that
      lists the survivors where they live, if and only if the links that only the text makes do. */
  lemma ResolvesIff(body: string, v: View, inventory: map<string, Layer>)
    requires LinkNames(v.surviving)
    requires forall name <- v.surviving :: name in inventory && inventory[name] == v.surviving[name]
    ensures DanglingHrefs(Scan(RewriteBody(body, v)), v.src, inventory) == []
            <==> forall t <- LooseLinks(RewrittenTokens(body, v)) :: !Dangles(t.href, v.src, inventory)
  {
    hide Scan, RewrittenTokens, RewriteBody, LinkNames, ParseHref, LooseLinks, PrintAll, LinkShape, DanglingHrefs;
    BodyPrints(body, v);
    RewrittenIsSettled(body, v);
    LinksOfPrint(RewrittenTokens(body, v));
    DanglingIff(Scan(RewriteBody(body, v)), v.src, inventory);
  }

  /** Zero dangling links, for every body in which no bracket outside a link is closed by a `](` outside
      a link once the dead links are plain text. */
  lemma RewrittenBodyResolves(body: string, v: View, inventory: map<string, Layer>)
    requires LinkNames(v.surviving) && GapFree(RewrittenTokens(body, v))
    requires forall name <- v.surviving :: name in inventory && inventory[name] == v.surviving[name]
    ensures DanglingHrefs(Scan(RewriteBody(body, v)), v.src, inventory) == []
  {
    hide Scan, RewrittenTokens, RewriteBody, LinkNames, GapFree, LooseLinks, LinkShape, DanglingHrefs;
    BodyPrints(body, v);
    GapFreeNoneLoose(RewrittenTokens(body, v));
    ResolvesIff(body, v, inventory);
  }

  // ---- A second rewrite -----------------------------------------------------------------------------

  lemma {:induction false} SettledStays(ts: seq<Token>, v: View)
    requires forall t <- ts :: Settled(t, v)
    ensures ReplaceAll(ts, v) == ts && Rewrites(ts, v) == [] && Dead(ts, v) == []
  {
    if ts != [] {
      hide Settled, ReplaceAll, Rewrites, Dead;
      SettledStays(ts[1..], v);
      SettledHead(ts, v);
    } else {
      NothingToReplace(v);
    }
  }

  lemma NothingToReplace(v: View)
    ensures ReplaceAll([], v) == [] && Rewrites([], v) == [] && Dead([], v) == []
  {
  }

  lemma SettledHead(ts: seq<Token>, v: View)
    requires ts != [] && Settled(ts[0], v)
    ensures ReplaceAll(ts, v) == [ts[0]] + ReplaceAll(ts[1..], v)
    ensures Rewrites(ts, v) == Rewrites(ts[1..], v) && Dead(ts, v) == Dead(ts[1..], v)
  {
    hide Decide;
  }

  lemma {:induction false} SilentIff(ts: seq<Token>, v: View)
    ensures Rewrites(ts, v) == [] && Dead(ts, v) == [] <==> forall t <- ts :: Settled(t, v)
  {
    hide Settled, RewriteOf, DeadOf;
    if ts != [] {
      SilentIff(ts[1..], v);
      SilentOne(ts[0], v);
      assert ts == [ts[0]] + ts[1..];
    }
  }

  lemma SilentOne(t: Token, v: View)
    ensures RewriteOf(t, v) == [] && DeadOf(t, v) == [] <==> Settled(t, v)
  {
    hide Decide;
  }

  /** A rewritten line is left alone by a second rewrite, which reports nothing, exactly when the links
      that only its text makes need none. */
  lemma RewriteLineTwice(line: string, v: View)
    requires LinkNames(v.surviving)
    ensures Silent(RewriteLine(line, v), v) <==> LineSettled(line, v)
    ensures LineSettled(line, v) ==> RewriteLine(RewriteLine(line, v), v) == RewriteLine(line, v)
  {
    hide Scan, ReplaceAll, LinkNames, LinkShape, LooseLinks, PrintAll, Decide, Rewrites, Dead;
    var ts := ReplaceAll(Scan(line), v);
    PrintOfScan(line);
    AllShaped(Scan(line), v);
    AllSettled(Scan(line), v);
    LinksOfPrint(ts);
    var again := Scan(RewriteLine(line, v));
    SilentIff(again, v);
    PrintOfScan(RewriteLine(line, v));
    if LineSettled(line, v) {
      SettledStays(again, v);
    }
  }

  /** The links that only its text makes, in a rewritten line, need no rewrite. */
  ghost predicate LineSettled(line: string, v: View) {
    forall t <- LooseLinks(ReplaceAll(Scan(line), v)) :: Settled(t, v)
  }

  predicate Silent(line: string, v: View) {
    Rewrites(Scan(line), v) == [] && Dead(Scan(line), v) == []
  }

  /** Idempotence, exactly: rewriting a rewritten body reports nothing if and only if the links that only
      the text of a line makes need no rewrite; then it changes nothing. */
  lemma RewriteBodyTwice(body: string, v: View)
    requires IsoDate(v.date) && LinkNames(v.surviving)
    ensures (forall l <- Lines(RewriteBody(body, v)) :: Silent(l, v)) <==> forall l <- Lines(body) :: LineSettled(l, v)
    ensures (forall l <- Lines(body) :: LineSettled(l, v)) ==>
            RewriteBody(RewriteBody(body, v), v) == RewriteBody(body, v)
  {
    hide RewriteLine, LineSettled, Silent, LinkNames, IsoDate, Lines;
    LinesOfRewritten(body, v);
    LinesTwice(Lines(body), v);
  }

  lemma LinesTwice(ls: seq<string>, v: View)
    requires LinkNames(v.surviving)
    ensures var rs := RewriteLines(ls, v);
            && ((forall l <- rs :: Silent(l, v)) <==> forall l <- ls :: LineSettled(l, v))
            && ((forall l <- ls :: LineSettled(l, v)) ==> RewriteLines(rs, v) == rs)
  {
    hide RewriteLine, LineSettled, Silent, LinkNames;
    var rs := RewriteLines(ls, v);
    forall i | 0 <= i < |ls|
      ensures rs[i] in rs && ls[i] in ls && (Silent(rs[i], v) <==> LineSettled(ls[i], v))
      ensures LineSettled(ls[i], v) ==> RewriteLine(rs[i], v) == rs[i]
    {
      RewriteLineTwice(ls[i], v);
    }
  }

  // ---- Meaning ------------------------------------------------------------------------------------

  /** What a reader takes from a body: characters and, where a link ends, the target that was given. */
  datatype Piece = Said(c: char) | Outside(href: string) | Names(stem: string)

  function Spoken(s: string): (r: seq<Piece>)
    ensures |r| == |s| && forall i | 0 <= i < |s| :: r[i] == Said(s[i])
  {
    if s == "" then [] else [Said(s[0])] + Spoken(s[1..])
  }

  /** Links to survivors by their target, dead links as the text that replaces them. */
  function ReadingOf(t: Token, v: View): seq<Piece> {
    match t
    case Ch(c) => [Said(c)]
    case Link(text, href) =>
      match ParseHref(href)
      case External => Spoken("[" + text + "]") + [Outside(href)]
      case Memory(prefix, stem) =>
        if stem in v.surviving then Spoken("[" + text + "]") + [Names(stem)]
        else Spoken(text + Note(Qualified(prefix, stem), v.date))
  }

  function Reading(ts: seq<Token>, v: View): seq<Piece> {
    if ts == [] then [] else ReadingOf(ts[0], v) + Reading(ts[1..], v)
  }

  lemma {:induction false} ReadingConcat(a: seq<Token>, b: seq<Token>, v: View)
    ensures Reading(a + b, v) == Reading(a, v) + Reading(b, v)
  {
    hide ReadingOf;
    if a == [] {
      assert a + b == b;
    } else {
      calc {
        Reading(a + b, v);
        { assert (a + b)[1..] == a[1..] + b; }
        ReadingOf(a[0], v) + Reading(a[1..] + b, v);
        { ReadingConcat(a[1..], b, v); }
        ReadingOf(a[0], v) + (Reading(a[1..], v) + Reading(b, v));
        Reading(a, v) + Reading(b, v);
      }
    }
  }

  lemma ReadingOfOne(t: Token, v: View)
    ensures Reading([t], v) == ReadingOf(t, v)
  {
    assert Reading([t], v) == ReadingOf(t, v) + Reading([], v);
  }

  lemma SpokenConcat(a: string, b: string)
    ensures Spoken(a + b) == Spoken(a) + Spoken(b)
  {
  }

  lemma {:induction false} ReadingOfChars(s: string, v: View)
    ensures Reading(Chars(s), v) == Spoken(s)
  {
    if s != "" {
      ReadingOfChars(s[1..], v);
      assert Chars(s)[1..] == Chars(s[1..]);
    }
  }

  lemma ReplaceKeepsReading(t: Token, v: View)
    requires SafeNames(v.surviving) && LinkShape(t)
    ensures Reading(Replace(t, v), v) == ReadingOf(t, v)
  {
    hide ParseHref, SafeName, Note, Spoken, Reading;
    if t.Link? {
      match ParseHref(t.href)
      case External => ReadingOfOne(t, v);
      case Memory(prefix, stem) =>
        if stem in v.surviving {
          NewHrefKeepsTarget(t.href, v.src, v.surviving);
          var r := Link(t.text, NewHref(t.href, v.src, v.surviving));
          assert Replace(t, v) == [r];
          ReadingOfOne(r, v);
        } else {
          ReadingOfChars(t.text + Note(Qualified(prefix, stem), v.date), v);
        }
    } else {
      ReadingOfOne(t, v);
    }
  }

  lemma {:induction false} ReplaceAllKeepsReading(ts: seq<Token>, v: View)
    requires SafeNames(v.surviving) && forall t <- ts :: LinkShape(t)
    ensures Reading(ReplaceAll(ts, v), v) == Reading(ts, v)
  {
    if ts != [] {
      hide LinkShape, Replace, ReadingOf, SafeNames;
      ReplaceKeepsReading(ts[0], v);
      ReplaceAllKeepsReading(ts[1..], v);
      ReadingConcat(Replace(ts[0], v), ReplaceAll(ts[1..], v), v);
    }
  }

  /** A link that is not dead. */
  predicate Alive(t: Token, v: View) {
    t.Link? ==> ParseHref(t.href).External? || ParseHref(t.href).stem in v.surviving
  }

  lemma {:induction false} ReadingOfInside(ts: seq<Token>, v: View)
    requires forall i | 0 <= i < |ts| :: Inside(ts[i])
    ensures Reading(ts, v) == Spoken(PrintAll(ts))
  {
    if ts != [] {
      ReadingOfInside(ts[1..], v);
      assert PrintAll(ts) == [ts[0].c] + PrintAll(ts[1..]);
      assert Spoken(PrintAll(ts)) == [Said(ts[0].c)] + Spoken(PrintAll(ts[1..]));
    }
  }

  lemma ReadingOfTaken(before: seq<Token>, link: Token, v: View)
    requires link.Link? && Alive(link, v) && forall i | 0 <= i < |before| :: Inside(before[i])
    ensures ReadingOf(Taken(before, link), v) == Reading([Ch('[')] + before + [link], v)
  {
    hide ParseHref, PrintAll, Reading, Spoken, Inside, Note;
    ReadingConcat([Ch('[')] + before, [link], v);
    ReadingConcat([Ch('[')], before, v);
    ReadingOfOne(Ch('['), v);
    ReadingOfOne(link, v);
    ReadingOfInside(before, v);
    var text, inner := PrintAll(before), "[" + link.text + "]";
    SpokenConcat("[" + text, inner);
    SpokenConcat("[", text);
    SpokenOpening();
    TakenText(text, link.text);
  }

  lemma SpokenOpening()
    ensures Spoken("[") == [Said('[')]
  {
  }

  lemma TakenText(text: string, inner: string)
    ensures "[" + (text + "[" + inner) + "]" == "[" + text + ("[" + inner + "]")
  {
  }

  lemma ReadingStep(ts: seq<Token>, v: View)
    requires ts != [] && forall t <- ts :: Alive(t, v)
    ensures Joined(ts) != [] && ReadingOf(Joined(ts)[0], v) == Reading(ts[..Taking(ts)], v)
  {
    hide Alive, Reading, ReadingOf, PrintAll, Taken;
    if ts[0] == Ch('[') && Closes(ts[1..]).ByLink? {
      ClosesIs(ts[1..]);
      TakenReads(ts, Closes(ts[1..]).at, v);
    } else {
      assert ts[..1] == [ts[0]];
      ReadingOfOne(ts[0], v);
    }
  }

  lemma TakenReads(ts: seq<Token>, k: nat, v: View)
    requires k + 1 < |ts| && ts[0] == Ch('[') && ts[k + 1].Link? && forall i | 0 <= i < k :: Inside(ts[1..][i])
    requires forall t <- ts :: Alive(t, v)
    ensures ReadingOf(Taken(ts[1..][..k], ts[1..][k]), v) == Reading(ts[..k + 2], v)
  {
    hide Alive, Reading, ReadingOf, PrintAll, Taken, Inside;
    var before, link := ts[1..][..k], ts[1..][k];
    assert link in ts;
    ReadingOfTaken(before, link, v);
    assert ts[..k + 2] == [Ch('[')] + before + [link];
  }

  /** At a loose link the scan reads a target, or a notice, where the printed tokens had a character. */
  lemma LooseReads(ts: seq<Token>, v: View)
    requires LooseHere(ts)
    ensures Reading(Scan(PrintAll(ts)), v) != Reading(ts, v)
  {
    LooseScans(ts);
    var after := LooseSplits(ts, v);
    ScanReads(Scan(PrintAll(ts)), v);
    var scanned := Scan(PrintAll(ts));
    hide *;
    ReadsApart(scanned[0], scanned[0].text, Reading(scanned[1..], v), Reading(after, v), v);
  }

  lemma ScanReads(ts: seq<Token>, v: View)
    requires ts != []
    ensures Reading(ts, v) == ReadingOf(ts[0], v) + Reading(ts[1..], v)
  {
  }

  lemma LooseSplits(ts: seq<Token>, v: View) returns (after: seq<Token>)
    requires LooseHere(ts)
    ensures var m := MatchHere(PrintAll(ts)).value;
            m.Link? && Reading(ts, v) == Spoken("[" + m.text + "](") + Reading(after, v)
  {
    MatchIsPrefix(PrintAll(ts));
    var rest := ts[1..];
    PrintHead(ts);
    PrintOfChar('[');
    ClosesIs(rest);
    hide MatchHere, PrintAll, Reading, Spoken, Closes, Inside, Print;
    GapMatch(rest);
    var k := Closes(rest).at;
    after := rest[k + 2..];
    GapReading(rest, k, v);
  }

  lemma GapReading(rest: seq<Token>, k: nat, v: View)
    requires k + 1 < |rest| && rest[k] == Ch(']') && rest[k + 1] == Ch('(') && forall i | 0 <= i < k :: Inside(rest[i])
    ensures Reading([Ch('[')] + rest, v) == Spoken("[" + PrintAll(rest[..k]) + "](") + Reading(rest[k + 2..], v)
  {
    hide PrintAll, Reading, Spoken, Inside;
    var front := [Ch('[')] + rest[..k] + [Ch(']')] + [Ch('(')];
    assert [Ch('[')] + rest == front + rest[k + 2..];
    ReadingConcat(front, rest[k + 2..], v);
    ReadingOfFront(rest[..k], v);
  }

  lemma ReadingOfFront(before: seq<Token>, v: View)
    requires forall i | 0 <= i < |before| :: Inside(before[i])
    ensures Reading([Ch('[')] + before + [Ch(']')] + [Ch('(')], v) == Spoken("[" + PrintAll(before) + "](")
  {
    hide Reading, PrintAll, Spoken, Inside;
    ReadingConcat([Ch('[')] + before + [Ch(']')], [Ch('(')], v);
    ReadingConcat([Ch('[')] + before, [Ch(']')], v);
    ReadingConcat([Ch('[')], before, v);
    ReadingOfOne(Ch('['), v);
    ReadingOfOne(Ch(']'), v);
    ReadingOfOne(Ch('('), v);
    ReadingOfInside(before, v);
    var text := PrintAll(before);
    SpokenConcat("[" + text, "](");
    SpokenConcat("[", text);
    assert Spoken("](") == [Said(']'), Said('(')] && Spoken("[") == [Said('[')];
  }

  lemma ReadsApart(t: Token, text: string, a: seq<Piece>, b: seq<Piece>, v: View)
    requires t.Link? && t.text == text
    ensures ReadingOf(t, v) + a != Spoken("[" + text + "](") + b
  {
    hide ParseHref, Note;
    var x, y := ReadingOf(t, v) + a, Spoken("[" + text + "](") + b;
    match ParseHref(t.href)
    case External => assert x[|text| + 2] != y[|text| + 2];
    case Memory(prefix, stem) =>
      if stem in v.surviving {
        assert x[|text| + 2] != y[|text| + 2];
      } else {
        var note := Note(Qualified(prefix, stem), v.date);
        NoteStart(Qualified(prefix, stem), v.date);
        if x == y {
          forall i | 0 <= i <= |text|
            ensures ("[" + text)[i] == (text + note)[i]
          {
            assert x[i] == Said((text + note)[i]) && y[i] == Said(("[" + text + "](")[i]);
          }
          AllOpening(text, note, |text|);
        }
      }
  }

  lemma NoteStart(target: string, date: string)
    ensures Note(target, date) != "" && Note(target, date)[0] == '（'
  {
  }

  lemma {:induction false} AllOpening(text: string, note: string, n: nat)
    requires n <= |text| && note != "" && forall i | 0 <= i <= n :: ("[" + text)[i] == (text + note)[i]
    ensures (text + note)[n] == '['
  {
    if n > 0 {
      AllOpening(text, note, n - 1);
    }
  }

  lemma {:induction false} ReadingFromIff(pre: string, ts: seq<Token>, closers: set<nat>, v: View)
    requires (forall t <- ts :: LinkShape(t)) && (forall t <- ts :: Alive(t, v)) && Agrees(closers, ts, |pre|)
    ensures LooseFrom(pre + PrintAll(ts), |pre|, closers) == [] <==> Reading(Scan(PrintAll(ts)), v) == Reading(ts, v)
    decreases |ts|
  {
    hide Scan, MatchHere, LinkShape, PrintAll, LooseFrom, Agrees, Taking, LooseHere, Alive, Reading, ReadingOf, Joined;
    if ts == [] {
      NothingToPrint();
      ScanEmpty();
      LooseEnds(pre, closers);
    } else {
      var n := Taking(ts);
      LooseStep(pre, ts, closers);
      if LooseHere(ts) {
        LooseReads(ts, v);
      } else {
        ReadingFromIff(pre + PrintAll(ts[..n]), ts[n..], closers, v);
        ReadingSynced(ts, v);
      }
    }
  }

  /** The readings of the tokens and of the scan begin alike where no loose link starts. */
  lemma ReadingSynced(ts: seq<Token>, v: View)
    requires ts != [] && !LooseHere(ts) && (forall t <- ts :: LinkShape(t)) && forall t <- ts :: Alive(t, v)
    ensures Reading(Scan(PrintAll(ts)), v) == Reading(ts, v)
            <==> Reading(Scan(PrintAll(ts[Taking(ts)..])), v) == Reading(ts[Taking(ts)..], v)
  {
    hide Scan, MatchHere, LinkShape, PrintAll, Taking, LooseHere, Alive, Reading, ReadingOf, Joined;
    var n := Taking(ts);
    ScanOfStep(ts);
    ReadingStep(ts, v);
    assert ts == ts[..n] + ts[n..];
    ReadingConcat(ts[..n], ts[n..], v);
    var rest := Scan(PrintAll(ts[n..]));
    ReadingConcat([Joined(ts)[0]], rest, v);
    ReadingOfOne(Joined(ts)[0], v);
    PrefixCancels(ReadingOf(Joined(ts)[0], v), Reading(rest, v), Reading(ts[n..], v));
  }

  lemma ReadingIff(ts: seq<Token>, v: View)
    requires (forall t <- ts :: LinkShape(t)) && forall t <- ts :: Alive(t, v)
    ensures LooseLinks(ts) == [] <==> Reading(Scan(PrintAll(ts)), v) == Reading(ts, v)
  {
    hide Scan, PrintAll, LooseFrom, Closers, LinkShape, Alive, Reading;
    assert "" + PrintAll(ts) == PrintAll(ts);
    ReadingFromIff("", ts, Closers(ts, 0), v);
  }

  lemma SettledIsAlive(t: Token, v: View)
    requires Settled(t, v)
    ensures Alive(t, v)
  {
    hide ParseHref;
  }

  lemma AllAlive(ts: seq<Token>, v: View)
    requires LinkNames(v.surviving) && forall t <- ts :: LinkShape(t)
    ensures forall r <- ReplaceAll(ts, v) :: LinkShape(r) && Alive(r, v)
  {
    hide LinkShape, Settled, Alive, ReplaceAll, LinkNames;
    AllShaped(ts, v);
    AllSettled(ts, v);
    forall r | r in ReplaceAll(ts, v) {
      SettledIsAlive(r, v);
    }
  }

  /** Meaning, line by line and exactly: a rewritten line, read back from its text, says the same
      characters and names the same targets at the same places if and only if no link is made by its text
      alone. */
  lemma RewriteLineKeepsReading(line: string, v: View)
    requires SafeNames(v.surviving)
    ensures Reading(Scan(RewriteLine(line, v)), v) == Reading(Scan(line), v)
            <==> LooseLinks(ReplaceAll(Scan(line), v)) == []
  {
    hide Scan, ReplaceAll, SafeNames, LinkNames, Reading, LinkShape, LooseLinks, Alive, PrintAll;
    PrintOfScan(line);
    SafeAreLinkNames(v.surviving);
    AllAlive(Scan(line), v);
    ReadingIff(ReplaceAll(Scan(line), v), v);
    ReplaceAllKeepsReading(Scan(line), v);
  }

  /** The same of a whole body, read back at once as the check after the run reads it. */
  lemma RewriteKeepsReading(body: string, v: View)
    requires SafeNames(v.surviving)
    ensures Reading(Scan(RewriteBody(body, v)), v) == Reading(ScanLines(Lines(body)), v)
            <==> LooseLinks(RewrittenTokens(body, v)) == []
  {
    hide Scan, ReplaceAll, RewriteBody, SafeNames, LinkNames, Reading, LinkShape, LooseLinks, Alive, PrintAll,
      ScanLines;
    BodyPrints(body, v);
    ScanLinesShape(Lines(body));
    SafeAreLinkNames(v.surviving);
    AllAlive(ScanLines(Lines(body)), v);
    ReadingIff(RewrittenTokens(body, v), v);
    ReplaceAllKeepsReading(ScanLines(Lines(body)), v);
  }

  // ---- Links that the rewrite itself makes --------------------------------------------------------

  lemma {:induction false} ScanText(text: string, rest: string)
    requires Free(text, IsOpening)
    ensures Scan(text + rest) == Chars(text) + Scan(rest)
  {
    hide Scan, MatchHere;
    if text == "" {
      assert text + rest == rest;
    } else {
      SliceFree(text, 1, |text|, IsOpening);
      assert text[1..|text|] == text[1..];
      ScanText(text[1..], rest);
      assert text + rest == Print(Ch(text[0])) + (text[1..] + rest);
      ScanStep(Ch(text[0]), text[1..] + rest);
    }
  }

  predicate NotPlain(c: char) {
    IsSlash(c) || IsBreak(c) || c == '.' || IsParen(c)
  }

  lemma NoteIsPlain(target: string, date: string)
    requires Free(target, NotPlain) && IsoDate(date)
    ensures Free(Note(target, date), NotPlain)
  {
    var opening, middle, closing := "（", " 迁移清理：目标 ", " 已移除）";
    assert Free(opening, NotPlain) && Free(date, NotPlain) && Free(middle, NotPlain) && Free(closing, NotPlain);
    FreeConcat(opening + date + middle + target, closing, NotPlain);
    FreeConcat(opening + date + middle, target, NotPlain);
    FreeConcat(opening + date, middle, NotPlain);
    FreeConcat(opening, date, NotPlain);
  }

  /** A link around a link: its parenthesis meets another one first. */
  function Nested(text: string, before: string, link: Token, tail: string): string {
    "[" + (text + "](" + before + (Print(link) + tail))
  }

  lemma PrintTail(link: Token, tail: string)
    requires link.Link?
    ensures Print(link) + tail == "[" + link.text + "]" + ("(" + (link.href + ")" + tail))
  {
  }

  lemma NestedIsBlocked(text: string, before: string, link: Token, tail: string)
    requires Free(text, IsBracket) && Free(before, IsParen) && link.Link? && Free(link.text, IsParen)
    ensures MatchHere(Nested(text, before, link, tail)) == None
  {
    hide MatchHere, Print;
    var bracketed := "[" + link.text + "]";
    var stop := "(" + (link.href + ")" + tail);
    var second := "(" + (before + bracketed + stop);
    PrintTail(link, tail);
    assert before + (Print(link) + tail) == before + bracketed + stop;
    assert Nested(text, before, link, tail) == "[" + text + "]" + second by {
      assert text + "](" + before + (Print(link) + tail) == text + "](" + (before + (Print(link) + tail));
    }
    FreeConcat("[" + link.text, "]", IsParen);
    FreeConcat("[", link.text, IsParen);
    FreeConcat(before, bracketed, IsParen);
    ParenthesisBlocks(text, before + bracketed, stop);
  }

  lemma ParenthesisBlocks(text: string, before: string, stop: string)
    requires Free(text, IsBracket) && Free(before, IsParen) && stop != "" && stop[0] == '('
    ensures MatchHere("[" + text + "]" + ("(" + (before + stop))) == None
  {
    var second := "(" + (before + stop);
    EnclosedBetween(text, second, '[', IsBracket, ']');
    assert ("[" + text + "]" + second)[|text| + 2..] == second;
    assert second[1..] == before + stop && (before + stop)[..|before|] == before;
    FirstOfIs(before + stop, IsParen, |before|);
  }

  /** The scan sees only the inner link. */
  lemma ScanOfNested(text: string, before: string, link: Token, tail: string)
    requires Free(text, IsBracket) && Free(before, IsParen)
    requires link.Link? && LinkShape(link) && Free(link.text, IsParen)
    requires Free(text + "](" + before, IsOpening) && Free(tail, IsOpening)
    ensures Scan(Nested(text, before, link, tail))
         == [Ch('[')] + (Chars(text + "](" + before) + ([link] + Chars(tail)))
  {
    NestedIsBlocked(text, before, link, tail);
    hide Scan, MatchHere, Print, Free, LinkShape;
    var lead := text + "](" + before;
    PrintOfChar('[');
    ScanStep(Ch('['), lead + (Print(link) + tail));
    ScanText(lead, Print(link) + tail);
    ScanStep(link, tail);
    ScanText(tail, "");
    assert tail + "" == tail;
    ScanEmpty();
    assert Chars(tail) + [] == Chars(tail);
  }

  const INNER := Link("c", "dead.md")

  /** De-linking the inner link makes the outer one a link, to a target nobody checked: the body
      `[a](b [c](dead.md) d.md)` comes out of the rewrite with a dangling link. */
  lemma NestedDeadLinkDangles(date: string, src: Layer)
    requires IsoDate(date)
    ensures var v := View(src, map[], date);
            DanglingHrefs(Scan(RewriteBody(Nested("a", "b ", INNER, " d.md)"), v)), src, map[]) != []
  {
    var href := "b c" + Note("dead", date) + " d.md";
    var outer := Link("a", href);
    NestedRewritten(date, src);
    NestedHref(date);
    OuterDangles(outer, src);
    hide Scan, Print, RewriteBody, Note, DanglingHrefs;
  }

  lemma OuterDangles(t: Token, src: Layer)
    requires t.Link? && LinkShape(t) && ParseHref(t.href).Memory?
    ensures DanglingHrefs(Scan(Print(t)), src, map[]) != []
  {
    hide Scan, ParseHref, Print;
    PrintOfOne(t);
    MatchOfPrinted(t, "");
    ScanStep(t, "");
    ScanEmpty();
  }

  lemma NestedHref(date: string)
    requires IsoDate(date)
    ensures ParseHref("b c" + Note("dead", date) + " d.md").Memory?
    ensures Free("b c" + Note("dead", date) + " d.md", IsParen)
  {
    var note := Note("dead", date);
    var whole := "b c" + note + " d";
    assert Free("dead", NotPlain) && Free("b c", NotPlain) && Free(" d", NotPlain);
    NoteIsPlain("dead", date);
    FreeConcat("b c" + note, " d", NotPlain);
    FreeConcat("b c", note, NotPlain);
    hide Note, ParseHref, PySpace, SplitPrefix;
    assert "b c" + note + " d.md" == whole + ".md";
    PlainWhole(whole);
    PlainParses(whole);
  }

  lemma PlainParses(whole: string)
    requires Free(whole, NotPlain) && whole != "" && whole[0] == 'b'
    ensures ParseHref(whole + ".md").Memory?
  {
    hide Free, PySpace, ParseHref, TwoDots;
    NoSpace('b');
    NoSpace('d');
    PlainWhole(whole);
    ParsePlain(whole);
  }

  lemma PlainWhole(whole: string)
    requires Free(whole, NotPlain)
    ensures '\n' !in whole && !TwoDots(whole + ".md")
    ensures Free(whole + ".md", IsSlash) && Free(whole + ".md", IsParen)
  {
    var href := whole + ".md";
    forall i | 0 < i < |href|
      ensures href[i - 1] != '.' || href[i] != '.'
    {
      assert i - 1 < |whole| ==> href[i - 1] == whole[i - 1];
    }
    forall i | 0 <= i < |href|
      ensures !IsSlash(href[i]) && !IsParen(href[i])
    {
      assert i < |whole| ==> href[i] == whole[i];
    }
  }

  lemma {:induction false} ReplaceChars(s: string, v: View)
    ensures ReplaceAll(Chars(s), v) == Chars(s)
  {
    if s != "" {
      ReplaceChars(s[1..], v);
      assert Chars(s)[1..] == Chars(s[1..]);
    }
  }

  lemma RewriteNested(text: string, before: string, link: Token, tail: string, v: View)
    requires Free(text, IsBracket) && Free(before, IsParen)
    requires link.Link? && LinkShape(link) && Free(link.text, IsParen)
    requires Free(text + "](" + before, IsOpening) && Free(tail, IsOpening)
    ensures RewriteLine(Nested(text, before, link, tail), v) == "[" + (text + "](" + before + (Edited(link, v) + tail))
  {
    ScanOfNested(text, before, link, tail);
    hide Scan, Replace, Edited, Free, Chars, LinkShape, Nested, ReplaceAll, PrintAll;
    var lead := text + "](" + before;
    var ts2 := [link] + Chars(tail);
    var ts1 := Chars(lead) + ts2;
    ReplaceConcat([Ch('[')], ts1, v);
    ReplaceConcat(Chars(lead), ts2, v);
    ReplaceConcat([link], Chars(tail), v);
    ReplaceChar('[', v);
    ReplaceChars(lead, v);
    ReplaceChars(tail, v);
    EditedIsReplaced(link, v);
    PrintConcat([Ch('[')], Chars(lead) + (Replace(link, v) + Chars(tail)));
    PrintConcat(Chars(lead), Replace(link, v) + Chars(tail));
    PrintConcat(Replace(link, v), Chars(tail));
    PrintOfChars(lead);
    PrintOfChars(tail);
    PrintOfOne(Ch('['));
    PrintOfChar('[');
  }

  lemma OneLineBody(body: string, v: View)
    requires Free(body, IsBreak) && body != ""
    ensures RewriteBody(body, v) == RewriteLine(body, v)
  {
    hide RewriteLine;
    assert body[..|body|] == body;
    FirstOfIs(body, IsBreak, |body|);
    LineAlone(body);
    FlatOne(RewriteLine(body, v));
    assert RewriteLines([body], v) == [RewriteLine(body, v)];
  }

  lemma DeadIsAName()
    ensures StemShape("dead") && SafeName("dead")
  {
    assert Free("dead", NotInStem);
  }

  lemma InnerIsDead(v: View)
    requires v.surviving == map[]
    ensures Edited(INNER, v) == "c" + Note("dead", v.date)
  {
    hide Note, ParseHref, StemShape, SafeName;
    DeadIsAName();
    ReadBackBare("dead");
    assert "dead" + ".md" == INNER.href;
  }

  lemma NestedIsOneLine()
    ensures Free(Nested("a", "b ", INNER, " d.md)"), IsBreak)
  {
    assert Free("c", IsBreak) && Free("dead.md", IsBreak) && Free("[", IsBreak)
        && Free("a" + "](" + "b ", IsBreak) && Free(" d.md)", IsBreak);
    hide Free;
    LinkPrintFree("c", "dead.md");
    FreeConcat(Print(INNER), " d.md)", IsBreak);
    FreeConcat("a" + "](" + "b ", Print(INNER) + " d.md)", IsBreak);
    FreeConcat("[", "a" + "](" + "b " + (Print(INNER) + " d.md)"), IsBreak);
  }

  lemma OuterPrints(note: string)
    ensures "[" + ("a" + "](" + "b " + (("c" + note) + " d.md)")) == Print(Link("a", "b c" + note + " d.md"))
  {
    var printed := Print(Link("a", "b c" + note + " d.md"));
    assert printed[..7] == "[a](b c";
    assert printed[7..] == note + " d.md)";
  }

  lemma NestedRewritten(date: string, src: Layer)
    requires IsoDate(date)
    ensures RewriteBody(Nested("a", "b ", INNER, " d.md)"), View(src, map[], date))
         == Print(Link("a", "b c" + Note("dead", date) + " d.md"))
  {
    var v := View(src, map[], date);
    hide RewriteBody, RewriteLine, Note, Edited, Print;
    RewriteNested("a", "b ", INNER, " d.md)", v);
    NestedIsOneLine();
    OneLineBody(Nested("a", "b ", INNER, " d.md)"), v);
    InnerIsDead(v);
    OuterPrints(Note("dead", date));
  }

  // ---- Whole texts --------------------------------------------------------------------------------

  function BodyOf(text: string): string {
    match SplitFront(text)
    case NoFront => text
    case Front(_, _, _, body) => body
  }

  /** The text with its body rewritten and its front matter untouched. */
  function Rewritten(text: string, v: View): string {
    match SplitFront(text)
    case NoFront => RewriteBody(text, v)
    case Front(opener, fields, closer, body) => opener + Flat(fields) + closer + RewriteBody(body, v)
  }

  lemma RewrittenSplits(text: string, v: View)
    requires SplitFront(text).Front?
    ensures SplitFront(Rewritten(text, v)) == SplitFront(text).(body := RewriteBody(BodyOf(text), v))
  {
    hide SplitFront, RewriteLine, Fence, FullLine, AnyLine;
    var f := SplitFront(text);
    WholeOfSplit(text);
    EmptyBody(v);
    SplitOfWhole(f.(body := RewriteBody(f.body, v)));
  }

  // A rewrite makes no fence, so a text without front matter stays one.

  predicate NotInFence(c: char) { !PySpace(c) && c != '-' }

  lemma {:induction false} FreeOfStart(s: string, space: char -> bool, stop: char -> bool)
    requires Free(TrimStart(s, space), stop) && forall c: char | space(c) :: !stop(c)
    ensures Free(s, stop)
  {
    if s != "" && space(s[0]) {
      FreeOfStart(s[1..], space, stop);
    }
  }

  lemma {:induction false} FreeOfEnd(s: string, space: char -> bool, stop: char -> bool)
    requires Free(TrimEnd(s, space), stop) && forall c: char | space(c) :: !stop(c)
    ensures Free(s, stop)
  {
    if s != "" && space(s[|s| - 1]) {
      FreeOfEnd(s[..|s| - 1], space, stop);
    }
  }

  lemma FenceIsFree(line: string)
    requires Fence(line)
    ensures Free(line, NotInFence)
  {
    hide TrimStart, TrimEnd, PySpace;
    FreeOfEnd(TrimStart(line, PySpace), PySpace, NotInFence);
    FreeOfStart(line, PySpace, NotInFence);
  }

  lemma EditedIsMarked(t: Token, v: View)
    requires t.Link?
    ensures !Free(Edited(t, v), NotInFence)
  {
    hide Decide, Note;
    var s := Edited(t, v);
    BracketsMark();
    match Decide(t.href, v.src, v.surviving)
    case Delink(target) =>
      NoteStart(target, v.date);
      assert s[|t.text|] == '（';
    case _ =>
      assert s[0] == '[';
  }

  lemma BracketsMark()
    ensures NotInFence('[') && NotInFence('（')
  {
  }

  lemma {:induction false} OnlyChars(ts: seq<Token>, v: View)
    requires Free(PrintAll(ReplaceAll(ts, v)), NotInFence)
    ensures forall t <- ts :: t.Ch?
  {
    if ts != [] {
      hide Free, Replace, Edited, PrintAll;
      PrintConcat(Replace(ts[0], v), ReplaceAll(ts[1..], v));
      EditedIsReplaced(ts[0], v);
      FreeConcat(Edited(ts[0], v), PrintAll(ReplaceAll(ts[1..], v)), NotInFence);
      OnlyChars(ts[1..], v);
      if ts[0].Link? {
        EditedIsMarked(ts[0], v);
      }
    }
  }

  lemma RewriteMakesNoFence(line: string, v: View)
    requires Fence(RewriteLine(line, v))
    ensures RewriteLine(line, v) == line
  {
    hide Fence, Scan, ReplaceAll, PrintAll, Free;
    FenceIsFree(RewriteLine(line, v));
    OnlyChars(Scan(line), v);
    SettledStays(Scan(line), v);
    PrintOfScan(line);
  }

  /** The link rewrite leaves the fields alone and rewrites the body, also in a text whose fences
      normalising has joined to other lines. */
  lemma RewrittenFields(text: string, v: View)
    requires IsoDate(v.date)
    ensures FieldsOf(Rewritten(text, v)) == FieldsOf(text)
    ensures BodyOf(Rewritten(text, v)) == RewriteBody(BodyOf(text), v)
  {
    if SplitFront(text).Front? {
      RewrittenSplits(text, v);
    } else {
      StaysFrontless(text, v);
    }
    hide SplitFront, RewriteBody;
  }

  lemma StaysFrontless(text: string, v: View)
    requires IsoDate(v.date) && SplitFront(text).NoFront?
    ensures SplitFront(RewriteBody(text, v)).NoFront?
  {
    hide Fence, RewriteLine, IsoDate, Lines, RewriteBody;
    LinesOfRewritten(text, v);
    var ls, rs := Lines(text), Lines(RewriteBody(text, v));
    forall i | 0 <= i < |rs| && !Fence(ls[i])
      ensures !Fence(rs[i])
    {
      if Fence(rs[i]) {
        RewriteMakesNoFence(ls[i], v);
      }
    }
  }

  lemma EmptyBody(v: View)
    ensures RewriteBody("", v) == ""
  {
    assert Lines("") == [];
  }

  function LineRewrites(ls: seq<string>, v: View): seq<(string, string)> {
    if ls == [] then [] else Rewrites(Scan(ls[0]), v) + LineRewrites(ls[1..], v)
  }

  function LineDead(ls: seq<string>, v: View): seq<string> {
    if ls == [] then [] else Dead(Scan(ls[0]), v) + LineDead(ls[1..], v)
  }

  /** The text a token is replaced by. */
  function Edited(t: Token, v: View): string {
    match t
    case Ch(c) => [c]
    case Link(text, href) =>
      match Decide(href, v.src, v.surviving)
      case Keep => Print(t)
      case Delink(target) => text + Note(target, v.date)
      case Retarget(h) => Print(Link(text, h))
  }

  lemma EditedIsReplaced(t: Token, v: View)
    ensures PrintAll(Replace(t, v)) == Edited(t, v)
  {
    hide Decide, Note, Print;
    PrintOfOne(t);
    if t.Link? {
      match Decide(t.href, v.src, v.surviving)
      case Keep =>
      case Delink(target) => PrintOfChars(t.text + Note(target, v.date));
      case Retarget(h) => PrintOfOne(Link(t.text, h));
    } else {
      PrintOfChar(t.c);
    }
  }

  lemma PrintOfChar(c: char)
    ensures Print(Ch(c)) == [c]
  {
  }

  /** One token of the pass: what is written and reported, and what is still to come. */
  lemma TokenStep(ts: seq<Token>, i: nat, v: View)
    requires i < |ts|
    ensures PrintAll(ReplaceAll(ts[i..], v)) == Edited(ts[i], v) + PrintAll(ReplaceAll(ts[i + 1..], v))
    ensures Rewrites(ts[i..], v) == RewriteOf(ts[i], v) + Rewrites(ts[i + 1..], v)
    ensures Dead(ts[i..], v) == DeadOf(ts[i], v) + Dead(ts[i + 1..], v)
  {
    hide Replace, RewriteOf, DeadOf, Edited;
    assert ts[i..][1..] == ts[i + 1..];
    PrintConcat(Replace(ts[i], v), ReplaceAll(ts[i + 1..], v));
    EditedIsReplaced(ts[i], v);
  }

  /** One pass over the matches of a line, collecting the edited parts and the reports. */
  method RewriteOneLine(line: string, v: View)
    returns (out: string, rewrites: seq<(string, string)>, dead: seq<string>)
    ensures out == RewriteLine(line, v)
    ensures rewrites == Rewrites(Scan(line), v)
    ensures dead == Dead(Scan(line), v)
  {
    hide Scan, Decide, PrintAll, ReplaceAll, Rewrites, Dead, Print, Note;
    var ts := Scan(line);
    out, rewrites, dead := "", [], [];
    var i := 0;
    assert ts[0..] == ts;
    while i < |ts|
      invariant 0 <= i <= |ts|
      invariant out + PrintAll(ReplaceAll(ts[i..], v)) == RewriteLine(line, v)
      invariant rewrites + Rewrites(ts[i..], v) == Rewrites(ts, v)
      invariant dead + Dead(ts[i..], v) == Dead(ts, v)
    {
      TokenStep(ts, i, v);
      match ts[i] {
        case Ch(c) =>
          out := out + [c];
        case Link(text, href) =>
          match Decide(href, v.src, v.surviving) {
            case Keep =>
              out := out + Print(ts[i]);
            case Delink(target) =>
              dead := dead + [target + ".md"];
              out := out + (text + Note(target, v.date));
            case Retarget(h) =>
              rewrites := rewrites + [(Trim(href, PySpace), h)];
              out := out + Print(Link(text, h));
          }
      }
      i := i + 1;
    }
    assert ts[i..] == [];
    NothingToReplace(v);
    NothingToPrint();
  }

  lemma LineStep(ls: seq<string>, i: nat, v: View)
    requires i < |ls|
    ensures Flat(RewriteLines(ls[i..], v)) == RewriteLine(ls[i], v) + Flat(RewriteLines(ls[i + 1..], v))
    ensures LineRewrites(ls[i..], v) == Rewrites(Scan(ls[i]), v) + LineRewrites(ls[i + 1..], v)
    ensures LineDead(ls[i..], v) == Dead(Scan(ls[i]), v) + LineDead(ls[i + 1..], v)
  {
    hide RewriteLine, Rewrites, Dead, Scan;
    assert ls[i..][1..] == ls[i + 1..];
    assert RewriteLines(ls[i..], v)[1..] == RewriteLines(ls[i + 1..], v);
  }

  lemma NoLinesToRewrite(v: View)
    ensures Flat(RewriteLines([], v)) == "" && LineRewrites([], v) == [] && LineDead([], v) == []
  {
  }

  /** `rewrite_links`: the front matter is kept, the body is rewritten line by line. */
  method RewriteLinks(text: string, v: View)
    returns (out: string, rewrites: seq<(string, string)>, dead: seq<string>)
    ensures out == Rewritten(text, v)
    ensures rewrites == LineRewrites(Lines(BodyOf(text)), v)
    ensures dead == LineDead(Lines(BodyOf(text)), v)
  {
    hide SplitFront, RewriteLine, Lines, Rewrites, Dead, Scan, RewriteLines, LineRewrites, LineDead, Flat;
    var front := SplitFront(text);
    var ls := Lines(BodyOf(text));
    var body := "";
    rewrites, dead := [], [];
    var i := 0;
    assert ls[0..] == ls;
    while i < |ls|
      invariant 0 <= i <= |ls|
      invariant body + Flat(RewriteLines(ls[i..], v)) == RewriteBody(BodyOf(text), v)
      invariant rewrites + LineRewrites(ls[i..], v) == LineRewrites(ls, v)
      invariant dead + LineDead(ls[i..], v) == LineDead(ls, v)
    {
      LineStep(ls, i, v);
      var line, r, d := RewriteOneLine(ls[i], v);
      body, rewrites, dead := body + line, rewrites + r, dead + d;
      i := i + 1;
    }
    assert ls[i..] == [];
    NoLinesToRewrite(v);
    if front.NoFront? {
      out := body;
    } else {
      out := front.opener + Flat(front.fields) + front.closer + body;
    }
  }
}
