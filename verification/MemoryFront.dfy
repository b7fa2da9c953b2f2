/** The front matter of a memory file and the two attribution fields the migration normalises
    (scripts/migrate-memory-split.py, `split_frontmatter`, `fm_key`, `normalize_frontmatter`). */
module MemoryFront {
  import opened Text

  datatype Layer = Agent | User

  function LayerName(l: Layer): string {
    match l
    case Agent => "agent"
    case User => "user"
  }

  // ---- Splitting ------------------------------------------------------------------------------

  datatype Front = NoFront | Front(opener: string, fields: seq<string>, closer: string, body: string)

  predicate Fence(line: string) {
    Trim(line, PySpace) == "---"
  }

  function SplitFront(text: string): Front {
    var ls := Lines(text);
    if ls == [] || !Fence(ls[0]) then NoFront
    else
      var n := FindFirst(ls, Fence, 1);
      if n == |ls| then NoFront else Front(ls[0], ls[1..n], ls[n], Flat(ls[n + 1..]))
  }

  function Whole(f: Front): string
    requires f.Front?
  {
    f.opener + Flat(f.fields) + f.closer + f.body
  }

  /** Parts that split back to themselves. */
  ghost predicate Splittable(f: Front) {
    && f.Front?
    && FullLine(f.opener) && Fence(f.opener)
    && (forall l <- f.fields :: FullLine(l) && !Fence(l))
    && Fence(f.closer) && AnyLine(f.closer) && (f.body != "" ==> FullLine(f.closer))
  }

  lemma SplitOfLines(text: string, ls: seq<string>, n: nat)
    requires Lines(text) == ls && ls != [] && Fence(ls[0]) && n == FindFirst(ls, Fence, 1)
    ensures SplitFront(text) == if n == |ls| then NoFront else Front(ls[0], ls[1..n], ls[n], Flat(ls[n + 1..]))
  {
    hide Lines, Flat, TrimStart, TrimEnd, PySpace;
  }

  lemma FenceAfter(opener: string, fields: seq<string>, rest: seq<string>)
    requires forall l <- fields :: !Fence(l)
    ensures FindFirst([opener] + fields + rest, Fence, 1) == 1 + |fields| + FindFirst(rest, Fence, 0)
  {
    hide Fence;
    var all := [opener] + fields + rest;
    var n := FindFirst(rest, Fence, 0);
    forall k | 1 <= k < 1 + |fields| + n
      ensures !Fence(all[k])
    {
      if k <= |fields| {
        assert all[k] == fields[k - 1] && fields[k - 1] in fields;
      } else {
        assert all[k] == rest[k - 1 - |fields|];
      }
    }
    if n < |rest| {
      assert all[1 + |fields| + n] == rest[n];
      FindFirstIs(all, Fence, 1, 1 + |fields| + n);
    }
  }

  lemma CutBehind(opener: string, fields: seq<string>, rest: seq<string>, n: nat)
    requires n <= |rest|
    ensures var all, m := [opener] + fields + rest, 1 + |fields| + n;
            && |all| == 1 + |fields| + |rest| && all[0] == opener && all[1..m] == fields + rest[..n]
            && (n < |rest| ==> all[m] == rest[n] && all[m + 1..] == rest[n + 1..])
  {
    var all, m := [opener] + fields + rest, 1 + |fields| + n;
    forall i | 1 <= i < m
      ensures all[i] == (fields + rest[..n])[i - 1]
    {
    }
  }

  /** The first fence behind lines that are none. */
  lemma SplitFound(text: string, opener: string, fields: seq<string>, rest: seq<string>, n: nat)
    requires Lines(text) == [opener] + fields + rest && Fence(opener) && forall l <- fields :: !Fence(l)
    requires n == FindFirst(rest, Fence, 0)
    ensures n == |rest| ==> SplitFront(text) == NoFront
    ensures n < |rest| ==> SplitFront(text) == Front(opener, fields + rest[..n], rest[n], Flat(rest[n + 1..]))
  {
    hide *;
    FenceAfter(opener, fields, rest);
    CutBehind(opener, fields, rest, n);
    SplitOfLines(text, [opener] + fields + rest, 1 + |fields| + n);
  }

  /** Lines with a fence around the fields. */
  lemma EndedSplit(text: string, f: Front, fields: seq<string>)
    requires f.Front? && Fence(f.opener) && Fence(f.closer) && forall l <- fields :: !Fence(l)
    requires Lines(text) == [f.opener] + fields + ([f.closer] + Lines(f.body))
    ensures SplitFront(text) == f.(fields := fields)
  {
    hide Lines, Flat, Fence, SplitFront;
    var rest := [f.closer] + Lines(f.body);
    FindFirstIs(rest, Fence, 0, 0);
    SplitFound(text, f.opener, fields, rest, 0);
    LinesJoin(f.body);
    assert rest[1..] == Lines(f.body) && fields + rest[..0] == fields;
  }

  lemma SplitOfWhole(f: Front)
    requires Splittable(f)
    ensures SplitFront(Whole(f)) == f
  {
    hide Fence, Lines, Flat, FullLine, AnyLine, SplitFront;
    var tail := f.closer + f.body;
    CloserLine(f);
    LinesOfFull(f.fields, tail);
    LinesPrepend(f.opener, Flat(f.fields) + tail);
    assert Whole(f) == f.opener + (Flat(f.fields) + tail);
    assert [f.opener] + (f.fields + Lines(tail)) == [f.opener] + f.fields + Lines(tail);
    EndedSplit(Whole(f), f, f.fields);
  }

  lemma CloserLine(f: Front)
    requires Splittable(f)
    ensures Lines(f.closer + f.body) == [f.closer] + Lines(f.body)
  {
    hide Fence, Lines, FullLine, AnyLine;
    if f.body == "" {
      assert f.closer + f.body == f.closer;
      LineAlone(f.closer);
      NoLines();
    } else {
      LinesPrepend(f.closer, f.body);
    }
  }

  lemma NoLines()
    ensures Lines("") == []
  {
  }

  lemma WholeOfSplit(text: string)
    requires SplitFront(text).Front?
    ensures Splittable(SplitFront(text)) && Whole(SplitFront(text)) == text
  {
    hide Fence, Lines, Flat, FullLine, AnyLine;
    var ls := Lines(text);
    var f := SplitFront(text);
    var n := |f.fields|;
    LinesAreLines(text);
    LinesJoin(text);
    var tail := ls[n + 2..];
    assert ls == [f.opener] + f.fields + [f.closer] + tail;
    FlatConcat([f.opener] + f.fields + [f.closer], tail);
    FlatConcat([f.opener] + f.fields, [f.closer]);
    FlatConcat([f.opener], f.fields);
    FlatOne(f.opener);
    FlatOne(f.closer);
    if tail == [] {
      assert f.body == Flat([]);
      FlatNil();
    }
    forall l | l in f.fields
      ensures FullLine(l) && !Fence(l)
    {
      var i :| 0 <= i < n && f.fields[i] == l;
      assert ls[i + 1] == l;
    }
  }

  lemma FlatOne(s: string)
    ensures Flat([s]) == s
  {
    assert Flat([s]) == s + Flat([]);
  }

  lemma FlatNil()
    ensures Flat([]) == ""
  {
  }

  // ---- Field lines ------------------------------------------------------------------------------

  predicate KeyChar(c: char) {
    'a' <= c <= 'z' || 'A' <= c <= 'Z' || '0' <= c <= '9' || c == '_'
  }

  predicate NotKeyChar(c: char) { !KeyChar(c) }

  function LowerChar(c: char): char {
    if 'A' <= c <= 'Z' then c - 'A' + 'a' else c
  }

  function Lower(s: string): string {
    seq(|s|, i requires 0 <= i < |s| => LowerChar(s[i]))
  }

  /** The key of a field line, from the expression `^\s*([A-Za-z0-9_]+)\s*:`. */
  function FieldKey(line: string): Option<string> {
    var t := TrimStart(line, PySpace);
    var n := FirstOf(t, NotKeyChar);
    var rest := TrimStart(t[n..], PySpace);
    if n > 0 && rest != "" && rest[0] == ':' then Some(Lower(t[..n])) else None
  }

  /** What follows the first colon, without the white space and quotes around it. */
  function FieldValue(line: string): string {
    var n := FirstOf(line, IsColon);
    if n == |line| then "" else Trim(Trim(line[n + 1..], PySpace), IsQuote)
  }

  predicate HasKey(line: string, key: string) {
    FieldKey(line) == Some(key)
  }

  function LineEnding(line: string): string {
    if EndsWith(line, "\r\n") then "\r\n" else if EndsWith(line, "\n") then "\n" else ""
  }

  // ---- Normalising --------------------------------------------------------------------------------

  function ScopeLine(layer: Layer, ending: string): string {
    "scope: " + LayerName(layer) + ending
  }

  function OwnerLine(fqid: string, ending: string): string {
    "user_id: \"" + fqid + "\"" + ending
  }

  /** The lines one field line becomes. */
  function NormalizeLine(line: string, layer: Layer, fqid: string): seq<string> {
    if HasKey(line, "scope") then [ScopeLine(layer, LineEnding(line))]
    else if HasKey(line, "user_id") then
      if layer == User then [OwnerLine(fqid, LineEnding(line))] else []
    else [line]
  }

  function NormalizeLines(fields: seq<string>, layer: Layer, fqid: string): seq<string> {
    if fields == [] then []
    else
      var n := |fields| - 1;
      NormalizeLines(fields[..n], layer, fqid) + NormalizeLine(fields[n], layer, fqid)
  }

  /** Where the last scope line lands in the output, or -1. */
  function LastScope(fields: seq<string>, layer: Layer, fqid: string): (at: int)
    ensures -1 <= at < |NormalizeLines(fields, layer, fqid)|
    ensures at == -1 <==> !Declares(fields, "scope")
  {
    hide HasKey;
    if fields == [] then -1
    else
      var n := |fields| - 1;
      assert fields == fields[..n] + [fields[n]];
      if HasKey(fields[n], "scope") then |NormalizeLines(fields[..n], layer, fqid)|
      else LastScope(fields[..n], layer, fqid)
  }

  predicate Declares(fields: seq<string>, key: string) {
    exists l <- fields :: HasKey(l, key)
  }

  function NormalizeFields(fields: seq<string>, layer: Layer, fqid: string): seq<string> {
    var lines := NormalizeLines(fields, layer, fqid);
    var scope := LastScope(fields, layer, fqid);
    var scoped := if scope == -1 then [ScopeLine(layer, "\n")] + lines else lines;
    var at := if scope == -1 then 0 else scope;
    if layer == Agent || Declares(fields, "user_id") then scoped
    else scoped[..at + 1] + [OwnerLine(fqid, "\n")] + scoped[at + 1..]
  }

  /** The normalised text, or `None` where the source aborts. */
  function Normalized(text: string, layer: Layer, fqid: string): Option<string> {
    match SplitFront(text)
    case NoFront => None
    case Front(opener, fields, closer, body) =>
      Some(opener + Flat(NormalizeFields(fields, layer, fqid)) + closer + body)
  }

  lemma NormalizeStep(fields: seq<string>, i: nat, layer: Layer, fqid: string)
    requires i < |fields|
    ensures NormalizeLines(fields[..i + 1], layer, fqid)
         == NormalizeLines(fields[..i], layer, fqid) + NormalizeLine(fields[i], layer, fqid)
    ensures LastScope(fields[..i + 1], layer, fqid)
         == if HasKey(fields[i], "scope") then |NormalizeLines(fields[..i], layer, fqid)|
            else LastScope(fields[..i], layer, fqid)
    ensures Declares(fields[..i + 1], "user_id") <==> Declares(fields[..i], "user_id") || HasKey(fields[i], "user_id")
  {
    hide HasKey, NormalizeLine;
    assert fields[..i + 1][..i] == fields[..i] && fields[..i + 1] == fields[..i] + [fields[i]];
  }

  /** `normalize_frontmatter`, line by line. */
  method NormalizeFrontmatter(text: string, layer: Layer, fqid: string) returns (r: Option<string>)
    ensures r == Normalized(text, layer, fqid)
  {
    hide HasKey, ScopeLine, OwnerLine, LineEnding, Flat, NormalizeLines, LastScope, Declares, SplitFront;
    var front := SplitFront(text);
    if front.NoFront? {
      return None;
    }
    var fields := front.fields;
    var out, scopeAt, ownerDone, i := [], -1, layer != User, 0;
    NothingNormalized(layer, fqid);
    while i < |fields|
      invariant 0 <= i <= |fields|
      invariant out == NormalizeLines(fields[..i], layer, fqid)
      invariant scopeAt == LastScope(fields[..i], layer, fqid)
      invariant ownerDone <==> layer == Agent || Declares(fields[..i], "user_id")
    {
      var line := fields[i];
      NormalizeStep(fields, i, layer, fqid);
      KeysDiffer(line);
      if HasKey(line, "scope") {
        out := out + [ScopeLine(layer, LineEnding(line))];
        scopeAt := |out| - 1;
      } else if HasKey(line, "user_id") {
        if layer == User {
          out := out + [OwnerLine(fqid, LineEnding(line))];
          ownerDone := true;
        }
      } else {
        out := out + [line];
      }
      i := i + 1;
    }
    assert fields[..i] == fields;
    if scopeAt == -1 {
      out := [ScopeLine(layer, "\n")] + out;
      scopeAt := 0;
    }
    if !ownerDone {
      out := out[..scopeAt + 1] + [OwnerLine(fqid, "\n")] + out[scopeAt + 1..];
    }
    r := Some(front.opener + Flat(out) + front.closer + front.body);
  }

  lemma NothingNormalized(layer: Layer, fqid: string)
    ensures NormalizeLines([], layer, fqid) == [] && LastScope([], layer, fqid) == -1 && !Declares([], "user_id")
  {
  }

  lemma KeysDiffer(line: string)
    ensures !(HasKey(line, "scope") && HasKey(line, "user_id"))
  {
    hide FieldKey;
    assert |"scope"| != |"user_id"|;
  }

  // ---- Attribution --------------------------------------------------------------------------------

  /** The third invariant for one file: `fields` attribute it to `layer`. */
  predicate Attributed(fields: seq<string>, layer: Layer, fqid: string) {
    match layer
    case Agent =>
      forall l <- fields :: !HasKey(l, "user_id") && (HasKey(l, "scope") ==> FieldValue(l) != "user")
    case User =>
      var n := FindFirst(fields, (l: string) => HasKey(l, "user_id"), 0);
      n < |fields| && FieldValue(fields[n]) == fqid
  }

  /** Canonical operator ids: namespace, type and a lower-case hyphenated uuid. */
  predicate OperatorId(fqid: string) {
    fqid != "" && forall i | 0 <= i < |fqid| ::
      'a' <= fqid[i] <= 'z' || '0' <= fqid[i] <= '9' || fqid[i] == '-' || fqid[i] == '/'
  }

  /** Attribution lines end in a newline, not in one of the other characters `splitlines` breaks at. */
  predicate PlainEnds(fields: seq<string>) {
    forall l <- fields :: HasKey(l, "scope") || HasKey(l, "user_id") ==> EndsWith(l, "\n")
  }

  // ---- What normalising achieves --------------------------------------------------------------------

  lemma KeyOf(key: string, rest: string)
    requires key != "" && Lower(key) == key && forall i | 0 <= i < |key| :: KeyChar(key[i])
    ensures FieldKey(key + ":" + rest) == Some(key)
    ensures !PySpace((key + ":" + rest)[0])
  {
    hide PySpace, Lower;
    var line := key + ":" + rest;
    KeyIsSolid(key[0]);
    StartsSolid(line, PySpace);
    assert line[..|key|] == key;
    FirstOfIs(line, NotKeyChar, |key|);
    assert line[|key|..] == ":" + rest;
    ColonIsSolid();
    StartsSolid(line[|key|..], PySpace);
  }

  lemma KeyIsSolid(c: char)
    requires KeyChar(c)
    ensures !PySpace(c)
  {
  }

  lemma ColonIsSolid()
    ensures !PySpace(':')
  {
  }

  /** Field lines the migration writes are not fences. */
  lemma KeyedIsNoFence(line: string)
    requires line != "" && KeyChar(line[0])
    ensures !Fence(line)
  {
    hide TrimEnd, PySpace;
    KeyIsSolid(line[0]);
    StartsSolid(line, PySpace);
    TrimEndKeepsStart(line, PySpace);
  }

  lemma {:induction false} TrimEndKeepsStart(s: string, space: char -> bool)
    requires s != "" && !space(s[0])
    ensures TrimEnd(s, space) != "" && TrimEnd(s, space)[0] == s[0]
  {
    if space(s[|s| - 1]) {
      TrimEndKeepsStart(s[..|s| - 1], space);
    }
  }

  predicate Ending(e: string) { e == "" || e == "\n" || e == "\r\n" }

  lemma ScopeLineReads(layer: Layer, e: string)
    requires Ending(e)
    ensures FieldKey(ScopeLine(layer, e)) == Some("scope")
    ensures FieldValue(ScopeLine(layer, e)) == LayerName(layer)
    ensures !Fence(ScopeLine(layer, e))
  {
    hide FieldKey, Fence, Trim, FieldValue, TrimStart, TrimEnd;
    var name := LayerName(layer);
    var rest := " " + name + e;
    assert ScopeLine(layer, e) == "scope" + ":" + rest;
    KeyOf("scope", rest);
    KeyedIsNoFence(ScopeLine(layer, e));
    TrimOfTrimmed(name, IsQuote);
    KeyIsSolid(name[0]);
    KeyIsSolid(name[|name| - 1]);
    ValueReads("scope", " ", name, e);
  }

  lemma OwnerLineReads(fqid: string, e: string)
    requires Ending(e) && OperatorId(fqid)
    ensures FieldKey(OwnerLine(fqid, e)) == Some("user_id")
    ensures FieldValue(OwnerLine(fqid, e)) == fqid
    ensures !Fence(OwnerLine(fqid, e))
  {
    hide FieldKey, Fence, Trim, FieldValue, TrimStart, TrimEnd;
    var quoted := "\"" + fqid + "\"";
    var rest := " " + quoted + e;
    assert OwnerLine(fqid, e) == "user_id" + ":" + rest;
    KeyOf("user_id", rest);
    KeyedIsNoFence(OwnerLine(fqid, e));
    TrimBetween("\"", fqid, "\"", IsQuote);
    ValueReads("user_id", " ", quoted, e);
  }

  lemma ValueReads(key: string, pre: string, value: string, post: string)
    requires Free(key, IsColon) && Blank(pre, PySpace) && Blank(post, PySpace)
    requires value != "" && Trimmed(value, PySpace) && Trim(value, IsQuote) != ""
    ensures FieldValue(key + ":" + (pre + value + post)) == Trim(value, IsQuote)
  {
    hide PySpace, Blank, Trim;
    var line := key + ":" + (pre + value + post);
    assert line[..|key|] == key;
    FirstOfIs(line, IsColon, |key|);
    assert line[|key| + 1..] == pre + value + post;
    TrimBetween(pre, value, post, PySpace);
  }

  /** A line the migration writes for attribution, and what it reads back as. */
  ghost predicate Written(l: string, layer: Layer, fqid: string) {
    exists e | Ending(e) :: l == ScopeLine(layer, e) || (layer == User && l == OwnerLine(fqid, e))
  }

  /** Every output line is written by the migration or is an input line about something else. */
  ghost predicate Sourced(l: string, fields: seq<string>, layer: Layer, fqid: string) {
    || (l in fields && !HasKey(l, "scope") && !HasKey(l, "user_id"))
    || Written(l, layer, fqid)
  }

  lemma LineSourced(line: string, layer: Layer, fqid: string)
    ensures forall l <- NormalizeLine(line, layer, fqid) :: Sourced(l, [line], layer, fqid)
  {
    hide HasKey, EndsWith, ScopeLine, OwnerLine;
    var e := LineEnding(line);
    assert Ending(e);
  }

  lemma {:induction false} LinesSourced(fields: seq<string>, layer: Layer, fqid: string)
    ensures forall l <- NormalizeLines(fields, layer, fqid) :: Sourced(l, fields, layer, fqid)
  {
    hide HasKey, NormalizeLine, Written;
    if fields != [] {
      var n := |fields| - 1;
      LineSourced(fields[n], layer, fqid);
      LinesSourced(fields[..n], layer, fqid);
    }
  }

  lemma FieldsSourced(fields: seq<string>, layer: Layer, fqid: string)
    ensures forall l <- NormalizeFields(fields, layer, fqid) :: Sourced(l, fields, layer, fqid)
  {
    hide HasKey, NormalizeLines, ScopeLine, OwnerLine, LastScope, Declares;
    LinesSourced(fields, layer, fqid);
    assert Ending("\n");
    assert Written(ScopeLine(layer, "\n"), layer, fqid);
    assert layer == User ==> Written(OwnerLine(fqid, "\n"), layer, fqid);
  }

  lemma {:induction false} OwnerSurvives(fields: seq<string>, fqid: string)
    requires Declares(fields, "user_id") && OperatorId(fqid)
    ensures Declares(NormalizeLines(fields, User, fqid), "user_id")
  {
    hide FieldKey, OwnerLine, LineEnding, OperatorId;
    var n := |fields| - 1;
    assert fields == fields[..n] + [fields[n]];
    if HasKey(fields[n], "user_id") {
      var e := LineEnding(fields[n]);
      LineEndingIs(fields[n]);
      OwnerLineReads(fqid, e);
      var l := OwnerLine(fqid, e);
      assert l in NormalizeLine(fields[n], User, fqid);
      assert HasKey(l, "user_id") && l in NormalizeLines(fields, User, fqid);
    } else {
      OwnerSurvives(fields[..n], fqid);
    }
  }

  lemma LineEndingIs(line: string)
    ensures Ending(LineEnding(line))
  {
  }

  lemma OwnerDeclared(fields: seq<string>, fqid: string)
    requires OperatorId(fqid)
    ensures Declares(NormalizeFields(fields, User, fqid), "user_id")
  {
    hide HasKey, NormalizeLines, ScopeLine, OwnerLine, LastScope;
    if Declares(fields, "user_id") {
      OwnerSurvives(fields, fqid);
    } else {
      var l := OwnerLine(fqid, "\n");
      assert HasKey(l, "user_id") by { OwnerHasKey(fqid); }
      assert l in NormalizeFields(fields, User, fqid);
    }
  }

  lemma OwnerHasKey(fqid: string)
    requires OperatorId(fqid)
    ensures HasKey(OwnerLine(fqid, "\n"), "user_id")
  {
    hide FieldKey, OwnerLine;
    OwnerLineReads(fqid, "\n");
  }

  /** Normalised fields attribute the file to its layer, whatever they said before. */
  lemma NormalizedIsAttributed(fields: seq<string>, layer: Layer, fqid: string)
    requires OperatorId(fqid)
    ensures Attributed(NormalizeFields(fields, layer, fqid), layer, fqid)
  {
    var out := NormalizeFields(fields, layer, fqid);
    hide FieldKey, FieldValue, NormalizeFields, ScopeLine, OwnerLine, OperatorId, Fence;
    FieldsSourced(fields, layer, fqid);
    forall l | l in out && Written(l, layer, fqid)
      ensures layer == Agent ==> HasKey(l, "scope") && FieldValue(l) == "agent"
      ensures layer == User ==> HasKey(l, "scope") || (HasKey(l, "user_id") && FieldValue(l) == fqid)
    {
      var e :| Ending(e) && (l == ScopeLine(layer, e) || (layer == User && l == OwnerLine(fqid, e)));
      ScopeLineReads(layer, e);
      OwnerLineReads(fqid, e);
    }
    if layer == User {
      OwnerDeclared(fields, fqid);
      var n := FindFirst(out, (l: string) => HasKey(l, "user_id"), 0);
      assert n < |out| && out[n] in out;
    }
  }

  // ---- Lines the migration writes ---------------------------------------------------------------------

  lemma EndedIsFull(core: string, e: string)
    requires Free(core, IsBreak) && (e == "\n" || e == "\r\n")
    ensures FullLine(core + e)
  {
    var line := core + e;
    var n := |line| - 1;
    assert forall i | 0 <= i < |core| :: line[i] == core[i];
    assert Free(line[..n], IsBreak);
    FirstOfIs(line, IsBreak, n);
  }

  lemma WrittenIsLine(layer: Layer, fqid: string, e: string)
    requires (e == "\n" || e == "\r\n") && OperatorId(fqid)
    ensures FullLine(ScopeLine(layer, e)) && !Fence(ScopeLine(layer, e))
    ensures FullLine(OwnerLine(fqid, e)) && !Fence(OwnerLine(fqid, e))
  {
    hide Fence, FullLine, OperatorId, FieldKey, FieldValue, ScopeLine, OwnerLine;
    ScopeLineReads(layer, e);
    OwnerLineReads(fqid, e);
    CoresAreFree(layer, fqid);
    EndedIsFull("scope: " + LayerName(layer), e);
    EndedIsFull("user_id: \"" + fqid + "\"", e);
    LinesFromCores(layer, fqid, e);
  }

  lemma LinesFromCores(layer: Layer, fqid: string, e: string)
    ensures ScopeLine(layer, e) == ("scope: " + LayerName(layer)) + e
    ensures OwnerLine(fqid, e) == ("user_id: \"" + fqid + "\"") + e
  {
  }

  lemma CoresAreFree(layer: Layer, fqid: string)
    requires OperatorId(fqid)
    ensures Free("scope: " + LayerName(layer), IsBreak)
    ensures Free("user_id: \"" + fqid + "\"", IsBreak)
  {
    var opening, closing := "user_id: \"", "\"";
    assert Free(opening, IsBreak) && Free(fqid, IsBreak) && Free(closing, IsBreak);
    FreeConcat(opening + fqid, closing, IsBreak);
    FreeConcat(opening, fqid, IsBreak);
  }

  // ---- Normalised texts split again -----------------------------------------------------------------

  /** A line before others: without its end it runs into the first of them. */
  function Before(item: string, rest: seq<string>): seq<string> {
    if FullLine(item) then [item] + rest
    else if rest == [] then [item]
    else [item + rest[0]] + rest[1..]
  }

  /** Lines put together again. */
  function Regroup(items: seq<string>, tail: seq<string>): seq<string> {
    if items == [] then tail else Before(items[0], Regroup(items[1..], tail))
  }

  /** The last item lacks its end. */
  predicate Opened(items: seq<string>) {
    items != [] && !FullLine(items[|items| - 1])
  }

  /** What normalising writes: lines that are no fences, and keyed lines without their end. */
  ghost predicate Item(l: string) {
    (FullLine(l) && !Fence(l)) || (l != "" && KeyChar(l[0]) && Free(l, IsBreak))
  }

  /** How fences and items split again: an open last item swallows the closing fence, and the body is
      searched for another one. */
  function Resplit(f: Front, items: seq<string>): Front
    requires f.Front?
  {
    var ls := Lines(f.body);
    var n := FindFirst(ls, Fence, 0);
    if !Opened(items) then f.(fields := Regroup(items, []))
    else if n == |ls| then NoFront
    else Front(f.opener, Regroup(items, [f.closer]) + ls[..n], ls[n], Flat(ls[n + 1..]))
  }

  lemma OpenIsLine(core: string)
    requires core != "" && Free(core, IsBreak)
    ensures AnyLine(core) && !FullLine(core)
  {
    assert core[..|core|] == core;
    FirstOfIs(core, IsBreak, |core|);
  }

  lemma LinesOfOpen(core: string, s: string)
    requires core != "" && Free(core, IsBreak)
    ensures Lines(core + s) == Before(core, Lines(s))
  {
    OpenIsLine(core);
    if s == "" {
      assert core + s == core;
      LineAlone(core);
      NoLines();
    } else {
      var n := FirstOf(s, IsBreak);
      if n == |s| {
        FirstBehind(core, s);
        OpenBeforeLast(core, s);
      } else {
        var line, tail := s[..n + 1], s[n + 1..];
        assert s == line + tail && line[..n] == s[..n];
        FirstOfIs(line, IsBreak, n);
        FirstBehind(core, line);
        OpenBeforeFull(core, line, tail);
      }
    }
  }

  lemma OpenBeforeLast(core: string, s: string)
    requires !FullLine(core) && AnyLine(s) && AnyLine(core + s)
    ensures Lines(core + s) == Before(core, Lines(s))
  {
    hide FullLine, AnyLine, Lines;
    LineAlone(s);
    LineAlone(core + s);
    assert [core + s] + [s][1..] == [core + s];
  }

  lemma OpenBeforeFull(core: string, line: string, tail: string)
    requires !FullLine(core) && FullLine(line) && FullLine(core + line)
    ensures Lines(core + (line + tail)) == Before(core, Lines(line + tail))
  {
    hide FullLine, Lines;
    LinesPrepend(line, tail);
    LinesPrepend(core + line, tail);
    assert core + (line + tail) == core + line + tail;
    var ls := Lines(line + tail);
    assert ls[0] == line && ls[1..] == Lines(tail);
  }

  lemma FirstBehind(core: string, s: string)
    requires Free(core, IsBreak)
    ensures FirstOf(core + s, IsBreak) == |core| + FirstOf(s, IsBreak)
  {
    var n := FirstOf(s, IsBreak);
    CutShifts(core, s, n);
    FreeConcat(core, s[..n], IsBreak);
    FirstOfIs(core + s, IsBreak, |core| + n);
  }

  lemma CutShifts(core: string, s: string, n: nat)
    requires n <= |s|
    ensures (core + s)[..|core| + n] == core + s[..n] && (core + s)[|core| + n..] == s[n..]
  {
  }

  lemma {:induction false} LinesOfItems(items: seq<string>, s: string)
    requires forall l <- items :: Item(l)
    ensures Lines(Flat(items) + s) == Regroup(items, Lines(s))
  {
    hide Lines, FullLine, Fence, KeyChar, Free;
    if items == [] {
      assert Flat(items) + s == s;
    } else {
      var rest := Flat(items[1..]) + s;
      LinesOfItems(items[1..], s);
      assert Flat(items) + s == items[0] + rest;
      assert Item(items[0]);
      if FullLine(items[0]) {
        LinesPrepend(items[0], rest);
      } else {
        LinesOfOpen(items[0], rest);
      }
    }
  }

  lemma ConcatAssociates(a: seq<string>, b: seq<string>, c: seq<string>)
    ensures a + (b + c) == a + b + c
  {
  }

  lemma ConcatTail(a: seq<string>, b: seq<string>)
    requires a != []
    ensures (a + b)[0] == a[0] && (a + b)[1..] == a[1..] + b
  {
  }

  lemma BeforeConcat(item: string, rest: seq<string>, tail: seq<string>)
    ensures Before(item, rest) != []
    ensures rest != [] || FullLine(item) ==> Before(item, rest + tail) == Before(item, rest) + tail
  {
    hide FullLine;
    ConcatAssociates([item], rest, tail);
    if rest != [] {
      ConcatTail(rest, tail);
      ConcatAssociates([item + rest[0]], rest[1..], tail);
    }
  }

  lemma {:induction false} RegroupTail(items: seq<string>, c: string, tail: seq<string>)
    ensures Regroup(items, [c] + tail) == Regroup(items, [c]) + tail && Regroup(items, [c]) != []
    ensures !Opened(items) ==> Regroup(items, [c]) == Regroup(items, []) + [c]
  {
    hide FullLine, Before;
    if items != [] {
      RegroupTail(items[1..], c, tail);
      BeforeConcat(items[0], Regroup(items[1..], [c]), tail);
      if !Opened(items) {
        BeforeConcat(items[0], Regroup(items[1..], []), [c]);
        if |items| == 1 {
          assert items[1..] == [];
        } else {
          RegroupSome(items[1..]);
        }
      }
    }
  }

  lemma RegroupSome(items: seq<string>)
    requires items != []
    ensures Regroup(items, []) != []
  {
    hide FullLine;
  }

  lemma FullItem(l: string)
    requires Item(l) && FullLine(l)
    ensures !Fence(l)
  {
    hide FullLine, Fence, Free;
    if Fence(l) {
      OpenIsLine(l);
    }
  }

  lemma {:induction false} RegroupNoFence(items: seq<string>, tail: seq<string>)
    requires (forall l <- items :: Item(l)) && (tail != [] ==> Opened(items) && |tail| == 1)
    ensures forall l <- Regroup(items, tail) :: !Fence(l)
  {
    hide FullLine, Fence, KeyChar, Free;
    if items != [] {
      var rest := Regroup(items[1..], tail);
      assert Item(items[0]);
      if |items| > 1 {
        RegroupNoFence(items[1..], tail);
      } else {
        assert items[1..] == [];
      }
      if FullLine(items[0]) {
        FullItem(items[0]);
      } else {
        KeyedIsNoFence(items[0]);
        if rest != [] {
          assert (items[0] + rest[0])[0] == items[0][0];
          KeyedIsNoFence(items[0] + rest[0]);
        }
      }
    }
  }

  lemma OpenCores(layer: Layer, fqid: string)
    requires OperatorId(fqid)
    ensures var l := ScopeLine(layer, ""); l != "" && KeyChar(l[0]) && Free(l, IsBreak)
    ensures var l := OwnerLine(fqid, ""); l != "" && KeyChar(l[0]) && Free(l, IsBreak)
  {
    hide Free, OperatorId;
    CoresAreFree(layer, fqid);
    LinesFromCores(layer, fqid, "");
    assert ("scope: " + LayerName(layer)) + "" == "scope: " + LayerName(layer);
    assert ("user_id: \"" + fqid + "\"") + "" == "user_id: \"" + fqid + "\"";
  }

  lemma WrittenIsItem(l: string, layer: Layer, fqid: string)
    requires Written(l, layer, fqid) && OperatorId(fqid)
    ensures Item(l)
  {
    hide Fence, FullLine, OperatorId, Free;
    var e :| Ending(e) && (l == ScopeLine(layer, e) || (layer == User && l == OwnerLine(fqid, e)));
    if e == "" {
      OpenCores(layer, fqid);
    } else {
      WrittenIsLine(layer, fqid, e);
    }
  }

  lemma ItemsFit(fields: seq<string>, layer: Layer, fqid: string)
    requires OperatorId(fqid) && forall l <- fields :: FullLine(l) && !Fence(l)
    ensures forall l <- NormalizeFields(fields, layer, fqid) :: Item(l)
  {
    hide NormalizeFields, Written, FullLine, Fence, KeyChar, Free, OperatorId, HasKey;
    FieldsSourced(fields, layer, fqid);
    forall l | l in NormalizeFields(fields, layer, fqid)
      ensures Item(l)
    {
      assert Sourced(l, fields, layer, fqid);
      if Written(l, layer, fqid) {
        WrittenIsItem(l, layer, fqid);
      }
    }
  }

  /** A normalised text splits into the same fences and body around the normalised fields, put together
      again where their lines lost their ends. */
  lemma NormalizedSplits(text: string, layer: Layer, fqid: string)
    requires OperatorId(fqid) && SplitFront(text).Front?
    ensures Normalized(text, layer, fqid).Some?
    ensures var f := SplitFront(text);
            SplitFront(Normalized(text, layer, fqid).value) == Resplit(f, NormalizeFields(f.fields, layer, fqid))
  {
    var f := SplitFront(text);
    hide SplitFront, NormalizeFields, FullLine, Fence, AnyLine, OperatorId, Resplit, Item, Flat;
    WholeOfSplit(text);
    var items := NormalizeFields(f.fields, layer, fqid);
    ItemsFit(f.fields, layer, fqid);
    LinesOfSplit(f, items);
    FencesOfSplit(f, items);
  }

  lemma LinesOfSplit(f: Front, items: seq<string>)
    requires Splittable(f) && forall l <- items :: Item(l)
    ensures Lines(f.opener + Flat(items) + f.closer + f.body) == [f.opener] + Regroup(items, [f.closer]) + Lines(f.body)
  {
    hide Lines, Flat, FullLine, Fence, AnyLine, Item, Regroup;
    var tail := f.closer + f.body;
    CloserLine(f);
    LinesOfItems(items, tail);
    LinesPrepend(f.opener, Flat(items) + tail);
    assert f.opener + Flat(items) + f.closer + f.body == f.opener + (Flat(items) + tail);
    RegroupTail(items, f.closer, Lines(f.body));
  }

  /** Finding the closing fence among the lines. */
  lemma FencesOfSplit(f: Front, items: seq<string>)
    requires Splittable(f) && forall l <- items :: Item(l)
    requires Lines(f.opener + Flat(items) + f.closer + f.body) 
          == [f.opener] + Regroup(items, [f.closer]) + Lines(f.body)
    ensures SplitFront(f.opener + Flat(items) + f.closer + f.body) == Resplit(f, items)
  {
    hide Lines, Flat, FullLine, Fence, AnyLine, Item, Regroup, Opened, SplitFront;
    var ls := Lines(f.body);
    var text := f.opener + Flat(items) + f.closer + f.body;
    if Opened(items) {
      RegroupNoFence(items, [f.closer]);
      SplitFound(text, f.opener, Regroup(items, [f.closer]), ls, FindFirst(ls, Fence, 0));
    } else {
      RegroupNoFence(items, []);
      RegroupTail(items, f.closer, ls);
      var fields := Regroup(items, []);
      assert [f.opener] + (fields + [f.closer]) + ls == [f.opener] + fields + ([f.closer] + ls);
      EndedSplit(text, f, fields);
    }
  }

  // ---- Attribution after normalising, exactly ----------------------------------------------------------

  /** An attribution line that normalising writes without its end: it ends in one of the other characters
      at which `splitlines` breaks. */
  predicate OpenEnd(line: string) {
    (HasKey(line, "scope") || HasKey(line, "user_id")) && !EndsWith(line, "\n")
  }

  /** Where the last scope line is, or -1. */
  function LastScopeAt(fields: seq<string>): (at: int)
    ensures -1 <= at < |fields|
    ensures at == -1 <==> !Declares(fields, "scope")
    ensures at >= 0 ==> HasKey(fields[at], "scope")
  {
    hide HasKey;
    if fields == [] then -1
    else
      var n := |fields| - 1;
      assert fields == fields[..n] + [fields[n]];
      if HasKey(fields[n], "scope") then n else LastScopeAt(fields[..n])
  }

  /** The fields with the lines that normalising inserts. */
  function Supplied(fields: seq<string>, layer: Layer, fqid: string): seq<string> {
    var at := LastScopeAt(fields);
    var scoped := if at == -1 then [ScopeLine(layer, "\n")] + fields else fields;
    var after := if at == -1 then 1 else at + 1;
    if layer == Agent || Declares(fields, "user_id") then scoped
    else scoped[..after] + [OwnerLine(fqid, "\n")] + scoped[after..]
  }

  /** The line that normalising leaves last lost its end. */
  predicate EndsOpen(fields: seq<string>, layer: Layer) {
    fields != [] &&
    var n := |fields| - 1;
    if layer == Agent && HasKey(fields[n], "user_id") then EndsOpen(fields[..n], layer) else OpenEnd(fields[n])
  }

  /** Quotes, and then white space. */
  predicate OnlyQuotes(line: string) {
    Blank(TrimEnd(line, PySpace), IsQuote)
  }

  /** The first owner line that still starts a line names the operator: it has its end, or what follows it
      adds nothing to the value.  `anew` says whether the line before has its end. */
  predicate OwnerHeld(fields: seq<string>, anew: bool, after: seq<string>, fqid: string) {
    if fields == [] then !anew && Attributed(after, User, fqid)
    else if anew && HasKey(fields[0], "user_id") then
      EndsWith(fields[0], "\n") || (|fields| > 1 && OnlyQuotes(fields[1]))
    else OwnerHeld(fields[1..], !OpenEnd(fields[0]), after, fqid)
  }

  /** When a text can be attributed: in the agent layer, unless the last line lost its end and the lines
      of the body up to the next fence say otherwise; in the user layer, when the owner line is held. */
  predicate Attributable(f: Front, layer: Layer, fqid: string)
    requires f.Front?
  {
    var ls := Lines(f.body);
    var n := FindFirst(ls, Fence, 0);
    var fields := Supplied(f.fields, layer, fqid);
    match layer
    case Agent => EndsOpen(fields, Agent) && n < |ls| ==> Attributed(ls[..n], Agent, fqid)
    case User => (EndsOpen(fields, User) ==> n < |ls|) && OwnerHeld(fields, true, ls[..n], fqid)
  }

  lemma {:induction false} NormalizeConcat(a: seq<string>, b: seq<string>, layer: Layer, fqid: string)
    ensures NormalizeLines(a + b, layer, fqid) == NormalizeLines(a, layer, fqid) + NormalizeLines(b, layer, fqid)
  {
    hide NormalizeLine;
    if b == [] {
      assert a + b == a;
    } else {
      var n := |b| - 1;
      assert (a + b)[..|a| + n] == a + b[..n];
      NormalizeConcat(a, b[..n], layer, fqid);
    }
  }

  lemma NormalizeOne(line: string, layer: Layer, fqid: string)
    ensures NormalizeLines([line], layer, fqid) == NormalizeLine(line, layer, fqid)
  {
    hide NormalizeLine;
    assert [line][..0] == [];
    NothingNormalized(layer, fqid);
  }

  lemma NormalizeSupplied(layer: Layer, fqid: string)
    requires OperatorId(fqid)
    ensures NormalizeLine(ScopeLine(layer, "\n"), layer, fqid) == [ScopeLine(layer, "\n")]
    ensures layer == User ==> NormalizeLine(OwnerLine(fqid, "\n"), layer, fqid) == [OwnerLine(fqid, "\n")]
    ensures !OpenEnd(ScopeLine(layer, "\n")) && !OpenEnd(OwnerLine(fqid, "\n"))
    ensures HasKey(OwnerLine(fqid, "\n"), "user_id") && HasKey(ScopeLine(layer, "\n"), "scope")
  {
    ScopeLineReads(layer, "\n");
    OwnerLineReads(fqid, "\n");
    LinesFromCores(layer, fqid, "\n");
    NewlineEnds("scope: " + LayerName(layer));
    NewlineEnds("user_id: \"" + fqid + "\"");
    assert layer == User ==> "scope: user"[10] == 'r';
    KeysDiffer(OwnerLine(fqid, "\n"));
    hide FieldKey, ScopeLine, OwnerLine, LineEnding;
  }

  lemma NewlineEnds(core: string)
    requires core != "" && core[|core| - 1] != '\r'
    ensures LineEnding(core + "\n") == "\n" && EndsWith(core + "\n", "\n")
  {
    var line := core + "\n";
    assert line[|line| - 1..] == "\n";
    assert line[|line| - 2..][0] == core[|core| - 1];
  }

  lemma {:induction false} UserLines(fields: seq<string>, fqid: string)
    ensures |NormalizeLines(fields, User, fqid)| == |fields|
    ensures LastScope(fields, User, fqid) == LastScopeAt(fields)
  {
    hide HasKey, ScopeLine, OwnerLine, LineEnding;
    if fields != [] {
      UserLines(fields[..|fields| - 1], fqid);
    }
  }

  lemma ScopeSupplied(fields: seq<string>, layer: Layer, fqid: string)
    requires OperatorId(fqid)
    ensures NormalizeLines([ScopeLine(layer, "\n")] + fields, layer, fqid)
         == [ScopeLine(layer, "\n")] + NormalizeLines(fields, layer, fqid)
  {
    hide ScopeLine, OwnerLine, NormalizeLine, NormalizeLines, OperatorId;
    NormalizeSupplied(layer, fqid);
    NormalizeOne(ScopeLine(layer, "\n"), layer, fqid);
    NormalizeConcat([ScopeLine(layer, "\n")], fields, layer, fqid);
  }

  /** Normalising inserts the missing lines and then only edits lines. */
  lemma NormalizedSupplied(fields: seq<string>, layer: Layer, fqid: string)
    requires OperatorId(fqid)
    ensures NormalizeFields(fields, layer, fqid) == NormalizeLines(Supplied(fields, layer, fqid), layer, fqid)
  {
    hide ScopeLine, OwnerLine, NormalizeLine, NormalizeLines, LastScope, LastScopeAt, OperatorId, HasKey;
    ScopeSupplied(fields, layer, fqid);
    if layer == User && !Declares(fields, "user_id") {
      hide Declares;
      OwnerSupplied(fields, fqid);
    }
  }

  lemma OwnerSupplied(fields: seq<string>, fqid: string)
    requires OperatorId(fqid) && !Declares(fields, "user_id")
    ensures NormalizeFields(fields, User, fqid) == NormalizeLines(Supplied(fields, User, fqid), User, fqid)
  {
    hide ScopeLine, OwnerLine, NormalizeLine, NormalizeLines, LastScope, LastScopeAt, OperatorId, Declares;
    var at := LastScopeAt(fields);
    UserLines(fields, fqid);
    if at == -1 {
      ScopeSupplied(fields, User, fqid);
      InsertOwner([ScopeLine(User, "\n")] + fields, 1, fqid);
    } else {
      InsertOwner(fields, at + 1, fqid);
    }
  }

  lemma InsertOwner(fields: seq<string>, after: nat, fqid: string)
    requires after <= |fields| && OperatorId(fqid)
    ensures var lines := NormalizeLines(fields, User, fqid);
            && |lines| == |fields|
            && NormalizeLines(fields[..after] + [OwnerLine(fqid, "\n")] + fields[after..], User, fqid)
            == lines[..after] + [OwnerLine(fqid, "\n")] + lines[after..]
  {
    hide OwnerLine, NormalizeLine, NormalizeLines, OperatorId, LastScope, LastScopeAt;
    var a, b := fields[..after], fields[after..];
    NormalizeSupplied(User, fqid);
    NormalizeOne(OwnerLine(fqid, "\n"), User, fqid);
    assert fields == a + b;
    NormalizeConcat(a, b, User, fqid);
    NormalizeConcat(a + [OwnerLine(fqid, "\n")], b, User, fqid);
    NormalizeConcat(a, [OwnerLine(fqid, "\n")], User, fqid);
    UserLines(a, fqid);
    UserLines(fields, fqid);
  }

  lemma SuppliedAreLines(fields: seq<string>, layer: Layer, fqid: string)
    requires OperatorId(fqid) && forall l <- fields :: FullLine(l)
    ensures forall l <- Supplied(fields, layer, fqid) :: FullLine(l)
  {
    hide FullLine, ScopeLine, OwnerLine, LastScopeAt, OperatorId, HasKey, Fence;
    WrittenIsLine(layer, fqid, "\n");
  }

  /** Where one line keeps its end. */
  lemma LineOpens(line: string, layer: Layer, fqid: string)
    requires FullLine(line) && OperatorId(fqid)
    ensures var items := NormalizeLine(line, layer, fqid);
            if items == [] then layer == Agent && HasKey(line, "user_id")
            else |items| == 1 && (FullLine(items[0]) <==> !OpenEnd(line))
  {
    hide FieldKey, FullLine, OperatorId, ScopeLine, OwnerLine, Fence, Free, EndsWith, LineEnding;
    KeysDiffer(line);
    OpenCores(layer, fqid);
    OpenIsLine(ScopeLine(layer, ""));
    OpenIsLine(OwnerLine(fqid, ""));
    NewlineSuffix(line);
    if EndsWith(line, "\n") {
      WrittenIsLine(layer, fqid, LineEnding(line));
    }
  }

  lemma NewlineSuffix(line: string)
    ensures LineEnding(line) == "" <==> !EndsWith(line, "\n")
    ensures Ending(LineEnding(line))
  {
    assert EndsWith(line, "\r\n") ==> line[|line| - 1..] == line[|line| - 2..][1..];
  }

  lemma {:induction false} OpenedIff(fields: seq<string>, layer: Layer, fqid: string)
    requires OperatorId(fqid) && forall l <- fields :: FullLine(l)
    ensures Opened(NormalizeLines(fields, layer, fqid)) <==> EndsOpen(fields, layer)
  {
    hide FullLine, HasKey, OpenEnd, NormalizeLine, OperatorId;
    if fields != [] {
      var n := |fields| - 1;
      OpenedIff(fields[..n], layer, fqid);
      LineOpens(fields[n], layer, fqid);
      if NormalizeLine(fields[n], layer, fqid) != [] {
        DroppedOwner(fields[n], layer, fqid);
      }
    }
  }

  lemma DroppedOwner(line: string, layer: Layer, fqid: string)
    requires NormalizeLine(line, layer, fqid) != []
    ensures !(layer == Agent && HasKey(line, "user_id"))
  {
    KeysDiffer(line);
    hide HasKey;
  }

  // The agent layer.

  predicate AgentLine(l: string) {
    !HasKey(l, "user_id") && (HasKey(l, "scope") ==> FieldValue(l) != "user")
  }

  /** Whatever runs into an agent scope line, it is one still. */
  lemma JoinedScope(layer: Layer, next: string)
    ensures HasKey(ScopeLine(layer, "") + next, "scope")
    ensures layer == Agent ==> FieldValue(ScopeLine(layer, "") + next) != "user"
  {
    hide FieldKey, TrimStart, TrimEnd;
    var name := LayerName(layer);
    var rest := " " + (name + next);
    assert ScopeLine(layer, "") + next == "scope" + ":" + rest;
    KeyOf("scope", rest);
    hide KeyChar, PySpace, ScopeLine, Free;
    if layer == Agent {
      KeyIsSolid('a');
      assert Free("scope", IsColon) by { ScopeHasNoColon(); }
      ValueAfter("scope", "agent" + next);
      TrimEndKeepsStart("agent" + next, PySpace);
      var t := TrimEnd("agent" + next, PySpace);
      StartsSolid(t, IsQuote);
      TrimEndKeepsStart(t, IsQuote);
    }
  }

  lemma ScopeHasNoColon()
    ensures Free("scope", IsColon) && Free("user_id", IsColon) && KeyChar('a')
  {
  }

  /** A value that starts after one space. */
  lemma ValueAfter(key: string, value: string)
    requires Free(key, IsColon) && value != "" && !PySpace(value[0])
    ensures FieldValue(key + ":" + (" " + value)) == Trim(TrimEnd(value, PySpace), IsQuote)
  {
    hide PySpace, TrimEnd;
    var line := key + ":" + (" " + value);
    assert line[..|key|] == key;
    FirstOfIs(line, IsColon, |key|);
    assert line[|key| + 1..] == " " + value;
    SpaceIsSpace();
    TrimStartSkips(" ", value, PySpace);
    StartsSolid(value, PySpace);
    hide TrimStart;
  }

  lemma SpaceIsSpace()
    ensures PySpace(' ')
  {
  }

  lemma {:induction false} RegroupAgent(items: seq<string>, tail: seq<string>)
    requires forall l <- items :: if FullLine(l) then AgentLine(l) else l == ScopeLine(Agent, "")
    requires tail != [] ==> Opened(items) && |tail| == 1
    ensures forall l <- Regroup(items, tail) :: AgentLine(l)
  {
    hide FullLine, HasKey, FieldValue, ScopeLine;
    if items != [] {
      var rest := Regroup(items[1..], tail);
      if |items| > 1 {
        RegroupAgent(items[1..], tail);
      }
      if !FullLine(items[0]) {
        JoinedScope(Agent, "");
        assert ScopeLine(Agent, "") + "" == ScopeLine(Agent, "");
        ScopeKeyed(ScopeLine(Agent, ""));
        if rest != [] {
          JoinedScope(Agent, rest[0]);
          ScopeKeyed(ScopeLine(Agent, "") + rest[0]);
        }
      }
    }
  }

  lemma ScopeKeyed(l: string)
    requires HasKey(l, "scope")
    ensures !HasKey(l, "user_id")
  {
    KeysDiffer(l);
  }

  lemma AgentItems(fields: seq<string>, fqid: string)
    requires OperatorId(fqid) && forall l <- fields :: FullLine(l) && !Fence(l)
    ensures forall l <- NormalizeFields(fields, Agent, fqid) ::
              if FullLine(l) then AgentLine(l) else l == ScopeLine(Agent, "")
  {
    NormalizedIsAttributed(fields, Agent, fqid);
    FieldsSourced(fields, Agent, fqid);
    hide NormalizeFields, FullLine, Fence, OperatorId, HasKey, FieldValue, ScopeLine;
    forall l | l in NormalizeFields(fields, Agent, fqid) && !FullLine(l)
      ensures l == ScopeLine(Agent, "")
    {
      assert Sourced(l, fields, Agent, fqid);
      var e :| Ending(e) && l == ScopeLine(Agent, e);
      if e != "" {
        WrittenIsLine(Agent, fqid, e);
      }
    }
  }

  // The user layer.

  lemma {:induction false} TrimEndEmpty(s: string, space: char -> bool)
    ensures TrimEnd(s, space) == "" <==> Blank(s, space)
  {
    if s != "" && space(s[|s| - 1]) {
      TrimEndEmpty(s[..|s| - 1], space);
    }
  }

  lemma {:induction false} TrimStartBlank(s: string, space: char -> bool)
    requires Blank(s, space)
    ensures TrimStart(s, space) == ""
  {
    if s != "" {
      TrimStartBlank(s[1..], space);
    }
  }

  /** What runs into an owner line leaves its value alone exactly when it is quotes and white space. */
  lemma JoinedOwner(fqid: string, next: string)
    requires OperatorId(fqid)
    ensures HasKey(OwnerLine(fqid, "") + next, "user_id")
    ensures FieldValue(OwnerLine(fqid, "") + next) == fqid <==> OnlyQuotes(next)
  {
    hide FieldKey, Trim, TrimStart, TrimEnd, FieldValue, OperatorId, Blank;
    var l := OwnerLine(fqid, "") + next;
    var solid := "\"" + fqid + "\"";
    assert l == "user_id" + ":" + (" " + (solid + next));
    KeyOf("user_id", " " + (solid + next));
    QuoteIsSolid();
    ScopeHasNoColon();
    ValueAfter("user_id", solid + next);
    TrimEndKeeps(solid, next, PySpace);
    QuotedValue(fqid, TrimEnd(next, PySpace));
  }

  lemma QuoteIsSolid()
    ensures !PySpace('"')
  {
  }

  lemma QuotedValue(fqid: string, w: string)
    requires OperatorId(fqid)
    ensures Trim("\"" + fqid + "\"" + w, IsQuote) == fqid <==> Blank(w, IsQuote)
  {
    hide TrimStart, TrimEnd;
    var rest := fqid + ("\"" + w);
    assert "\"" + fqid + "\"" + w == "\"" + rest;
    TrimStartSkips("\"", rest, IsQuote);
    StartsSolid(rest, IsQuote);
    TrimEndKeeps(fqid, "\"" + w, IsQuote);
    TrimEndEmpty("\"" + w, IsQuote);
    var t := TrimEnd("\"" + w, IsQuote);
    assert fqid + t == fqid <==> t == "" by { assert |fqid + t| == |fqid| + |t|; }
    assert Blank("\"" + w, IsQuote) <==> Blank(w, IsQuote) by {
      assert forall i | 0 <= i < |w| :: ("\"" + w)[i + 1] == w[i];
    }
  }

  /** Quotes and white space hold no key and are no fence. */
  lemma QuotesAreNothing(line: string, key: string)
    requires OnlyQuotes(line)
    ensures !HasKey(line, key) && !Fence(line)
  {
    hide TrimEnd, PySpace;
    var t := TrimEnd(line, PySpace);
    TrimEndSpec(line, PySpace);
    if t == "" {
      TrimEndEmpty(line, PySpace);
      TrimEndEmpty("", PySpace);
      TrimStartBlank(line, PySpace);
    } else {
      assert line[0] == t[0] == '"';
      QuoteIsSolid();
      StartsSolid(line, PySpace);
    }
  }

  lemma LetterIsNoQuote(line: string)
    requires line != "" && 'a' <= line[0] <= 'z'
    ensures !OnlyQuotes(line)
  {
    hide TrimEnd, PySpace;
    KeyIsSolid(line[0]);
    TrimEndKeepsStart(line, PySpace);
  }

  lemma FirstOwner(l: string, ls: seq<string>, fqid: string)
    ensures Attributed([l] + ls, User, fqid) <==>
              if HasKey(l, "user_id") then FieldValue(l) == fqid else Attributed(ls, User, fqid)
  {
    hide HasKey, FieldValue;
    var p := (l: string) => HasKey(l, "user_id");
    var n := FindFirst(ls, p, 0);
    var all := [l] + ls;
    if HasKey(l, "user_id") {
      assert FindFirst(all, p, 0) == 0;
    } else if n < |ls| {
      assert forall k | 0 <= k < n + 1 :: k > 0 ==> all[k] == ls[k - 1];
      FindFirstIs(all, p, 0, n + 1);
    } else {
      assert forall k | 0 < k < |all| :: all[k] == ls[k - 1];
      assert forall k | 0 <= k < |all| :: !p(all[k]);
    }
  }

  lemma NormalizeHead(fields: seq<string>, fqid: string)
    requires fields != []
    ensures var h := NormalizeLine(fields[0], User, fqid);
            |h| == 1 && NormalizeLines(fields, User, fqid) == h + NormalizeLines(fields[1..], User, fqid)
  {
    hide NormalizeLines, ScopeLine, OwnerLine, HasKey, LineEnding;
    assert fields == [fields[0]] + fields[1..];
    NormalizeConcat([fields[0]], fields[1..], User, fqid);
    NormalizeOne(fields[0], User, fqid);
  }

  /** What follows the first field, in the regrouped lines. */
  lemma NextLine(fields: seq<string>, tail: seq<string>, fqid: string)
    requires OperatorId(fqid) && (forall l <- fields :: FullLine(l))
    requires if fields == [] then tail != [] && Fence(tail[0]) else tail != [] ==> EndsOpen(fields, User)
    ensures var rest := Regroup(NormalizeLines(fields, User, fqid), tail);
            rest != [] && (OnlyQuotes(rest[0]) <==> fields != [] && OnlyQuotes(fields[0]))
  {
    hide FullLine, HasKey, OnlyQuotes, OpenEnd, OperatorId, NormalizeLines, Fence, LineEnding;
    var rest := Regroup(NormalizeLines(fields, User, fqid), tail);
    if fields == [] {
      NothingNormalized(User, fqid);
      if OnlyQuotes(tail[0]) {
        QuotesAreNothing(tail[0], "scope");
      }
    } else {
      NormalizeHead(fields, fqid);
      var h := NormalizeLine(fields[0], User, fqid)[0];
      LineOpens(fields[0], User, fqid);
      if HasKey(fields[0], "scope") || HasKey(fields[0], "user_id") {
        KeyedStarts(fields[0], fqid);
        LetterIsNoQuote(rest[0]);
        if OnlyQuotes(fields[0]) {
          QuotesAreNothing(fields[0], "scope");
          QuotesAreNothing(fields[0], "user_id");
        }
      } else {
        NotOpen(fields[0]);
      }
    }
  }

  lemma NotOpen(line: string)
    requires !HasKey(line, "scope") && !HasKey(line, "user_id")
    ensures !OpenEnd(line)
  {
  }

  lemma KeyedStarts(line: string, fqid: string)
    requires HasKey(line, "scope") || HasKey(line, "user_id")
    ensures var items := NormalizeLine(line, User, fqid); |items| == 1 && items[0] != "" && 'a' <= items[0][0] <= 'z'
  {
    hide HasKey, LineEnding;
  }

  /** Reading on from a line that starts anew, or from behind one that was swallowed. */
  lemma {:induction false} OwnedIff(fields: seq<string>, anew: bool, tail: seq<string>, after: seq<string>,
      fqid: string)
    requires OperatorId(fqid) && forall l <- fields :: FullLine(l)
    requires tail == [] ==> (if fields == [] then anew else !EndsOpen(fields, User))
    requires tail != [] ==> Fence(tail[0]) && tail[1..] == after
    requires tail != [] ==> if fields == [] then !anew else EndsOpen(fields, User)
    ensures var rest := Regroup(NormalizeLines(fields, User, fqid), tail);
            (rest == [] ==> anew) &&
            (OwnerHeld(fields, anew, after, fqid) <==> Attributed(if anew then rest else rest[1..], User, fqid))
  {
    hide FullLine, HasKey, OnlyQuotes, OpenEnd, OperatorId, NormalizeLines, NormalizeLine, Fence, Attributed, EndsWith;
    if fields == [] {
      NothingNormalized(User, fqid);
      NobodyOwns(fqid);
    } else {
      NormalizeHead(fields, fqid);
      LineOpens(fields[0], User, fqid);
      OwnedStep(fields, anew, tail, fqid);
      OwnedIff(fields[1..], !OpenEnd(fields[0]), tail, after, fqid);
    }
  }

  lemma NobodyOwns(fqid: string)
    ensures !Attributed([], User, fqid)
  {
  }

  lemma OwnedStep(fields: seq<string>, anew: bool, tail: seq<string>, fqid: string)
    requires OperatorId(fqid) && fields != [] && forall l <- fields :: FullLine(l)
    requires tail != [] ==> Fence(tail[0]) && EndsOpen(fields, User)
    requires tail == [] ==> !EndsOpen(fields, User)
    ensures var all := Regroup(NormalizeLines(fields, User, fqid), tail);
            var rest := Regroup(NormalizeLines(fields[1..], User, fqid), tail);
            && all != []
            && (OpenEnd(fields[0]) ==> rest != [] && all[1..] == rest[1..])
            && (!OpenEnd(fields[0]) ==> all[1..] == rest)
            && (Attributed(all, User, fqid) <==>
                  if HasKey(fields[0], "user_id") then
                    EndsWith(fields[0], "\n") || (|fields| > 1 && OnlyQuotes(fields[1]))
                  else Attributed(all[1..], User, fqid))
  {
    hide FullLine, HasKey, OnlyQuotes, OperatorId, NormalizeLines, Fence, Attributed, EndsWith, ScopeLine, OwnerLine,
        LineEnding;
    var all := Regroup(NormalizeLines(fields, User, fqid), tail);
    var rest := Regroup(NormalizeLines(fields[1..], User, fqid), tail);
    NormalizeHead(fields, fqid);
    LineOpens(fields[0], User, fqid);
    KeysDiffer(fields[0]);
    NewlineSuffix(fields[0]);
    ScopeLineReads(User, LineEnding(fields[0]));
    OwnerLineReads(fqid, LineEnding(fields[0]));
    if OpenEnd(fields[0]) {
      NextLine(fields[1..], tail, fqid);
      JoinedScope(User, rest[0]);
      JoinedOwner(fqid, rest[0]);
      KeysDiffer(all[0]);
    }
    FirstOwner(all[0], all[1..], fqid);
    assert all == [all[0]] + all[1..];
    ItemKey(fields[0], fqid);
  }

  lemma ItemKey(line: string, fqid: string)
    requires OperatorId(fqid)
    ensures var items := NormalizeLine(line, User, fqid);
            && |items| == 1
            && (HasKey(items[0], "user_id") <==> HasKey(line, "user_id"))
            && (HasKey(line, "user_id") ==>
                items == [OwnerLine(fqid, LineEnding(line))] && FieldValue(items[0]) == fqid)
            && (HasKey(line, "scope") ==> items == [ScopeLine(User, LineEnding(line))])
  {
    hide FieldKey, FieldValue, OperatorId, ScopeLine, OwnerLine, Fence;
    NewlineSuffix(line);
    ScopeLineReads(User, LineEnding(line));
    OwnerLineReads(fqid, LineEnding(line));
    KeysDiffer(line);
    ScopeKeyed(ScopeLine(User, LineEnding(line)));
  }

  function FieldsOf(text: string): seq<string> {
    match SplitFront(text)
    case NoFront => []
    case Front(_, fields, _, _) => fields
  }

  lemma AgentIff(f: Front, fqid: string)
    requires Splittable(f) && OperatorId(fqid)
    ensures var g := Resplit(f, NormalizeFields(f.fields, Agent, fqid));
            Attributed(if g.Front? then g.fields else [], Agent, fqid) <==> Attributable(f, Agent, fqid)
  {
    hide FullLine, Fence, HasKey, FieldValue, NormalizeFields, OperatorId, Lines, Regroup, NormalizeLines, Opened,
      EndsOpen, Supplied, AnyLine, ScopeLine, OwnerLine, Flat;
    var items := NormalizeFields(f.fields, Agent, fqid);
    var fields := Supplied(f.fields, Agent, fqid);
    NormalizedSupplied(f.fields, Agent, fqid);
    SuppliedAreLines(f.fields, Agent, fqid);
    OpenedIff(fields, Agent, fqid);
    AgentItems(f.fields, fqid);
    if Opened(items) {
      RegroupAgent(items, [f.closer]);
    } else {
      RegroupAgent(items, []);
    }
  }

  lemma UserIff(f: Front, fqid: string)
    requires Splittable(f) && OperatorId(fqid)
    ensures var g := Resplit(f, NormalizeFields(f.fields, User, fqid));
            Attributed(if g.Front? then g.fields else [], User, fqid) <==> Attributable(f, User, fqid)
  {
    hide FullLine, Fence, HasKey, FieldValue, NormalizeFields, OperatorId, Lines, Regroup, NormalizeLines, Opened,
      EndsOpen, Supplied, AnyLine, ScopeLine, OwnerLine, Flat, Attributed, OwnerHeld;
    var items := NormalizeFields(f.fields, User, fqid);
    var fields := Supplied(f.fields, User, fqid);
    NormalizedSupplied(f.fields, User, fqid);
    SuppliedAreLines(f.fields, User, fqid);
    OpenedIff(fields, User, fqid);
    var ls := Lines(f.body);
    var n := FindFirst(ls, Fence, 0);
    NobodyOwns(fqid);
    NothingOpens(User);
    if Opened(items) {
      RegroupTail(items, f.closer, ls[..n]);
      assert ([f.closer] + ls[..n])[1..] == ls[..n];
      OwnedIff(fields, true, [f.closer] + ls[..n], ls[..n], fqid);
    } else {
      OwnedIff(fields, true, [], ls[..n], fqid);
    }
  }

  lemma NothingOpens(layer: Layer)
    ensures !EndsOpen([], layer)
  {
  }

  /** Exactly when a normalised file is attributed to its layer. */
  lemma AttributedIff(text: string, layer: Layer, fqid: string)
    requires OperatorId(fqid) && SplitFront(text).Front?
    ensures Normalized(text, layer, fqid).Some?
    ensures Attributed(FieldsOf(Normalized(text, layer, fqid).value), layer, fqid)
            <==> Attributable(SplitFront(text), layer, fqid)
  {
    hide SplitFront, Resplit, NormalizeFields, Attributed, Attributable, OperatorId, Whole;
    WholeOfSplit(text);
    NormalizedSplits(text, layer, fqid);
    match layer
    case Agent => AgentIff(SplitFront(text), fqid);
    case User => UserIff(SplitFront(text), fqid);
  }

  /** Attribution lines that end in newlines are always enough. */
  lemma PlainIsAttributable(f: Front, layer: Layer, fqid: string)
    requires Splittable(f) && OperatorId(fqid) && PlainEnds(f.fields)
    ensures Attributable(f, layer, fqid)
  {
    hide FullLine, Fence, HasKey, OperatorId, Lines, AnyLine, ScopeLine, OwnerLine, LastScopeAt, Attributed, EndsWith;
    var fields := Supplied(f.fields, layer, fqid);
    NormalizeSupplied(layer, fqid);
    NoneOpen(fields, layer);
    if layer == User {
      SuppliedOwner(f.fields, fqid);
      var ls := Lines(f.body);
      PlainHeld(fields, ls[..FindFirst(ls, Fence, 0)], fqid);
    }
  }

  lemma SuppliedOwner(fields: seq<string>, fqid: string)
    requires OperatorId(fqid)
    ensures Declares(Supplied(fields, User, fqid), "user_id")
  {
    hide HasKey, ScopeLine, OwnerLine, LastScopeAt, OperatorId;
    NormalizeSupplied(User, fqid);
    var all := Supplied(fields, User, fqid);
    if Declares(fields, "user_id") {
      var l :| l in fields && HasKey(l, "user_id");
      assert l in all;
    } else {
      assert OwnerLine(fqid, "\n") in all;
    }
  }

  lemma {:induction false} NoneOpen(fields: seq<string>, layer: Layer)
    requires forall l <- fields :: !OpenEnd(l)
    ensures !EndsOpen(fields, layer)
  {
    hide OpenEnd, HasKey;
    if fields != [] {
      NoneOpen(fields[..|fields| - 1], layer);
    }
  }

  lemma {:induction false} PlainHeld(fields: seq<string>, after: seq<string>, fqid: string)
    requires (forall l <- fields :: !OpenEnd(l)) && Declares(fields, "user_id")
    ensures OwnerHeld(fields, true, after, fqid)
  {
    hide HasKey, EndsWith, OnlyQuotes;
    assert !OpenEnd(fields[0]);
    if !HasKey(fields[0], "user_id") {
      var l :| l in fields && HasKey(l, "user_id");
      assert l in fields[1..];
      PlainHeld(fields[1..], after, fqid);
    }
  }

  // ---- Fields about anything else -------------------------------------------------------------------

  /** The lines that declare neither a scope nor an owner, in order. */
  function Others(fields: seq<string>): seq<string> {
    if fields == [] then []
    else
      (if HasKey(fields[0], "scope") || HasKey(fields[0], "user_id") then [] else [fields[0]]) + Others(fields[1..])
  }

  lemma {:induction false} OthersConcat(a: seq<string>, b: seq<string>)
    ensures Others(a + b) == Others(a) + Others(b)
  {
    hide HasKey;
    if a == [] {
      assert a + b == b;
    } else {
      assert (a + b)[1..] == a[1..] + b;
      OthersConcat(a[1..], b);
    }
  }

  lemma OthersOfOne(l: string)
    ensures Others([l]) == if HasKey(l, "scope") || HasKey(l, "user_id") then [] else [l]
  {
    hide HasKey;
    assert [l][1..] == [];
  }

  lemma WrittenIsNoOther(layer: Layer, fqid: string, e: string)
    requires OperatorId(fqid) && Ending(e)
    ensures Others([ScopeLine(layer, e)]) == [] && Others([OwnerLine(fqid, e)]) == []
  {
    hide FieldKey, ScopeLine, OwnerLine, OperatorId, FieldValue, Fence, Others;
    ScopeLineReads(layer, e);
    OwnerLineReads(fqid, e);
    OthersOfOne(ScopeLine(layer, e));
    OthersOfOne(OwnerLine(fqid, e));
  }

  lemma OthersOfLine(line: string, layer: Layer, fqid: string)
    requires OperatorId(fqid)
    ensures Others(NormalizeLine(line, layer, fqid)) == Others([line])
  {
    hide HasKey, ScopeLine, OwnerLine, OperatorId, LineEnding;
    LineEndingIs(line);
    WrittenIsNoOther(layer, fqid, LineEnding(line));
    OthersOfOne(line);
  }

  lemma {:induction false} OthersOfLines(fields: seq<string>, layer: Layer, fqid: string)
    requires OperatorId(fqid)
    ensures Others(NormalizeLines(fields, layer, fqid)) == Others(fields)
  {
    hide HasKey, NormalizeLine, OperatorId, Others;
    if fields == [] {
      assert NormalizeLines(fields, layer, fqid) == fields;
    } else {
      var n := |fields| - 1;
      assert fields == fields[..n] + [fields[n]];
      OthersOfLines(fields[..n], layer, fqid);
      OthersOfLine(fields[n], layer, fqid);
      OthersConcat(fields[..n], [fields[n]]);
      OthersConcat(NormalizeLines(fields[..n], layer, fqid), NormalizeLine(fields[n], layer, fqid));
    }
  }

  lemma OthersInserted(lines: seq<string>, at: nat, l: string)
    requires at <= |lines| && Others([l]) == []
    ensures Others(lines[..at] + [l] + lines[at..]) == Others(lines)
  {
    hide Others;
    OthersConcat(lines[..at] + [l], lines[at..]);
    OthersConcat(lines[..at], [l]);
    OthersConcat(lines[..at], lines[at..]);
    assert lines == lines[..at] + lines[at..];
  }

  /** Normalising keeps every other line, in order. */
  lemma NormalizedKeepsOthers(fields: seq<string>, layer: Layer, fqid: string)
    requires OperatorId(fqid)
    ensures Others(NormalizeFields(fields, layer, fqid)) == Others(fields)
  {
    hide Others, HasKey, NormalizeLines, ScopeLine, OwnerLine, OperatorId, LastScope, Declares;
    var lines := NormalizeLines(fields, layer, fqid);
    var scope := LastScope(fields, layer, fqid);
    OthersOfLines(fields, layer, fqid);
    WrittenIsNoOther(layer, fqid, "\n");
    OthersConcat([ScopeLine(layer, "\n")], lines);
    var scoped := if scope == -1 then [ScopeLine(layer, "\n")] + lines else lines;
    OthersInserted(scoped, (if scope == -1 then 0 else scope) + 1, OwnerLine(fqid, "\n"));
  }

  /** The attribution lines as written. */
  ghost predicate AttributionLine(l: string, layer: Layer, fqid: string) {
    exists e | Ending(e) ::
      match layer
      case Agent => l == "scope: agent" + e
      case User => l == "scope: user" + e || l == "user_id: \"" + fqid + "\"" + e
  }

  /** Every other line of the output is an attribution line of the layer. */
  lemma NormalizedLinesAre(fields: seq<string>, layer: Layer, fqid: string)
    ensures forall l <- NormalizeFields(fields, layer, fqid) ::
              || (l in fields && !HasKey(l, "scope") && !HasKey(l, "user_id"))
              || AttributionLine(l, layer, fqid)
  {
    hide HasKey, NormalizeFields, AttributionLine, Written;
    FieldsSourced(fields, layer, fqid);
    forall l | Written(l, layer, fqid)
      ensures AttributionLine(l, layer, fqid)
    {
      WrittenLine(l, layer, fqid);
    }
  }

  lemma WrittenLine(l: string, layer: Layer, fqid: string)
    requires Written(l, layer, fqid)
    ensures AttributionLine(l, layer, fqid)
  {
    var e :| Ending(e) && (l == ScopeLine(layer, e) || (layer == User && l == OwnerLine(fqid, e)));
    assert "scope: " + "agent" == "scope: agent" && "scope: " + "user" == "scope: user";
  }

  lemma {:induction false} PlainLinesFull(fields: seq<string>, layer: Layer, fqid: string)
    requires OperatorId(fqid) && PlainEnds(fields) && forall l <- fields :: FullLine(l)
    ensures forall l <- NormalizeLines(fields, layer, fqid) :: FullLine(l)
  {
    if fields != [] {
      var n := |fields| - 1;
      assert forall l <- fields[..n] :: l in fields;
      assert fields[n] in fields;
      PlainEnding(fields[n]);
      hide PlainEnds, HasKey, FullLine, EndsWith, ScopeLine, OwnerLine, OperatorId, LineEnding, Fence;
      PlainEndsFront(fields);
      PlainLinesFull(fields[..n], layer, fqid);
      if HasKey(fields[n], "scope") || HasKey(fields[n], "user_id") {
        WrittenIsLine(layer, fqid, LineEnding(fields[n]));
      }
    }
  }

  lemma PlainEnding(line: string)
    ensures EndsWith(line, "\n") ==> LineEnding(line) == "\n" || LineEnding(line) == "\r\n"
  {
  }

  lemma PlainEndsFront(fields: seq<string>)
    requires PlainEnds(fields) && fields != []
    ensures PlainEnds(fields[..|fields| - 1])
    ensures var l := fields[|fields| - 1]; HasKey(l, "scope") || HasKey(l, "user_id") ==> EndsWith(l, "\n")
  {
    hide HasKey, EndsWith;
    assert forall l <- fields[..|fields| - 1] :: l in fields;
    assert fields[|fields| - 1] in fields;
  }

  lemma {:induction false} RegroupFull(items: seq<string>)
    requires forall l <- items :: FullLine(l)
    ensures Regroup(items, []) == items
  {
    hide FullLine;
    if items != [] {
      assert forall l <- items[1..] :: l in items;
      assert items[0] in items;
      RegroupFull(items[1..]);
    }
  }

  /** When the attribution lines end in newlines, a normalised text splits into the same opening, closing
      and body, and every other field is where it was. */
  lemma NormalizedTextKeepsOthers(text: string, layer: Layer, fqid: string)
    requires OperatorId(fqid) && SplitFront(text).Front? && PlainEnds(FieldsOf(text))
    ensures Normalized(text, layer, fqid).Some?
    ensures var f, g := SplitFront(text), SplitFront(Normalized(text, layer, fqid).value);
            && g.Front? && g.opener == f.opener && g.closer == f.closer && g.body == f.body
            && Others(g.fields) == Others(f.fields)
  {
    hide SplitFront, NormalizeFields, Normalized, Others, FullLine, Fence, PlainEnds, OperatorId, Regroup, Flat,
      AnyLine;
    var f := SplitFront(text);
    WholeOfSplit(text);
    NormalizedSplits(text, layer, fqid);
    PlainItemsFull(f.fields, layer, fqid);
    NormalizedKeepsOthers(f.fields, layer, fqid);
    RegroupFull(NormalizeFields(f.fields, layer, fqid));
  }

  lemma PlainItemsFull(fields: seq<string>, layer: Layer, fqid: string)
    requires OperatorId(fqid) && PlainEnds(fields) && forall l <- fields :: FullLine(l)
    ensures forall l <- NormalizeFields(fields, layer, fqid) :: FullLine(l)
  {
    hide NormalizeLines, FullLine, ScopeLine, OwnerLine, OperatorId, PlainEnds, LastScope, Declares, Fence;
    PlainLinesFull(fields, layer, fqid);
    WrittenIsLine(layer, fqid, "\n");
  }

  // ---- Appending to a text ----------------------------------------------------------------------------

  /** Text added after a newline lands in the body and leaves the fields alone. */
  lemma AppendKeepsFields(text: string, more: string)
    requires SplitFront(text).Front? && more != "" && more[0] == '\n'
    ensures var f, g := SplitFront(text), SplitFront(text + more);
            g.Front? && g.opener == f.opener && g.fields == f.fields && g.closer + g.body == f.closer + f.body + more
  {
    hide SplitFront, AnyLine, Fence, Whole, FullLine;
    var f := SplitFront(text);
    WholeOfSplit(text);
    if FullLine(f.closer) {
      WholeGrowsBy(f, more);
      SplitOfWhole(f.(body := f.body + more));
      assert f.closer + (f.body + more) == f.closer + f.body + more;
    } else {
      var g := f.(closer := f.closer + "\n", body := more[1..]);
      CloserTakesNewline(f.closer);
      NewlineMoves(f.closer, more);
      WholeMoves(f, more);
      SplitOfWhole(g);
    }
  }

  lemma WholeGrowsBy(f: Front, more: string)
    requires f.Front?
    ensures Whole(f.(body := f.body + more)) == Whole(f) + more
  {
  }

  lemma NewlineMoves(closer: string, more: string)
    requires more != "" && more[0] == '\n'
    ensures closer + "\n" + more[1..] == closer + "" + more
  {
    assert more == "\n" + more[1..];
  }

  lemma WholeMoves(f: Front, more: string)
    requires f.Front? && f.body == "" && more != "" && more[0] == '\n'
    ensures Whole(f.(closer := f.closer + "\n", body := more[1..])) == Whole(f) + more
  {
    assert more == "\n" + more[1..];
  }

  /** Normalising what more text was added to is adding it to what was normalised. */
  lemma NormalizedAppend(text: string, more: string, layer: Layer, fqid: string)
    requires SplitFront(text).Front? && more != "" && more[0] == '\n'
    ensures SplitFront(text + more).Front? && Normalized(text, layer, fqid).Some?
    ensures Normalized(text + more, layer, fqid) == Some(Normalized(text, layer, fqid).value + more)
  {
    hide SplitFront, NormalizeFields, Flat;
    AppendKeepsFields(text, more);
    var f, g := SplitFront(text), SplitFront(text + more);
    var front := f.opener + Flat(NormalizeFields(f.fields, layer, fqid));
    assert front + g.closer + g.body == front + (g.closer + g.body);
    assert front + f.closer + f.body + more == front + (f.closer + f.body + more);
  }

  lemma CloserTakesNewline(closer: string)
    requires Fence(closer) && AnyLine(closer) && !FullLine(closer)
    ensures Fence(closer + "\n") && FullLine(closer + "\n") && AnyLine(closer + "\n")
  {
    hide TrimStart, TrimEnd;
    var line := closer + "\n";
    assert line[..|closer|] == closer && closer[..|closer|] == closer;
    FirstOfIs(line, IsBreak, |closer|);
    TrimTakesNewline(closer);
  }

  lemma {:induction false} TrimTakesNewline(s: string)
    requires Trim(s, PySpace) != ""
    ensures Trim(s + "\n", PySpace) == Trim(s, PySpace)
  {
    if s != "" && PySpace(s[0]) {
      assert (s + "\n")[1..] == s[1..] + "\n";
      TrimTakesNewline(s[1..]);
    } else {
      TrimEndSkips(s, "\n", PySpace);
    }
  }

  // ---- Attribution lines that end in other ways -----------------------------------------------------

  /** A front matter whose owner line ends in a line separator, with another field behind it. */
  function Separated(owner: string): Front {
    Front("---\n", [owner, "x: b\n"], "---\n", "")
  }

  lemma SeparatedSplits(owner: string)
    requires FullLine(owner) && !Fence(owner)
    ensures SplitFront(Whole(Separated(owner))) == Separated(owner)
  {
    hide Fence, FullLine, AnyLine, SplitFront, Whole;
    FencesFit();
    OtherFits();
    SplitOfWhole(Separated(owner));
  }

  lemma OtherFits()
    ensures FullLine("x: b\n") && !Fence("x: b\n")
  {
    hide Fence;
    EndedIsFull("x: b", "\n");
    assert "x: b" + "\n" == "x: b\n";
    KeyedIsNoFence("x: b\n");
  }

  lemma FenceLine()
    ensures Fence("---\n")
  {
    hide TrimStart, TrimEnd;
    TrimBetween("", "---", "\n", PySpace);
    assert "" + "---" + "\n" == "---\n";
  }

  /** An owner line ended by U+2028 instead of a newline. */
  const EXOTIC := "user_id: a" + ['\U{2028}']

  lemma EndedByBreak(core: string, b: char)
    requires Free(core, IsBreak) && IsBreak(b) && b != '\n'
    ensures FullLine(core + [b]) && LineEnding(core + [b]) == ""
  {
    var line := core + [b];
    assert line[..|core|] == core && line[|core|] == b;
    FirstOfIs(line, IsBreak, |core|);
    assert !EndsWith(line, "\n") && !EndsWith(line, "\r\n");
  }

  lemma ExoticLine()
    ensures FullLine(EXOTIC) && !Fence(EXOTIC) && HasKey(EXOTIC, "user_id") && LineEnding(EXOTIC) == ""
  {
    hide FieldKey, Fence, FullLine, LineEnding;
    assert Free("user_id: a", IsBreak);
    EndedByBreak("user_id: a", '\U{2028}');
    var rest := " a" + ['\U{2028}'];
    assert EXOTIC == "user_id" + ":" + rest;
    KeyOf("user_id", rest);
    KeyedIsNoFence(EXOTIC);
  }

  lemma OtherKey()
    ensures FieldKey("x: b\n") == Some("x") && "x" != "scope" && "x" != "user_id" && "user_id" != "scope"
  {
    hide FieldKey;
    assert "x: b\n" == "x" + ":" + " b\n";
    KeyOf("x", " b\n");
    assert |"x"| != |"scope"| && |"x"| != |"user_id"| && |"user_id"| != |"scope"|;
  }

  /** The owner line swallows the field behind it. */
  lemma ExoticNormalized(fqid: string)
    ensures NormalizeFields([EXOTIC, "x: b\n"], User, fqid) == [ScopeLine(User, "\n"), OwnerLine(fqid, ""), "x: b\n"]
  {
    hide FieldKey, FullLine, Fence, LineEnding, ScopeLine, OwnerLine;
    ExoticLine();
    OtherKey();
    var fields := [EXOTIC, "x: b\n"];
    NormalizeStep(fields, 0, User, fqid);
    NormalizeStep(fields, 1, User, fqid);
    NothingNormalized(User, fqid);
    assert fields[..0] == [] && fields[..2] == fields;
    assert HasKey(EXOTIC, "user_id") && EXOTIC in fields;
    hide NormalizeLines, LastScope;
  }

  lemma JoinedLine(fqid: string)
    requires OperatorId(fqid)
    ensures var l := OwnerLine(fqid, "") + "x: b\n";
            FullLine(l) && !Fence(l) && HasKey(l, "user_id") && FieldValue(l) != fqid
  {
    hide FieldKey, Fence, FullLine, FieldValue, Trim, TrimStart, TrimEnd;
    var l := OwnerLine(fqid, "") + "x: b\n";
    var value := "\"" + fqid + "\"x: b";
    CoresAreFree(User, fqid);
    FreeConcat("user_id: \"" + fqid + "\"", "x: b", IsBreak);
    EndedIsFull("user_id: \"" + fqid + "\"" + "x: b", "\n");
    assert l == "user_id: \"" + fqid + "\"" + "x: b" + "\n";
    assert l == "user_id" + ":" + (" " + value + "\n");
    KeyOf("user_id", " " + value + "\n");
    KeyedIsNoFence(l);
    var core := fqid + "\"x: b";
    assert "\"" + core + "" == value;
    TrimBetween("\"", core, "", IsQuote);
    KeyIsSolid('b');
    ValueReads("user_id", " ", value, "\n");
    assert |core| > |fqid|;
  }

  /** When the owner line ends in a character other than a newline that `splitlines` breaks at, the
      normalised line runs into the next field and no longer names the operator: such a pool fails the
      attribution check. */
  lemma ExoticEndLosesOwner(fqid: string)
    requires OperatorId(fqid)
    ensures var text := Whole(Separated(EXOTIC));
            var out := Normalized(text, User, fqid);
            out.Some? && SplitFront(out.value).Front? && !Attributed(SplitFront(out.value).fields, User, fqid)
  {
    hide FieldKey, FieldValue, Fence, FullLine, AnyLine, SplitFront, NormalizeFields, OperatorId, LineEnding;
    ExoticLine();
    SeparatedSplits(EXOTIC);
    ExoticNormalized(fqid);
    var scope, joined := ScopeLine(User, "\n"), OwnerLine(fqid, "") + "x: b\n";
    JoinedLine(fqid);
    WrittenIsLine(User, fqid, "\n");
    ScopeLineReads(User, "\n");
    var g := Front("---\n", [scope, joined], "---\n", "");
    FencesFit();
    SplitOfWhole(g);
    FlatThree(scope, OwnerLine(fqid, ""), "x: b\n");
    assert Normalized(Whole(Separated(EXOTIC)), User, fqid) == Some(Whole(g));
    OtherKey();
    assert FindFirst(g.fields, (l: string) => HasKey(l, "user_id"), 0) == 1;
  }

  lemma FencesFit()
    ensures Fence("---\n") && FullLine("---\n") && AnyLine("---\n")
  {
    hide Fence;
    FenceLine();
    EndedIsFull("---", "\n");
    assert "---" + "\n" == "---\n";
  }

  lemma FlatThree(a: string, b: string, c: string)
    ensures Flat([a, b, c]) == Flat([a, b + c])
  {
    assert Flat([a, b, c]) == a + Flat([b, c]);
    assert Flat([b, c]) == b + Flat([c]);
    assert Flat([a, b + c]) == a + Flat([b + c]);
    FlatOne(c);
    FlatOne(b + c);
  }
}
