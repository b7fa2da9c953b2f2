/** Moving a skill's non-standard fields under `metadata:` (scripts/migrate_skill_frontmatter.py). */
module SkillFrontMatter {
  import opened Newlines
  import opened Text

  // ---- Fields ---------------------------------------------------------------------------------------

  /** A key, what follows its colon, and the lines that continue it. */
  datatype Field = Field(key: string, rest: string, cont: seq<string>)

  predicate KeyStart(c: char) { 'a' <= c <= 'z' || 'A' <= c <= 'Z' || c == '_' }

  predicate KeyChar(c: char) { KeyStart(c) || '0' <= c <= '9' || c == '-' }

  predicate NotKeyChar(c: char) { !KeyChar(c) }

  predicate NotSpace(c: char) { c != ' ' }

  function KeyEnd(line: string): nat {
    FirstOf(line, NotKeyChar)
  }

  /** The expression `^([A-Za-z_][A-Za-z0-9_-]*):(.*)$`. */
  predicate KeyLine(line: string) {
    var n := KeyEnd(line);
    0 < n < |line| && line[n] == ':' && KeyStart(line[0])
  }

  /** Blank or indented. */
  predicate ContLine(line: string) {
    line == "" || PySpace(line[0])
  }

  predicate Key(s: string) {
    s != "" && KeyStart(s[0]) && Free(s, NotKeyChar)
  }

  /** The first line from `i` on that continues nothing. */
  function ContEnd(lines: seq<string>, i: nat): (n: nat)
    requires i <= |lines|
    ensures i <= n <= |lines|
    ensures forall k | i <= k < n :: ContLine(lines[k])
    ensures n < |lines| ==> !ContLine(lines[n])
    decreases |lines| - i
  {
    if i < |lines| && ContLine(lines[i]) then ContEnd(lines, i + 1) else i
  }

  function ParseFields(lines: seq<string>): seq<Field>
    decreases |lines|
  {
    if lines == [] then []
    else if !KeyLine(lines[0]) then ParseFields(lines[1..])
    else
      var n := ContEnd(lines, 1);
      [FieldAt(lines[0], lines[1..n])] + ParseFields(lines[n..])
  }

  function FieldAt(line: string, cont: seq<string>): Field
    requires KeyLine(line)
  {
    var k := KeyEnd(line);
    Field(line[..k], line[k + 1..], cont)
  }

  predicate BlankLine(line: string) {
    Trim(line, PySpace) == ""
  }

  lemma NoKeyHere(line: string)
    requires BlankLine(line) || (line != "" && PySpace(line[0]))
    ensures !KeyLine(line)
  {
    if KeyLine(line) {
      StartsSolid(line, PySpace);
      BlankEnd(line);
    }
  }

  lemma {:induction false} BlankEnd(s: string)
    requires s != "" && !PySpace(s[0])
    ensures TrimEnd(s, PySpace) != ""
  {
    if PySpace(s[|s| - 1]) {
      BlankEnd(s[..|s| - 1]);
    }
  }

  lemma ParseSkips(lines: seq<string>, i: nat)
    requires i < |lines| && !KeyLine(lines[i])
    ensures ParseFields(lines[i..]) == ParseFields(lines[i + 1..])
  {
    assert lines[i..][1..] == lines[i + 1..];
  }

  lemma ParseTakes(lines: seq<string>, i: nat, n: nat)
    requires i < n <= |lines| && KeyLine(lines[i])
    requires (forall k | i < k < n :: ContLine(lines[k])) && (n < |lines| ==> !ContLine(lines[n]))
    ensures ParseFields(lines[i..]) == [FieldAt(lines[i], lines[i + 1..n])] + ParseFields(lines[n..])
  {
    hide KeyLine, ContLine;
    var here := lines[i..];
    assert forall k | 1 <= k < n - i :: here[k] == lines[i + k];
    assert here[n - i..] == lines[n..] && here[1..n - i] == lines[i + 1..n];
  }

  method Parse(text: string) returns (fields: seq<Field>)
    ensures fields == ParseFields(Split(text))
  {
    hide KeyLine, ContLine, BlankLine, FieldAt, ParseFields;
    var lines := Split(text);
    fields := [];
    var i := 0;
    assert lines[0..] == lines;
    while i < |lines|
      invariant 0 <= i <= |lines|
      invariant fields + ParseFields(lines[i..]) == ParseFields(lines)
    {
      var line := lines[i];
      if BlankLine(line) || (line != "" && PySpace(line[0])) {
        NoKeyHere(line);
        ParseSkips(lines, i);
        i := i + 1;
      } else if !KeyLine(line) {
        ParseSkips(lines, i);
        i := i + 1;
      } else {
        var start := i + 1;
        i := i + 1;
        while i < |lines| && ContLine(lines[i])
          invariant start <= i <= |lines|
          invariant forall k | start <= k < i :: ContLine(lines[k])
        {
          i := i + 1;
        }
        ParseTakes(lines, start - 1, i);
        fields := fields + [FieldAt(line, lines[start..i])];
      }
    }
    NothingToParse(lines, i);
  }

  lemma NothingToParse(lines: seq<string>, i: nat)
    requires i == |lines|
    ensures ParseFields(lines[i..]) == []
  {
  }

  lemma KeyEndIn(line: string)
    requires KeyLine(line)
    ensures 0 < KeyEnd(line) < |line|
  {
  }

  // ---- Printing and parsing back ------------------------------------------------------------------------

  function Header(f: Field): string {
    f.key + ":" + f.rest
  }

  function PrintField(f: Field): seq<string> {
    [Header(f)] + f.cont
  }

  function Print(fields: seq<Field>): seq<string> {
    if fields == [] then [] else PrintField(fields[0]) + Print(fields[1..])
  }

  /** A field as the parser makes them. */
  ghost predicate Parsed(f: Field) {
    && Key(f.key) && Free(f.key, IsNewline) && Free(f.rest, IsNewline)
    && forall l <- f.cont :: ContLine(l) && Free(l, IsNewline)
  }

  lemma HeaderIsKeyLine(key: string, rest: string)
    requires Key(key)
    ensures var l := key + ":" + rest;
            KeyLine(l) && KeyEnd(l) == |key| && !ContLine(l) && l[..|key|] == key && l[|key| + 1..] == rest
  {
    var l := key + ":" + rest;
    assert l[..|key|] == key && l[0] == key[0];
    FirstOfIs(l, NotKeyChar, |key|);
  }

  lemma ParsePrinted(f: Field, rest: seq<string>)
    requires Parsed(f) && (rest == [] || !ContLine(rest[0]))
    ensures ParseFields(PrintField(f) + rest) == [f] + ParseFields(rest)
  {
    hide KeyLine, ContLine, KeyEnd;
    var lines := PrintField(f) + rest;
    var n := 1 + |f.cont|;
    HeaderIsKeyLine(f.key, f.rest);
    assert lines[0] == Header(f);
    assert lines[1..n] == f.cont && lines[n..] == rest;
    forall k | 1 <= k < n
      ensures ContLine(lines[k])
    {
      assert lines[k] == f.cont[k - 1];
    }
  }

  lemma PrintStarts(fields: seq<Field>)
    requires forall f <- fields :: Parsed(f)
    ensures Print(fields) == [] || !ContLine(Print(fields)[0])
  {
    if fields != [] {
      assert Parsed(fields[0]);
      HeaderIsKeyLine(fields[0].key, fields[0].rest);
    }
  }

  /** Printed fields parse back to themselves. */
  lemma {:induction false} ParseOfPrint(fields: seq<Field>)
    requires forall f <- fields :: Parsed(f)
    ensures ParseFields(Print(fields)) == fields
  {
    if fields != [] {
      hide Parsed, ContLine, PrintField;
      PrintStarts(fields[1..]);
      ParsePrinted(fields[0], Print(fields[1..]));
      ParseOfPrint(fields[1..]);
    }
  }

  lemma {:induction false} ParsedFields(lines: seq<string>)
    requires forall l <- lines :: Free(l, IsNewline)
    ensures forall f <- ParseFields(lines) :: Parsed(f)
    decreases |lines|
  {
    if lines != [] {
      hide KeyLine, ContLine, Parsed;
      if !KeyLine(lines[0]) {
        ParsedFields(lines[1..]);
      } else {
        var n := ContEnd(lines, 1);
        KeyEndIn(lines[0]);
        ParsedFields(lines[n..]);
        assert Parsed(ParseFields(lines)[0]) by {
          KeyLineField(lines[0], lines[1..n]);
        }
      }
    }
  }

  lemma KeyLineField(line: string, cont: seq<string>)
    requires KeyLine(line) && Free(line, IsNewline) && forall l <- cont :: ContLine(l) && Free(l, IsNewline)
    ensures Parsed(FieldAt(line, cont))
  {
    var k := KeyEnd(line);
    SliceFree(line, 0, k, IsNewline);
    SliceFree(line, k + 1, |line|, IsNewline);
  }

  // ---- Indenting and dedenting --------------------------------------------------------------------------

  function Indented(lines: seq<string>): seq<string> {
    seq(|lines|, i requires 0 <= i < |lines| => if BlankLine(lines[i]) then lines[i] else "  " + lines[i])
  }

  function Solid(lines: seq<string>): seq<string> {
    if lines == [] then []
    else (if BlankLine(lines[0]) then [] else [lines[0]]) + Solid(lines[1..])
  }

  /** The smallest number of leading spaces. */
  function MinIndent(lines: seq<string>): nat
    requires lines != []
  {
    var n := FirstOf(lines[0], NotSpace);
    if |lines| == 1 then n
    else
      var m := MinIndent(lines[1..]);
      if n <= m then n else m
  }

  function Dedent(lines: seq<string>): seq<string> {
    var solid := Solid(lines);
    if solid == [] then []
    else
      var n := MinIndent(solid);
      seq(|lines|, i requires 0 <= i < |lines| => if |lines[i]| >= n then lines[i][n..] else lines[i])
  }

  /** A blank line loses up to two characters on the way in and out; every other line comes back. */
  function Loose(line: string): string {
    if BlankLine(line) && |line| >= 2 then line[2..] else line
  }

  function LooseLines(lines: seq<string>): seq<string> {
    seq(|lines|, i requires 0 <= i < |lines| => Loose(lines[i]))
  }

  lemma BlankIff(line: string)
    ensures BlankLine(line) <==> Free(line, NotPySpace)
  {
    hide TrimStart, TrimEnd, PySpace;
    if BlankLine(line) {
      NotBlank(line);
    } else if Free(line, NotPySpace) {
      AllSpace(line);
    }
  }

  predicate NotPySpace(c: char) { !PySpace(c) }

  lemma {:induction false} AllSpace(line: string)
    requires Free(line, NotPySpace)
    ensures Trim(line, PySpace) == ""
  {
    hide PySpace;
    if line != "" {
      AllSpace(line[1..]);
    }
  }

  lemma {:induction false} NotBlank(line: string)
    ensures Trim(line, PySpace) == "" ==> Free(line, NotPySpace)
  {
    hide PySpace;
    if line != "" {
      if PySpace(line[0]) {
        NotBlank(line[1..]);
        assert line == [line[0]] + line[1..];
      } else {
        BlankEnd(line);
      }
    }
  }

  lemma BlankPadded(line: string)
    ensures BlankLine("  " + line) <==> BlankLine(line)
  {
    BlankIff(line);
    BlankIff("  " + line);
    FreeConcat("  ", line, NotPySpace);
    hide BlankLine;
    assert Free("  ", NotPySpace);
  }

  lemma BlankContinues(line: string)
    requires BlankLine(line)
    ensures ContLine(line)
  {
    BlankIff(line);
  }

  lemma HeaderIsSolid(key: string, rest: string)
    requires Key(key)
    ensures !BlankLine(key + ":" + rest) && !ContLine(key + ":" + rest)
  {
    hide BlankLine, KeyLine;
    HeaderIsKeyLine(key, rest);
    if BlankLine(key + ":" + rest) {
      BlankContinues(key + ":" + rest);
    }
  }

  lemma {:induction false} SolidIs(lines: seq<string>)
    ensures forall l :: l in Solid(lines) <==> l in lines && !BlankLine(l)
  {
    hide BlankLine;
    if lines != [] {
      SolidIs(lines[1..]);
      assert lines == [lines[0]] + lines[1..];
    }
  }

  lemma {:induction false} MinIndentIs(lines: seq<string>, n: nat)
    requires exists l <- lines :: FirstOf(l, NotSpace) == n
    requires forall l <- lines :: FirstOf(l, NotSpace) >= n
    ensures MinIndent(lines) == n
  {
    if |lines| > 1 {
      var rest := lines[1..];
      assert lines == [lines[0]] + rest;
      if exists l <- rest :: FirstOf(l, NotSpace) == n {
        MinIndentIs(rest, n);
      } else {
        MinIndentAtLeast(rest, n);
      }
    }
  }

  lemma {:induction false} MinIndentAtLeast(lines: seq<string>, n: nat)
    requires lines != [] && forall l <- lines :: FirstOf(l, NotSpace) >= n
    ensures MinIndent(lines) >= n
  {
    if |lines| > 1 {
      MinIndentAtLeast(lines[1..], n);
    }
  }

  lemma PaddedIndent(line: string)
    ensures FirstOf("  " + line, NotSpace) == 2 + FirstOf(line, NotSpace)
  {
    var t := [' '] + line;
    FirstOfCons(' ', line, NotSpace);
    FirstOfCons(' ', t, NotSpace);
    assert "  " + line == [' '] + t;
  }

  lemma SolidPadded(lines: seq<string>, l: string)
    requires l in Solid(Indented(lines))
    ensures FirstOf(l, NotSpace) >= 2
  {
    hide BlankLine;
    var padded := Indented(lines);
    SolidIs(padded);
    var i :| 0 <= i < |padded| && padded[i] == l;
    PaddedIndent(lines[i]);
  }

  lemma IndentIsTwo(lines: seq<string>, first: string)
    requires first in lines && !BlankLine(first) && first[0] != ' '
    ensures Solid(Indented(lines)) != [] && MinIndent(Solid(Indented(lines))) == 2
  {
    hide BlankLine, Solid, FirstOf;
    var padded := Indented(lines);
    var i :| 0 <= i < |lines| && lines[i] == first;
    SolidIs(padded);
    BlankPadded(first);
    PaddedIndent(first);
    FirstOfIs(first, NotSpace, 0);
    assert padded[i] == "  " + first && padded[i] in Solid(padded);
    forall l | l in Solid(padded)
      ensures FirstOf(l, NotSpace) >= 2
    {
      SolidPadded(lines, l);
    }
    MinIndentIs(Solid(padded), 2);
  }

  /** Dedenting what was indented gives the lines back, blank ones apart. */
  lemma DedentOfIndented(lines: seq<string>, first: string)
    requires first in lines && !BlankLine(first) && first[0] != ' '
    ensures Dedent(Indented(lines)) == LooseLines(lines)
  {
    IndentIsTwo(lines, first);
    hide BlankLine, Solid, MinIndent;
    var padded := Indented(lines);
    forall k | 0 <= k < |lines|
      ensures (if |padded[k]| >= 2 then padded[k][2..] else padded[k]) == Loose(lines[k])
    {
      assert ("  " + lines[k])[2..] == lines[k];
    }
  }

  // ---- Migrating --------------------------------------------------------------------------------------

  predicate StringKey(key: string) {
    key == "version" || key == "when_to_use" || key == "argument_hint" || key == "status" || key == "homepage"
  }

  function Escaped(s: string): string {
    if s == "" then ""
    else (if s[0] == '"' then "\\\"" else [s[0]]) + Escaped(s[1..])
  }

  predicate NeedsQuotes(key: string, rest: string) {
    var value := Trim(rest, PySpace);
    StringKey(key) && value != "" && value[0] != '[' && value[0] != '"' && value[0] != '\''
  }

  function MaybeQuote(key: string, rest: string): string {
    if NeedsQuotes(key, rest) then " \"" + Escaped(Trim(rest, PySpace)) + "\"" else rest
  }

  function Quoted(f: Field): Field {
    f.(rest := MaybeQuote(f.key, f.rest))
  }

  predicate Standard(key: string) {
    key == "name" || key == "description" || key == "metadata"
  }

  function Moves(fields: seq<Field>): seq<Field> {
    if fields == [] then []
    else (if Standard(fields[0].key) then [] else [fields[0]]) + Moves(fields[1..])
  }

  function LastWith(fields: seq<Field>, key: string): Option<Field> {
    if fields == [] then None
    else if fields[|fields| - 1].key == key then Some(fields[|fields| - 1])
    else LastWith(fields[..|fields| - 1], key)
  }

  predicate HasField(fields: seq<Field>, key: string) {
    exists i | 0 <= i < |fields| :: fields[i].key == key
  }

  function Replaced(fields: seq<Field>, f: Field): seq<Field> {
    seq(|fields|, i requires 0 <= i < |fields| => if fields[i].key == f.key then f else fields[i])
  }

  function Put(fields: seq<Field>, f: Field): seq<Field> {
    if HasField(fields, f.key) then Replaced(fields, f) else fields + [f]
  }

  /** The sub-fields, with the moved fields put over them one by one. */
  function Merge(sub: seq<Field>, moves: seq<Field>): seq<Field> {
    if moves == [] then sub
    else Put(Merge(sub, moves[..|moves| - 1]), Quoted(moves[|moves| - 1]))
  }

  function SubFields(fields: seq<Field>): seq<Field> {
    match LastWith(fields, "metadata")
    case None => []
    case Some(f) => ParseFields(Split(Join(Dedent(f.cont), "\n")))
  }

  function Opt(f: Option<Field>): seq<Field> {
    if f.Some? then [f.value] else []
  }

  /** The fields that stay at the top level, in the order they are written. */
  function Head(fields: seq<Field>): seq<Field> {
    Opt(LastWith(fields, "name")) + Opt(LastWith(fields, "description"))
  }

  function Merged(fields: seq<Field>): seq<Field> {
    Merge(SubFields(fields), Moves(fields))
  }

  function OutLines(fields: seq<Field>): seq<string> {
    Print(Head(fields)) + ["metadata:"] + Indented(Print(Merged(fields)))
  }

  /** The new front matter, and whether it changed. */
  function Migrate(text: string): (string, bool) {
    var fields := ParseFields(Split(text));
    if Moves(fields) == [] then (text, false) else (Join(OutLines(fields), "\n"), true)
  }

  // ---- Merging ----------------------------------------------------------------------------------------

  /** The fields whose key is not among the moves, in order. */
  function Unmoved(fields: seq<Field>, moves: seq<Field>): seq<Field> {
    if fields == [] then []
    else (if HasField(moves, fields[0].key) then [] else [fields[0]]) + Unmoved(fields[1..], moves)
  }

  lemma {:induction false} LastWithIs(fields: seq<Field>, key: string)
    ensures LastWith(fields, key).Some? <==> HasField(fields, key)
    ensures LastWith(fields, key).Some? ==>
            LastWith(fields, key).value in fields && LastWith(fields, key).value.key == key
  {
    if fields != [] {
      var n := |fields| - 1;
      LastWithIs(fields[..n], key);
      assert forall i | 0 <= i < n :: fields[..n][i] == fields[i];
    }
  }

  lemma PutKeys(fields: seq<Field>, f: Field, key: string)
    ensures HasField(Put(fields, f), key) <==> HasField(fields, key) || f.key == key
  {
    var r := Put(fields, f);
    if HasField(fields, f.key) {
      assert forall i | 0 <= i < |fields| :: r[i].key == fields[i].key;
    } else {
      assert forall i | 0 <= i < |fields| :: r[i] == fields[i];
      assert r[|fields|] == f;
    }
  }

  lemma HasFieldSplit(fields: seq<Field>, key: string)
    requires fields != []
    ensures HasField(fields, key) <==> HasField(fields[..|fields| - 1], key) || fields[|fields| - 1].key == key
  {
    var n := |fields| - 1;
    assert forall i | 0 <= i < n :: fields[..n][i] == fields[i];
  }

  /** The last field moved with this key, quoted, or a sub-field. */
  ghost predicate FromLast(f: Field, sub: seq<Field>, moves: seq<Field>) {
    match LastWith(moves, f.key)
    case Some(g) => f == Quoted(g)
    case None => f in sub
  }

  /** The merged list has the keys of both; every field of a moved key is the last one moved, quoted; and the
      other sub-fields stay as they are, in order. */
  lemma {:induction false} MergeIs(sub: seq<Field>, moves: seq<Field>)
    ensures forall k :: HasField(Merge(sub, moves), k) <==> HasField(sub, k) || HasField(moves, k)
    ensures forall f <- Merge(sub, moves) :: FromLast(f, sub, moves)
    ensures Unmoved(Merge(sub, moves), moves) == Unmoved(sub, moves)
  {
    hide Quoted;
    if moves == [] {
      assert forall k :: !HasField(moves, k);
    } else {
      var n := |moves| - 1;
      var rest, last := moves[..n], moves[n];
      MergeIs(sub, rest);
      var before := Merge(sub, rest);
      var f := Quoted(last);
      QuotedKey(last);
      MergeKeys(sub, moves);
      MergeLast(sub, moves, rest);
      UnmovedMore(sub, moves);
      UnmovedMore(before, moves);
      PutUnmoved(before, f, moves);
    }
  }

  lemma QuotedKey(f: Field)
    ensures Quoted(f).key == f.key && Quoted(f).cont == f.cont
  {
  }

  lemma MergeKeys(sub: seq<Field>, moves: seq<Field>)
    requires moves != []
    requires forall k :: HasField(Merge(sub, moves[..|moves| - 1]), k) <==>
            HasField(sub, k) || HasField(moves[..|moves| - 1], k)
    ensures forall k :: HasField(Merge(sub, moves), k) <==> HasField(sub, k) || HasField(moves, k)
  {
    hide HasField, Quoted, Put;
    var n := |moves| - 1;
    QuotedKey(moves[n]);
    forall k
      ensures HasField(Merge(sub, moves), k) <==> HasField(sub, k) || HasField(moves, k)
    {
      PutKeys(Merge(sub, moves[..n]), Quoted(moves[n]), k);
      HasFieldSplit(moves, k);
    }
  }

  lemma MergeLast(sub: seq<Field>, moves: seq<Field>, rest: seq<Field>)
    requires moves != [] && rest == moves[..|moves| - 1]
    requires forall f <- Merge(sub, rest) :: FromLast(f, sub, rest)
    ensures forall f <- Merge(sub, moves) :: FromLast(f, sub, moves)
  {
    hide Quoted, Put, FromLast;
    var n := |moves| - 1;
    var before, last := Merge(sub, rest), Quoted(moves[n]);
    forall f | f in Merge(sub, moves)
      ensures FromLast(f, sub, moves)
    {
      PutHolds(before, last, f);
      QuotedKey(moves[n]);
      OneMoreMove(f, sub, moves);
    }
  }

  lemma OneMoreMove(f: Field, sub: seq<Field>, moves: seq<Field>)
    requires moves != []
    requires var last := moves[|moves| - 1];
             if f.key == last.key then f == Quoted(last) else FromLast(f, sub, moves[..|moves| - 1])
    ensures FromLast(f, sub, moves)
  {
    hide Quoted;
  }

  lemma PutHolds(fields: seq<Field>, f: Field, g: Field)
    requires g in Put(fields, f)
    ensures if g.key == f.key then g == f else g in fields
  {
  }

  lemma {:induction false} UnmovedMore(fields: seq<Field>, moves: seq<Field>)
    requires moves != []
    ensures Unmoved(fields, moves) == Unmoved(Unmoved(fields, moves[..|moves| - 1]), moves)
  {
    hide HasField;
    if fields != [] {
      var rest := moves[..|moves| - 1];
      UnmovedMore(fields[1..], moves);
      HasFieldSplit(moves, fields[0].key);
      if !HasField(rest, fields[0].key) {
        var kept := Unmoved(fields[1..], rest);
        calc {
          Unmoved(Unmoved(fields, rest), moves);
          Unmoved([fields[0]] + kept, moves);
          { UnmovedConcat([fields[0]], kept, moves); }
          Unmoved([fields[0]], moves) + Unmoved(kept, moves);
          { UnmovedOne(fields[0], moves); }
          Unmoved(fields, moves);
        }
      } else {
        assert [] + Unmoved(fields[1..], rest) == Unmoved(fields[1..], rest);
      }
    }
  }

  lemma UnmovedOne(f: Field, moves: seq<Field>)
    ensures Unmoved([f], moves) == if HasField(moves, f.key) then [] else [f]
  {
    hide HasField;
    assert [f][1..] == [] && Unmoved([], moves) == [];
  }

  lemma {:induction false} PutUnmoved(fields: seq<Field>, f: Field, moves: seq<Field>)
    requires HasField(moves, f.key)
    ensures Unmoved(Put(fields, f), moves) == Unmoved(fields, moves)
  {
    if HasField(fields, f.key) {
      ReplacedUnmoved(fields, f, moves);
    } else {
      UnmovedConcat(fields, [f], moves);
      UnmovedOne(f, moves);
    }
  }

  lemma {:induction false} ReplacedUnmoved(fields: seq<Field>, f: Field, moves: seq<Field>)
    requires HasField(moves, f.key)
    ensures Unmoved(Replaced(fields, f), moves) == Unmoved(fields, moves)
  {
    hide HasField;
    if fields != [] {
      ReplacedUnmoved(fields[1..], f, moves);
      assert Replaced(fields, f)[1..] == Replaced(fields[1..], f);
    }
  }

  lemma {:induction false} UnmovedConcat(a: seq<Field>, b: seq<Field>, moves: seq<Field>)
    ensures Unmoved(a + b, moves) == Unmoved(a, moves) + Unmoved(b, moves)
  {
    hide HasField;
    if a == [] {
      assert a + b == b;
    } else {
      assert (a + b)[1..] == a[1..] + b;
      UnmovedConcat(a[1..], b, moves);
    }
  }

  // ---- Round trip ---------------------------------------------------------------------------------------

  function LooseField(f: Field): Field {
    f.(cont := LooseLines(f.cont))
  }

  function LooseFields(fields: seq<Field>): seq<Field> {
    seq(|fields|, i requires 0 <= i < |fields| => LooseField(fields[i]))
  }

  lemma LoosePrintField(f: Field)
    requires Key(f.key)
    ensures LooseLines(PrintField(f)) == PrintField(LooseField(f))
  {
    hide BlankLine, ContLine;
    HeaderIsSolid(f.key, f.rest);
    assert LooseLines([Header(f)]) == [Header(f)];
  }

  lemma {:induction false} LoosePrint(fields: seq<Field>)
    requires forall f <- fields :: Parsed(f)
    ensures LooseLines(Print(fields)) == Print(LooseFields(fields))
  {
    if fields != [] {
      hide Loose, PrintField, LooseField;
      assert Parsed(fields[0]);
      LoosePrint(fields[1..]);
      LoosePrintField(fields[0]);
      assert LooseFields(fields)[1..] == LooseFields(fields[1..]);
    }
  }

  lemma LooseParsed(f: Field)
    requires Parsed(f)
    ensures Parsed(LooseField(f))
  {
    forall l | l in LooseLines(f.cont)
      ensures ContLine(l) && Free(l, IsNewline)
    {
      var i :| 0 <= i < |f.cont| && l == Loose(f.cont[i]);
      LooseContinues(f.cont[i]);
    }
  }

  lemma LooseContinues(line: string)
    requires ContLine(line) && Free(line, IsNewline)
    ensures ContLine(Loose(line)) && Free(Loose(line), IsNewline)
  {
    if BlankLine(line) && |line| >= 2 {
      BlankIff(line);
      hide BlankLine;
      assert forall i | 0 <= i < |line| - 2 :: line[2..][i] == line[i + 2];
    }
  }

  lemma {:induction false} EscapedIsOneLine(s: string)
    requires Free(s, IsNewline)
    ensures Free(Escaped(s), IsNewline)
  {
    if s != "" {
      EscapedIsOneLine(s[1..]);
      var first := if s[0] == '"' then "\\\"" else [s[0]];
      assert Free(first, IsNewline);
      FreeConcat(first, Escaped(s[1..]), IsNewline);
    }
  }

  lemma QuotedParsed(f: Field)
    requires Parsed(f)
    ensures Parsed(Quoted(f))
  {
    hide Trim, Escaped, ContLine, StringKey;
    if NeedsQuotes(f.key, f.rest) {
      var value := Trim(f.rest, PySpace);
      TrimFree(f.rest, PySpace, IsNewline);
      EscapedIsOneLine(value);
      assert Free(" \"", IsNewline) && Free("\"", IsNewline);
      FreeConcat(" \"" + Escaped(value), "\"", IsNewline);
      FreeConcat(" \"", Escaped(value), IsNewline);
    }
  }

  lemma {:induction false} MergeParsed(sub: seq<Field>, moves: seq<Field>)
    requires forall f <- sub :: Parsed(f)
    requires forall f <- moves :: Parsed(f)
    ensures forall f <- Merge(sub, moves) :: Parsed(f)
  {
    hide Parsed, Quoted, HasField;
    if moves != [] {
      var n := |moves| - 1;
      MergeParsed(sub, moves[..n]);
      QuotedParsed(moves[n]);
    }
  }

  lemma {:induction false} MovesAre(fields: seq<Field>)
    ensures forall f :: f in Moves(fields) <==> f in fields && !Standard(f.key)
  {
    if fields != [] {
      MovesAre(fields[1..]);
      assert fields == [fields[0]] + fields[1..];
    }
  }

  lemma MergedParsed(fields: seq<Field>)
    requires forall f <- fields :: Parsed(f)
    ensures forall f <- Merged(fields) :: Parsed(f)
  {
    hide Parsed;
    MovesAre(fields);
    match LastWith(fields, "metadata") {
      case None =>
      case Some(f) =>
        var lines := Split(Join(Dedent(f.cont), "\n"));
        SplitLinesFree(Join(Dedent(f.cont), "\n"));
        ParsedFields(lines);
    }
    MergeParsed(SubFields(fields), Moves(fields));
  }

  lemma {:induction false} PrintLines(fields: seq<Field>)
    requires forall f <- fields :: Parsed(f)
    ensures forall l <- Print(fields) :: Free(l, IsNewline) && (BlankLine(l) ==> ContLine(l))
  {
    if fields != [] {
      assert Parsed(fields[0]);
      PrintLines(fields[1..]);
      hide BlankLine, ContLine, Print;
      HeaderIsSolid(fields[0].key, fields[0].rest);
      assert Free(":", IsNewline);
      FreeConcat(fields[0].key + ":", fields[0].rest, IsNewline);
      FreeConcat(fields[0].key, ":", IsNewline);
    }
  }

  lemma IndentedLines(lines: seq<string>)
    requires forall l <- lines :: Free(l, IsNewline) && (BlankLine(l) ==> ContLine(l))
    ensures forall l <- Indented(lines) :: Free(l, IsNewline) && ContLine(l)
  {
    hide BlankLine;
    forall l | l in Indented(lines)
      ensures Free(l, IsNewline) && ContLine(l)
    {
      var i :| 0 <= i < |lines| && Indented(lines)[i] == l;
      assert lines[i] in lines && Free("  ", IsNewline);
      FreeConcat("  ", lines[i], IsNewline);
    }
  }

  lemma {:induction false} PrintConcat(a: seq<Field>, b: seq<Field>)
    ensures Print(a + b) == Print(a) + Print(b)
  {
    hide PrintField;
    if a == [] {
      assert a + b == b;
    } else {
      assert (a + b)[1..] == a[1..] + b;
      PrintConcat(a[1..], b);
    }
  }

  /** The field written last. */
  function MetadataField(fields: seq<Field>): Field {
    Field("metadata", "", Indented(Print(Merged(fields))))
  }

  lemma MetadataParsed(fields: seq<Field>)
    requires forall f <- fields :: Parsed(f)
    ensures Parsed(MetadataField(fields))
  {
    hide ContLine, Indented, Print;
    MergedParsed(fields);
    PrintLines(Merged(fields));
    IndentedLines(Print(Merged(fields)));
    assert Key("metadata") && Free("metadata", IsNewline) && Free("", IsNewline);
  }

  lemma HeadParsed(fields: seq<Field>)
    requires forall f <- fields :: Parsed(f)
    ensures forall f <- Head(fields) :: Parsed(f) && Standard(f.key)
  {
    hide Parsed;
    LastWithIs(fields, "name");
    LastWithIs(fields, "description");
  }

  lemma OutIsPrinted(fields: seq<Field>)
    ensures OutLines(fields) == Print(Head(fields) + [MetadataField(fields)])
  {
    hide Indented, Merged, Head;
    PrintConcat(Head(fields), [MetadataField(fields)]);
    var m := MetadataField(fields);
    assert Header(m) == "metadata:" by {
      assert "metadata" + ":" + "" == "metadata:";
    }
    assert [m][1..] == [];
    assert Print([m]) == PrintField(m) + Print([]);
  }

  /** What the migrator writes parses to the fields that stay and one metadata field. */
  lemma OutParses(fields: seq<Field>)
    requires forall f <- fields :: Parsed(f)
    ensures ParseFields(Split(Join(OutLines(fields), "\n"))) == Head(fields) + [MetadataField(fields)]
  {
    hide Parsed, Print, MetadataField, ParseFields, OutLines;
    hide Head;
    var all := Head(fields) + [MetadataField(fields)];
    HeadParsed(fields);
    MetadataParsed(fields);
    OutIsPrinted(fields);
    PrintLines(all);
    OutIsNotEmpty(fields);
    SplitOfJoin(OutLines(fields));
    ParseOfPrint(all);
  }

  lemma OutIsNotEmpty(fields: seq<Field>)
    ensures OutLines(fields) != []
  {
  }

  /** The metadata block dedents and parses to the merged fields, blank continuation lines apart. */
  lemma MetadataParses(fields: seq<Field>)
    requires forall f <- fields :: Parsed(f)
    requires Merged(fields) != []
    ensures ParseFields(Split(Join(Dedent(MetadataField(fields).cont), "\n"))) == LooseFields(Merged(fields))
  {
    hide Dedent, Indented, LooseLines, LooseField, ParseFields, BlankLine, Merged, Parsed;
    var merged := Merged(fields);
    var lines := Print(merged);
    MergedParsed(fields);
    FirstHeader(merged);
    DedentOfIndented(lines, Header(merged[0]));
    LoosePrint(merged);
    var loose := LooseFields(merged);
    forall f | f in loose
      ensures Parsed(f)
    {
      var i :| 0 <= i < |merged| && f == LooseField(merged[i]);
      LooseParsed(merged[i]);
    }
    PrintLines(loose);
    assert Print(loose) != [] by {
      assert loose[0] == LooseField(merged[0]);
    }
    SplitOfJoin(Print(loose));
    ParseOfPrint(loose);
  }

  lemma FirstHeader(fields: seq<Field>)
    requires fields != [] && Parsed(fields[0])
    ensures Header(fields[0]) in Print(fields) && !BlankLine(Header(fields[0])) && Header(fields[0])[0] != ' '
  {
    hide BlankLine;
    HeaderIsSolid(fields[0].key, fields[0].rest);
    assert PrintField(fields[0])[0] == Header(fields[0]);
  }

  lemma MovedIsMerged(fields: seq<Field>)
    requires Moves(fields) != []
    ensures Merged(fields) != []
  {
    hide HasField, Quoted, SubFields;
    var moves := Moves(fields);
    assert Merged(fields) == Put(Merge(SubFields(fields), moves[..|moves| - 1]), Quoted(moves[|moves| - 1]));
    PutSome(Merge(SubFields(fields), moves[..|moves| - 1]), Quoted(moves[|moves| - 1]));
  }

  lemma PutSome(fields: seq<Field>, f: Field)
    ensures Put(fields, f) != []
  {
  }

  /** When anything is moved, the new front matter parses to the name and description as they were and a
      metadata field, which parses to the merged fields up to its blank continuation lines. */
  lemma MigrateRoundTrip(text: string)
    requires Moves(ParseFields(Split(text))) != []
    ensures var fields := ParseFields(Split(text));
            var out := ParseFields(Split(Migrate(text).0));
            && Migrate(text).1
            && out == Head(fields) + [MetadataField(fields)]
            && SubFields(out) == LooseFields(Merged(fields))
  {
    hide Head, MetadataField, OutLines, LooseFields, Merged, Dedent, Parsed, ParseFields;
    var fields := ParseFields(Split(text));
    SplitLinesFree(text);
    ParsedFields(Split(text));
    OutParses(fields);
    MovedIsMerged(fields);
    MetadataParses(fields);
    MetadataIsLast(fields);
  }

  lemma MetadataIsLast(fields: seq<Field>)
    ensures LastWith(Head(fields) + [MetadataField(fields)], "metadata") == Some(MetadataField(fields))
  {
    hide Head, Merged, Indented, Print;
  }

  /** `f` is the field of its key that comes last. */
  ghost predicate IsLast(fields: seq<Field>, f: Field) {
    exists i | 0 <= i < |fields| :: fields[i] == f && forall j | i < j < |fields| :: fields[j].key != f.key
  }

  lemma {:induction false} LastIff(fields: seq<Field>, f: Field)
    ensures LastWith(fields, f.key) == Some(f) <==> IsLast(fields, f)
  {
    if fields != [] {
      var n := |fields| - 1;
      LastIff(fields[..n], f);
      if fields[n].key == f.key {
        LastWins(fields, f);
      } else {
        LastBefore(fields, f);
      }
    }
  }

  lemma LastWins(fields: seq<Field>, f: Field)
    requires fields != [] && fields[|fields| - 1].key == f.key
    ensures IsLast(fields, f) <==> fields[|fields| - 1] == f
  {
  }

  lemma LastBefore(fields: seq<Field>, f: Field)
    requires fields != [] && fields[|fields| - 1].key != f.key
    ensures IsLast(fields, f) <==> IsLast(fields[..|fields| - 1], f)
  {
    var n := |fields| - 1;
    assert forall i | 0 <= i < n :: fields[..n][i] == fields[i];
    if IsLast(fields, f) {
      var i :| 0 <= i < |fields| && fields[i] == f && forall j | i < j < |fields| :: fields[j].key != f.key;
      assert fields[..n][i] == f;
    }
  }

  predicate StaysOnTop(key: string) { key == "name" || key == "description" }

  lemma HeadIs(fields: seq<Field>)
    ensures forall f :: f in Head(fields) <==> StaysOnTop(f.key) && IsLast(fields, f)
    ensures |Head(fields)| <= 2
    ensures |Head(fields)| == 2 ==> Head(fields)[0].key == "name" && Head(fields)[1].key == "description"
  {
    hide IsLast;
    LastWithIs(fields, "name");
    LastWithIs(fields, "description");
    hide LastWith, HasField;
    forall f: Field
      ensures f in Head(fields) <==> StaysOnTop(f.key) && IsLast(fields, f)
    {
      LastIff(fields, f);
    }
  }

  lemma {:induction false} MovesKeys(fields: seq<Field>, key: string)
    ensures HasField(Moves(fields), key)
            <==> HasField(fields, key) && key != "name" && key != "description" && key != "metadata"
  {
    if fields != [] {
      MovesKeys(fields[1..], key);
      HasFieldOfFirst(fields, key);
      var first := if Standard(fields[0].key) then [] else [fields[0]];
      HasFieldConcat(first, Moves(fields[1..]), key);
      hide HasField;
      HasFieldOne(fields[0], key);
    }
  }

  lemma HasFieldOfFirst(fields: seq<Field>, key: string)
    requires fields != []
    ensures HasField(fields, key) <==> fields[0].key == key || HasField(fields[1..], key)
  {
    HasFieldConcat([fields[0]], fields[1..], key);
    assert fields == [fields[0]] + fields[1..];
    HasFieldOne(fields[0], key);
  }

  lemma HasFieldOne(f: Field, key: string)
    ensures HasField([f], key) <==> f.key == key
    ensures !HasField([], key)
  {
    assert [f][0] == f;
  }

  lemma HasFieldConcat(a: seq<Field>, b: seq<Field>, key: string)
    ensures HasField(a + b, key) <==> HasField(a, key) || HasField(b, key)
  {
    assert forall i | 0 <= i < |a| :: (a + b)[i] == a[i];
    assert forall i | 0 <= i < |b| :: (a + b)[|a| + i] == b[i];
  }

  lemma LooseKeys(fields: seq<Field>, key: string)
    ensures HasField(LooseFields(fields), key) <==> HasField(fields, key)
  {
    assert forall i | 0 <= i < |fields| :: LooseFields(fields)[i].key == fields[i].key;
  }

  /** What is where after a migration: the last name and the last description, in this order and as they
      were, then one metadata field; every other key of the source is under it, next to those that were. */
  lemma MigratedParts(text: string)
    requires Moves(ParseFields(Split(text))) != []
    ensures var fields, out := ParseFields(Split(text)), ParseFields(Split(Migrate(text).0));
            && 1 <= |out| <= 3 && out[|out| - 1].key == "metadata"
            && (forall f :: f in out[..|out| - 1] <==> StaysOnTop(f.key) && IsLast(fields, f))
            && (|out| == 3 ==> out[0].key == "name" && out[1].key == "description")
            && (forall key :: HasField(SubFields(out), key) <==>
                  || HasField(SubFields(fields), key)
                  || (HasField(fields, key) && key != "name" && key != "description" && key != "metadata"))
  {
    hide *;
    var fields := ParseFields(Split(text));
    MigrateRoundTrip(text);
    HeadIs(fields);
    MetadataKey(fields);
    HeadFirst(Head(fields), MetadataField(fields));
    forall key
      ensures HasField(LooseFields(Merged(fields)), key) <==>
                || HasField(SubFields(fields), key)
                || (HasField(fields, key) && key != "name" && key != "description" && key != "metadata")
    {
      MergedKeys(fields, key);
    }
  }

  lemma MetadataKey(fields: seq<Field>)
    ensures MetadataField(fields).key == "metadata"
  {
    hide Merged, Print, Indented;
  }

  lemma HeadFirst(head: seq<Field>, last: Field)
    ensures var out := head + [last];
            |out| == |head| + 1 && out[..|out| - 1] == head && out[|out| - 1] == last
            && forall i | 0 <= i < |head| :: out[i] == head[i]
  {
  }

  lemma MergedKeys(fields: seq<Field>, key: string)
    ensures HasField(LooseFields(Merged(fields)), key) <==>
              || HasField(SubFields(fields), key)
              || (HasField(fields, key) && key != "name" && key != "description" && key != "metadata")
  {
    hide SubFields, Moves, Merge, HasField, LooseFields;
    MergeIs(SubFields(fields), Moves(fields));
    LooseKeys(Merged(fields), key);
    MovesKeys(fields, key);
  }

  /** Migrating a second time changes nothing. */
  lemma MigrateTwice(text: string)
    ensures Migrate(Migrate(text).0) == (Migrate(text).0, false)
  {
    hide Head, MetadataField, OutLines, Dedent, Parsed, ParseFields, Standard;
    var fields := ParseFields(Split(text));
    if Moves(fields) != [] {
      SplitLinesFree(text);
      ParsedFields(Split(text));
      OutParses(fields);
      HeadParsed(fields);
      NothingToMove(fields);
    }
  }

  lemma NothingToMove(fields: seq<Field>)
    requires forall f <- Head(fields) :: Standard(f.key)
    ensures Moves(Head(fields) + [MetadataField(fields)]) == []
  {
    hide Head, Merged, Indented, Print;
    var all := Head(fields) + [MetadataField(fields)];
    assert forall f <- all :: Standard(f.key);
    AllStay(all);
  }

  lemma {:induction false} AllStay(fields: seq<Field>)
    requires forall f <- fields :: Standard(f.key)
    ensures Moves(fields) == []
  {
    hide Standard;
    if fields != [] {
      AllStay(fields[1..]);
    }
  }

  // ---- The migrator -----------------------------------------------------------------------------------

  method DedentBlock(lines: seq<string>) returns (out: seq<string>)
    ensures out == Dedent(lines)
  {
    var solid := Solid(lines);
    if solid == [] {
      return [];
    }
    var n := MinIndent(solid);
    out := seq(|lines|, i requires 0 <= i < |lines| => if |lines[i]| >= n then lines[i][n..] else lines[i]);
  }

  /** One pass over the fields: what stays, the sub-fields of `metadata`, and what moves. */
  method SortFields(fields: seq<Field>)
    returns (name: Option<Field>, description: Option<Field>, sub: seq<Field>, moves: seq<Field>)
    ensures name == LastWith(fields, "name") && description == LastWith(fields, "description")
    ensures sub == SubFields(fields) && moves == Moves(fields)
  {
    hide ParseFields, Dedent, Standard;
    name, description, sub, moves := None, None, [], [];
    var i := 0;
    while i < |fields|
      invariant 0 <= i <= |fields|
      invariant name == LastWith(fields[..i], "name") && description == LastWith(fields[..i], "description")
      invariant sub == SubFields(fields[..i]) && moves == Moves(fields[..i])
    {
      var f := fields[i];
      LastWithMore(fields, i, "name");
      LastWithMore(fields, i, "description");
      LastWithMore(fields, i, "metadata");
      MovesMore(fields, i);
      NamesDiffer();
      if f.key == "name" {
        name := Some(f);
      } else if f.key == "description" {
        description := Some(f);
      } else if f.key == "metadata" {
        var block := DedentBlock(f.cont);
        sub := Parse(Join(block, "\n"));
      } else {
        moves := moves + [f];
      }
      i := i + 1;
    }
    assert fields[..i] == fields;
  }

  method MergeFields(sub: seq<Field>, moves: seq<Field>) returns (merged: seq<Field>)
    ensures merged == Merge(sub, moves)
  {
    hide Put, Quoted;
    merged := sub;
    var i := 0;
    while i < |moves|
      invariant 0 <= i <= |moves| && merged == Merge(sub, moves[..i])
    {
      assert moves[..i + 1][..i] == moves[..i];
      merged := Put(merged, Quoted(moves[i]));
      i := i + 1;
    }
    assert moves[..i] == moves;
  }

  method MetadataLines(lines: seq<string>, merged: seq<Field>) returns (out: seq<string>)
    ensures out == lines + Indented(Print(merged))
  {
    hide Indented, PrintField, Print;
    out := lines;
    var i := 0;
    NoFieldNoLine();
    while i < |merged|
      invariant 0 <= i <= |merged| && out == lines + Indented(Print(merged[..i]))
    {
      IndentedMore(merged, i);
      out := out + Indented(PrintField(merged[i]));
      i := i + 1;
    }
    assert merged[..i] == merged;
  }

  lemma NoFieldNoLine()
    ensures Indented(Print([])) == []
  {
  }

  /** The new front matter, and whether it changed. */
  method MigrateFrontMatter(text: string) returns (out: string, changed: bool)
    ensures (out, changed) == Migrate(text)
  {
    hide ParseFields, Indented, SubFields, Moves, Merge, LastWith, Print;
    var fields := Parse(text);
    var name, description, sub, moves := SortFields(fields);
    if moves == [] {
      return text, false;
    }
    var merged := MergeFields(sub, moves);
    var lines := Print(Opt(name) + Opt(description));
    lines := MetadataLines(lines + ["metadata:"], merged);
    return Join(lines, "\n"), true;
  }

  lemma LastWithMore(fields: seq<Field>, i: nat, key: string)
    requires i < |fields|
    ensures LastWith(fields[..i + 1], key) == if fields[i].key == key then Some(fields[i])
            else LastWith(fields[..i], key)
  {
    assert fields[..i + 1][..i] == fields[..i];
  }

  lemma NamesDiffer()
    ensures "name" != "description" && "name" != "metadata" && "description" != "metadata"
    ensures forall s :: Standard(s) <==> s == "name" || s == "description" || s == "metadata"
  {
    assert |"name"| != |"description"| && |"name"| != |"metadata"| && |"description"| != |"metadata"|;
  }

  lemma {:induction false} MovesConcat(a: seq<Field>, b: seq<Field>)
    ensures Moves(a + b) == Moves(a) + Moves(b)
  {
    hide Standard;
    if a == [] {
      assert a + b == b;
    } else {
      assert (a + b)[1..] == a[1..] + b;
      MovesConcat(a[1..], b);
    }
  }

  lemma MovesMore(fields: seq<Field>, i: nat)
    requires i < |fields|
    ensures Moves(fields[..i + 1]) == Moves(fields[..i]) + if Standard(fields[i].key) then [] else [fields[i]]
  {
    hide Standard;
    assert fields[..i + 1] == fields[..i] + [fields[i]];
    MovesConcat(fields[..i], [fields[i]]);
    assert [fields[i]][1..] == [] && Moves([]) == [];
  }

  lemma IndentedConcat(a: seq<string>, b: seq<string>)
    ensures Indented(a + b) == Indented(a) + Indented(b)
  {
    hide BlankLine;
  }

  lemma IndentedMore(fields: seq<Field>, i: nat)
    requires i < |fields|
    ensures Indented(Print(fields[..i + 1])) == Indented(Print(fields[..i])) + Indented(PrintField(fields[i]))
  {
    hide Indented, PrintField;
    assert fields[..i + 1] == fields[..i] + [fields[i]];
    PrintConcat(fields[..i], [fields[i]]);
    assert [fields[i]][1..] == [] && Print([]) == [];
    assert Print([fields[i]]) == PrintField(fields[i]);
    IndentedConcat(Print(fields[..i]), PrintField(fields[i]));
  }
}
