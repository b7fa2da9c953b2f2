/** The daemon's own reading of front matter (src/str_utils.rs), and its agreement with the migrator that
    wrote it. */
module YamlReader {
  import opened Newlines
  import opened SkillFrontMatter
  import opened Text

  // ---- Strings and lists ------------------------------------------------------------------------------

  /** `Panicked` is an index out of range on a lone quote, or inside a character. */
  datatype Reading = Panicked | Missing | Found(value: string)

  function Bare(s: string): string {
    Trim(s, RustSpace)
  }

  predicate Opens(line: string, key: string) {
    key + ":" <= Bare(line)
  }

  /** What follows the key on a line that opens with it. */
  function ValueOn(line: string, key: string): string
    requires Opens(line, key)
  {
    Bare(Bare(line)[|key| + 1..])
  }

  predicate InQuotes(v: string) {
    v != "" && ((v[0] == '"' && v[|v| - 1] == '"') || (v[0] == '\'' && v[|v| - 1] == '\''))
  }

  /** Without its quotes; `None` is a panic. */
  function Unquoted(v: string): Option<string> {
    if !InQuotes(v) then Some(v) else if |v| < 2 then None else Some(v[1..|v| - 1])
  }

  function ReadingOf(v: string): Reading {
    match Unquoted(v)
    case None => Panicked
    case Some(s) => Found(s)
  }

  function ReadString(lines: seq<string>, key: string): Reading {
    if lines == [] then Missing
    else if Opens(lines[0], key) then ReadingOf(ValueOn(lines[0], key))
    else ReadString(lines[1..], key)
  }

  predicate IsItem(t: string) {
    "- " <= t
  }

  /** The items of a list over several lines; `None` is a panic. */
  function Items(lines: seq<string>): Option<seq<string>> {
    if lines == [] then Some([])
    else
      var t := Bare(lines[0]);
      if IsItem(t) then
        match (Unquoted(Bare(t[2..])), Items(lines[1..]))
        case (Some(item), Some(rest)) => Some([item] + rest)
        case _ => None
      else if t == "" || t[0] == '#' then Items(lines[1..])
      else Some([])
  }

  predicate IsBracket(c: char) { c == '[' || c == ']' }

  predicate IsComma(c: char) { c == ',' }

  predicate IsQuoteMark(c: char) { c == '"' || c == '\'' }

  /** The non-empty items between commas. */
  function CommaItems(s: string): seq<string>
    decreases |s|
  {
    var n := FirstOf(s, IsComma);
    var item := Trim(Bare(s[..n]), IsQuoteMark);
    (if item == "" then [] else [item]) + (if n == |s| then [] else CommaItems(s[n + 1..]))
  }

  /** A piece between commas is an item in white space and then in quotes of either kind. */
  ghost predicate Wraps(piece: string, item: string) {
    exists x :: Stripped(piece, x, RustSpace) && Stripped(x, item, IsQuoteMark)
  }

  function NotEmpty(items: seq<string>): seq<string> {
    if items == [] then [] else (if items[0] == "" then [] else [items[0]]) + NotEmpty(items[1..])
  }

  lemma CommaHead(piece: string, rest: string)
    requires Free(piece, IsComma)
    ensures var s := piece + "," + rest;
            FirstOf(s, IsComma) == |piece| && s[..|piece|] == piece && s[|piece| + 1..] == rest
    ensures FirstOf(piece, IsComma) == |piece| && piece[..|piece|] == piece
  {
    var s := piece + "," + rest;
    assert s[..|piece|] == piece;
    FirstOfIs(s, IsComma, |piece|);
    FirstOfIs(piece, IsComma, |piece|);
  }

  lemma WrapsIs(piece: string, item: string)
    requires Wraps(piece, item)
    ensures Trim(Bare(piece), IsQuoteMark) == item
  {
    hide Trim, Stripped;
    var x :| Stripped(piece, x, RustSpace) && Stripped(x, item, IsQuoteMark);
    StrippedIff(piece, x, RustSpace);
    StrippedIff(x, item, IsQuoteMark);
  }

  /** The items between commas are the wrapped ones that are not empty, in order. */
  lemma {:induction false} CommaItemsOfJoined(pieces: seq<string>, items: seq<string>)
    requires pieces != [] && |pieces| == |items|
    requires forall i | 0 <= i < |pieces| :: Free(pieces[i], IsComma) && Wraps(pieces[i], items[i])
    ensures CommaItems(Join(pieces, ",")) == NotEmpty(items)
  {
    hide Free, Wraps, Trim, Bare;
    WrapsIs(pieces[0], items[0]);
    if |pieces| == 1 {
      CommaHead(pieces[0], "");
      assert items[1..] == [];
    } else {
      CommaHead(pieces[0], Join(pieces[1..], ","));
      CommaItemsOfJoined(pieces[1..], items[1..]);
    }
  }

  function ReadList(lines: seq<string>, key: string): Option<seq<string>> {
    if lines == [] then Some([])
    else if Opens(lines[0], key) then
      var v := ValueOn(lines[0], key);
      if v == "" then Items(lines[1..])
      else if v[0] == '[' then Some(CommaItems(Trim(v, IsBracket)))
      else ReadList(lines[1..], key)
    else ReadList(lines[1..], key)
  }

  /** A list on one line reads as its items. */
  lemma InlineListReads(key: string, pieces: seq<string>, items: seq<string>, more: seq<string>)
    requires key != "" && !RustSpace(key[0]) && pieces != [] && |pieces| == |items|
    requires forall i | 0 <= i < |pieces| :: Free(pieces[i], IsComma) && Wraps(pieces[i], items[i])
    requires Trimmed(Join(pieces, ","), IsBracket)
    ensures ReadList([key + ": [" + Join(pieces, ",") + "]"] + more, key) == Some(NotEmpty(items))
  {
    hide Wraps, Join, CommaItems, Trimmed;
    var inner := Join(pieces, ",");
    CommaItemsOfJoined(pieces, items);
    InlineValue(key, inner);
    InlineTrimmed(inner);
  }

  lemma InlineValue(key: string, inner: string)
    requires key != "" && !RustSpace(key[0])
    ensures var line := key + ": [" + inner + "]"; Opens(line, key) && ValueOn(line, key) == "[" + inner + "]"
  {
    hide Trim;
    var line := key + ": [" + inner + "]";
    var value := "[" + inner + "]";
    assert RustSpace(' ') && !RustSpace('[') && !RustSpace(']');
    assert line[0] == key[0] && line[|line| - 1] == ']';
    TrimOfTrimmed(line, RustSpace);
    assert line[..|key| + 1] == key + ":";
    assert line[|key| + 1..] == " " + value + "";
    TrimBetween(" ", value, "", RustSpace);
  }

  lemma InlineTrimmed(inner: string)
    requires Trimmed(inner, IsBracket)
    ensures Trim("[" + inner + "]", IsBracket) == inner
  {
    hide Trim;
    if inner == "" {
      assert "[" + inner + "]" == "[]";
      TrimOfBlank("[]", IsBracket);
    } else {
      TrimBetween("[", inner, "]", IsBracket);
    }
  }

  method ExtractString(yaml: string, key: string) returns (r: Reading)
    ensures r == ReadString(TextLines(yaml), key)
  {
    hide Opens, ValueOn, TextLines;
    var lines := TextLines(yaml);
    var i := 0;
    assert lines[0..] == lines;
    while i < |lines|
      invariant 0 <= i <= |lines| && ReadString(lines[i..], key) == ReadString(lines, key)
    {
      assert lines[i..][1..] == lines[i + 1..];
      if Opens(lines[i], key) {
        return ReadingOf(ValueOn(lines[i], key));
      }
      i := i + 1;
    }
    return Missing;
  }

  method ExtractList(yaml: string, key: string) returns (r: Option<seq<string>>)
    ensures r == ReadList(TextLines(yaml), key)
  {
    hide Opens, ValueOn, TextLines, Unquoted, IsItem, Bare;
    var lines := TextLines(yaml);
    var inList := false;
    var items := [];
    var i := 0;
    assert lines[0..] == lines;
    while i < |lines|
      invariant 0 <= i <= |lines|
      invariant !inList ==> items == [] && ReadList(lines[i..], key) == ReadList(lines, key)
      invariant inList ==> ReadList(lines, key) == Prepended(items, Items(lines[i..]))
    {
      assert lines[i..][0] == lines[i] && lines[i..][1..] == lines[i + 1..];
      var t := Bare(lines[i]);
      if inList {
        if IsItem(t) {
          ItemHasMark(t);
          match Unquoted(Bare(t[2..])) {
            case None => return None;
            case Some(item) =>
              PrependOne(items, item, Items(lines[i + 1..]));
              items := items + [item];
          }
        } else if t != "" && t[0] != '#' {
          assert items + [] == items;
          return Some(items);
        }
      } else if Opens(lines[i], key) {
        var v := ValueOn(lines[i], key);
        if v != "" && v[0] == '[' {
          return Some(CommaItems(Trim(v, IsBracket)));
        }
        inList := v == "";
        NothingPrepended(Items(lines[i + 1..]));
      }
      i := i + 1;
    }
    assert lines[i..] == [] && items + [] == items;
    return Some(items);
  }

  function Prepended(items: seq<string>, more: Option<seq<string>>): Option<seq<string>> {
    match more
    case None => None
    case Some(rest) => Some(items + rest)
  }

  lemma PrependOne(items: seq<string>, item: string, more: Option<seq<string>>)
    ensures Prepended(items, Prepended([item], more)) == Prepended(items + [item], more)
  {
    if more.Some? {
      assert items + ([item] + more.value) == items + [item] + more.value;
    }
  }

  lemma NothingPrepended(more: Option<seq<string>>)
    ensures Prepended([], more) == more
  {
    if more.Some? {
      assert [] + more.value == more.value;
    }
  }

  lemma ItemHasMark(t: string)
    requires IsItem(t)
    ensures |t| >= 2
  {
  }

  // ---- Blocks -----------------------------------------------------------------------------------------

  predicate StartsBlank(line: string) {
    line != "" && RustSpace(line[0])
  }

  predicate AtKey(line: string, key: string) {
    !StartsBlank(line) && key + ":" <= TrimEnd(line, RustSpace)
  }

  /** The opener of a block: the key alone on an unindented line. */
  predicate OpensBlock(line: string, key: string) {
    AtKey(line, key) && Bare(TrimEnd(line, RustSpace)[|key| + 1..]) == ""
  }

  predicate NotRustSpace(c: char) { !RustSpace(c) }

  /** The bytes of a character in UTF-8. */
  function Width(c: char): nat {
    if c < '\U{80}' then 1 else if c < '\U{800}' then 2 else if c < '\U{10000}' then 3 else 4
  }

  function Bytes(s: string): nat {
    if s == "" then 0 else Width(s[0]) + Bytes(s[1..])
  }

  /** The bytes of the white space a line starts with. */
  function Indent(line: string): nat {
    Bytes(line[..FirstOf(line, NotRustSpace)])
  }

  /** How many characters take up the first `n` bytes; `None` when these end inside a character. */
  function CutAt(s: string, n: nat): (k: Option<nat>)
    ensures k.Some? ==> k.value <= |s|
  {
    if n == 0 then Some(0)
    else if s == "" || n < Width(s[0]) then None
    else
      match CutAt(s[1..], n - Width(s[0]))
      case None => None
      case Some(k) => Some(k + 1)
  }

  /** The indented lines, each without as many bytes as the first that is not blank is indented by; `None`
      is a panic. */
  function Body(lines: seq<string>, indent: Option<nat>): Option<seq<string>> {
    if lines == [] then Some([])
    else if Bare(lines[0]) == "" then Prepended([""], Body(lines[1..], indent))
    else
      var here := Indent(lines[0]);
      var n := if indent.Some? then indent.value else here;
      if here == 0 || here < n then Some([])
      else
        match CutAt(lines[0], n)
        case None => None
        case Some(k) => Prepended([lines[0][k..]], Body(lines[1..], Some(n)))
  }

  predicate AllBlank(lines: seq<string>) {
    forall i | 0 <= i < |lines| :: Bare(lines[i]) == ""
  }

  function BlockOf(body: Option<seq<string>>): Reading {
    if body.None? then Panicked
    else if AllBlank(body.value) then Missing
    else Found(Join(body.value, "\n"))
  }

  function FindBlock(lines: seq<string>, key: string): Reading {
    if lines == [] then Missing
    else if !AtKey(lines[0], key) then FindBlock(lines[1..], key)
    else if !OpensBlock(lines[0], key) then Missing
    else BlockOf(Body(lines[1..], None))
  }

  /** What a line does to the body: it ends it, panics, or adds to it and fixes the indentation from then on. */
  datatype Line = Ends | Breaks | Adds(text: string, indent: Option<nat>)

  function BodyLine(line: string, indent: Option<nat>): Line {
    if Bare(line) == "" then Adds("", indent)
    else
      var here := Indent(line);
      var n := if indent.Some? then indent.value else here;
      if here == 0 || here < n then Ends
      else if CutAt(line, n).None? then Breaks
      else Adds(line[CutAt(line, n).value..], Some(n))
  }

  lemma BodyStep(lines: seq<string>, i: nat, indent: Option<nat>)
    requires i < |lines|
    ensures Body(lines[i..], indent) ==
              match BodyLine(lines[i], indent) {
                case Ends => Some([])
                case Breaks => None
                case Adds(l, n) => Prepended([l], Body(lines[i + 1..], n))
              }
  {
    hide Bare, Indent, CutAt;
    assert lines[i..][0] == lines[i] && lines[i..][1..] == lines[i + 1..];
  }

  lemma BodyEnds(indent: Option<nat>)
    ensures Body([], indent) == Some([])
  {
  }

  /** The body of the block whose opener is the line before `start`. */
  method ReadBody(lines: seq<string>, start: nat) returns (body: Option<seq<string>>)
    requires start <= |lines|
    ensures body == Body(lines[start..], None)
  {
    hide Bare, Body, Indent, CutAt;
    var block := [];
    var indent: Option<nat> := None;
    var i := start;
    ghost var goal := Body(lines[i..], None);
    NothingPrepended(goal);
    while i < |lines|
      invariant 0 <= i <= |lines| && goal == Prepended(block, Body(lines[i..], indent))
    {
      BodyStep(lines, i, indent);
      if Bare(lines[i]) == "" {
        PrependOne(block, "", Body(lines[i + 1..], indent));
        block := block + [""];
      } else {
        var here := Indent(lines[i]);
        if here == 0 {
          assert block + [] == block;
          return Some(block);
        }
        if indent.None? {
          indent := Some(here);
        }
        if here < indent.value {
          assert block + [] == block;
          return Some(block);
        }
        var cut := CutAt(lines[i], indent.value);
        if cut.None? {
          return None;
        }
        PrependOne(block, lines[i][cut.value..], Body(lines[i + 1..], indent));
        block := block + [lines[i][cut.value..]];
      }
      i := i + 1;
    }
    BodyEnds(indent);
    assert lines[i..] == [] && block + [] == block;
    body := Some(block);
  }

  method ExtractBlock(yaml: string, key: string) returns (r: Reading)
    ensures r == FindBlock(TextLines(yaml), key)
  {
    hide AtKey, OpensBlock, TextLines, Body, BlockOf;
    var lines := TextLines(yaml);
    var i := 0;
    assert lines[0..] == lines;
    while i < |lines|
      invariant 0 <= i <= |lines| && FindBlock(lines[i..], key) == FindBlock(lines, key)
    {
      var line := lines[i];
      assert lines[i..][1..] == lines[i + 1..];
      i := i + 1;
      if AtKey(line, key) {
        if !OpensBlock(line, key) {
          return Missing;
        }
        var block := ReadBody(lines, i);
        return BlockOf(block);
      }
    }
    return Missing;
  }

  // ---- When reading a block panics ------------------------------------------------------------------

  /** No character of `s` ends at byte `n`. */
  ghost predicate CutsInside(s: string, n: nat) {
    forall k | 0 <= k <= |s| :: Bytes(s[..k]) != n
  }

  lemma BytesCons(s: string, k: nat)
    requires 0 < k <= |s|
    ensures Bytes(s[..k]) == Width(s[0]) + Bytes(s[1..][..k - 1])
  {
    assert s[..k][0] == s[0] && s[..k][1..] == s[1..][..k - 1];
  }

  lemma {:induction false} CutIs(s: string, n: nat)
    ensures CutAt(s, n).None? <==> CutsInside(s, n)
    ensures CutAt(s, n).Some? ==> Bytes(s[..CutAt(s, n).value]) == n
  {
    hide Width;
    assert Bytes(s[..0]) == 0;
    if n != 0 && s != "" {
      forall k | 0 < k <= |s| {
        BytesCons(s, k);
      }
      if Width(s[0]) <= n {
        CutIs(s[1..], n - Width(s[0]));
        if !CutsInside(s[1..], n - Width(s[0])) {
          var k :| 0 <= k <= |s[1..]| && Bytes(s[1..][..k]) == n - Width(s[0]);
          assert Bytes(s[..k + 1]) == n;
        }
        if !CutsInside(s, n) {
          var k :| 0 <= k <= |s| && Bytes(s[..k]) == n;
          assert Bytes(s[1..][..k - 1]) == n - Width(s[0]);
        }
      }
    }
  }

  /** The line is blank, or indented by at least `n` bytes. */
  predicate StaysIn(line: string, n: nat) {
    Bare(line) == "" || (Indent(line) > 0 && Indent(line) >= n)
  }

  /** The body reaches a line whose first `n` bytes end inside a character. */
  ghost predicate BreaksAt(lines: seq<string>, n: nat, i: nat) {
    && i < |lines| && Bare(lines[i]) != "" && StaysIn(lines[i], n) && CutsInside(lines[i], n)
    && forall j | 0 <= j < i :: StaysIn(lines[j], n)
  }

  ghost predicate Broken(lines: seq<string>, n: nat) {
    exists i: nat :: BreaksAt(lines, n, i)
  }

  lemma {:induction false} BodyPanics(lines: seq<string>, n: nat)
    ensures Body(lines, Some(n)).None? <==> Broken(lines, n)
  {
    hide Bare, Indent, CutAt, CutsInside;
    if lines != [] {
      CutIs(lines[0], n);
      BodyPanics(lines[1..], n);
      forall i: nat | i > 0
        ensures BreaksAt(lines, n, i) <==> StaysIn(lines[0], n) && BreaksAt(lines[1..], n, i - 1)
      {
        BreaksLater(lines, n, i);
      }
      if exists i: nat :: BreaksAt(lines[1..], n, i) {
        var i: nat :| BreaksAt(lines[1..], n, i);
        assert StaysIn(lines[0], n) ==> BreaksAt(lines, n, i + 1);
      }
      if exists i: nat :: BreaksAt(lines, n, i) {
        var i: nat :| BreaksAt(lines, n, i);
        assert i > 0 ==> BreaksAt(lines[1..], n, i - 1);
      }
      if Bare(lines[0]) != "" && StaysIn(lines[0], n) && CutsInside(lines[0], n) {
        assert BreaksAt(lines, n, 0);
      }
    }
  }

  lemma BreaksLater(lines: seq<string>, n: nat, i: nat)
    requires lines != [] && i > 0
    ensures BreaksAt(lines, n, i) <==> StaysIn(lines[0], n) && BreaksAt(lines[1..], n, i - 1)
  {
    hide StaysIn, Bare, CutsInside;
    var rest := lines[1..];
    assert forall j | 0 <= j < |rest| :: rest[j] == lines[j + 1];
    if StaysIn(lines[0], n) && BreaksAt(rest, n, i - 1) {
      forall j | 0 <= j < i
        ensures StaysIn(lines[j], n)
      {
        assert j > 0 ==> rest[j - 1] == lines[j];
      }
    }
    if BreaksAt(lines, n, i) {
      forall j | 0 <= j < i - 1
        ensures StaysIn(rest[j], n)
      {
        assert rest[j] == lines[j + 1];
      }
    }
  }

  /** The indentation of the first line that is not blank. */
  function FirstIndent(lines: seq<string>): nat {
    if lines == [] then 0 else if Bare(lines[0]) == "" then FirstIndent(lines[1..]) else Indent(lines[0])
  }

  /** Reading a block panics exactly when, before a line that ends it, a line that is not blank has the end of
      the first line's indentation inside a character. */
  lemma {:induction false} BlockPanicsIff(lines: seq<string>)
    ensures Body(lines, None).None? <==> Broken(lines, FirstIndent(lines))
  {
    hide Bare, Indent, CutAt, CutsInside;
    if lines != [] {
      var n := FirstIndent(lines);
      if Bare(lines[0]) == "" {
        BlockPanicsIff(lines[1..]);
        assert StaysIn(lines[0], n);
        forall i: nat | i > 0 {
          BreaksLater(lines, n, i);
        }
        if exists i: nat :: BreaksAt(lines[1..], n, i) {
          var i: nat :| BreaksAt(lines[1..], n, i);
          BreaksLater(lines, n, i + 1);
          assert BreaksAt(lines, n, i + 1);
        }
        if exists i: nat :: BreaksAt(lines, n, i) {
          var i: nat :| BreaksAt(lines, n, i);
          assert i > 0;
          assert BreaksAt(lines[1..], n, i - 1);
        }
      } else {
        BodyPanics(lines, n);
        SameBody(lines);
        assert n == Indent(lines[0]);
        assert Body(lines, None) == Body(lines, Some(n));
      }
    }
  }

  /** From a line that is not blank on, its own indentation counts. */
  lemma SameBody(lines: seq<string>)
    requires lines != [] && Bare(lines[0]) != ""
    ensures Body(lines, None) == Body(lines, Some(Indent(lines[0])))
  {
    hide Bare, Indent, CutAt;
  }

  /** Two spaces, and then a line indented by one space of three bytes. */
  lemma WideSpacePanics(a: char, b: char)
    requires !RustSpace(a) && !RustSpace(b)
    ensures Body(["  " + [a], ['\U{3000}', b]], None) == None
  {
    var first, second := "  " + [a], ['\U{3000}', b];
    var lines := [first, second];
    assert lines[1..] == [second];
    assert RustSpace(' ') && RustSpace('\U{3000}');
    FirstOfIs(first, NotRustSpace, 2);
    FirstOfIs(second, NotRustSpace, 1);
    assert first[..2] == "  " && second[..1] == ['\U{3000}'];
    assert Bytes("") == 0 && "  "[1..] == " " && " "[1..] == "" && ['\U{3000}'][1..] == "";
    assert Bytes(" ") == 1 && Bytes("  ") == 2 && Bytes(['\U{3000}']) == 3;
    assert Indent(first) == 2 && Indent(second) == 3;
    StartsSolid(first[2..], RustSpace);
    TrimStartSkips("  ", first[2..], RustSpace);
    TrimStartSkips(['\U{3000}'], second[1..], RustSpace);
    assert "  " + first[2..] == first && ['\U{3000}'] + second[1..] == second;
    StartsSolid(second[1..], RustSpace);
    assert Bare(first) != "" && Bare(second) != "";
    hide Indent, Bare, FirstOf;
    assert CutAt(second, 2) == None;
    var rest := lines[1..];
    assert rest[0] == second;
    assert Body(rest, Some(2)) == None;
  }

  predicate ContinuesBlock(line: string) {
    Bare(line) == "" || StartsBlank(line)
  }

  /** The lines outside the blocks of this key; `inside` when the line before belongs to one. */
  function Strip(lines: seq<string>, key: string, inside: bool): seq<string> {
    if lines == [] then []
    else if OpensBlock(lines[0], key) || (inside && ContinuesBlock(lines[0])) then Strip(lines[1..], key, true)
    else [lines[0]] + Strip(lines[1..], key, false)
  }

  method StripBlock(yaml: string, key: string) returns (out: string)
    ensures out == Join(Strip(TextLines(yaml), key, false), "\n")
  {
    hide OpensBlock, ContinuesBlock, TextLines, StartsBlank, Strip;
    var lines := TextLines(yaml);
    var kept := [];
    var i := 0;
    assert lines[0..] == lines;
    while i < |lines|
      invariant 0 <= i <= |lines| && kept + Strip(lines[i..], key, false) == Strip(lines, key, false)
    {
      var line := lines[i];
      StripStep(lines, i, key, false);
      if StartsBlank(line) {
        BlankOpensNothing(line, key);
      }
      i := i + 1;
      if StartsBlank(line) || !OpensBlock(line, key) {
        kept := kept + [line];
        continue;
      }
      while i < |lines| && ContinuesBlock(lines[i])
        invariant 0 <= i <= |lines| && kept + Strip(lines[i..], key, true) == Strip(lines, key, false)
      {
        StripStep(lines, i, key, true);
        i := i + 1;
      }
      LeavesBlock(lines[i..], key);
    }
    NothingStripped(lines, i, key);
    assert kept + [] == kept;
    out := Join(kept, "\n");
  }

  lemma NothingStripped(lines: seq<string>, i: nat, key: string)
    requires i == |lines|
    ensures Strip(lines[i..], key, false) == []
  {
  }

  lemma StripStep(lines: seq<string>, i: nat, key: string, inside: bool)
    requires i < |lines|
    ensures Strip(lines[i..], key, inside) ==
              if OpensBlock(lines[i], key) || (inside && ContinuesBlock(lines[i])) then Strip(lines[i + 1..], key, true)
              else [lines[i]] + Strip(lines[i + 1..], key, false)
  {
    hide OpensBlock, ContinuesBlock;
    assert lines[i..][1..] == lines[i + 1..];
  }

  lemma BlankOpensNothing(line: string, key: string)
    requires StartsBlank(line)
    ensures !OpensBlock(line, key)
  {
  }

  lemma LeavesBlock(lines: seq<string>, key: string)
    requires lines != [] ==> !ContinuesBlock(lines[0])
    ensures Strip(lines, key, true) == Strip(lines, key, false)
  {
    hide OpensBlock, ContinuesBlock;
  }

  // ---- What stripping keeps -----------------------------------------------------------------------------

  /** A line of a block: its opener, or one that only continuing lines separate from it. */
  ghost predicate InBlock(lines: seq<string>, key: string, i: nat)
    requires i < |lines|
  {
    exists j | 0 <= j <= i :: OpensBlock(lines[j], key) && forall m | j < m <= i :: ContinuesBlock(lines[m])
  }

  ghost function OutsideFrom(lines: seq<string>, key: string, i: nat): seq<string>
    requires i <= |lines|
    decreases |lines| - i
  {
    if i == |lines| then []
    else (if InBlock(lines, key, i) then [] else [lines[i]]) + OutsideFrom(lines, key, i + 1)
  }

  lemma InBlockStep(lines: seq<string>, key: string, i: nat)
    requires i < |lines|
    ensures InBlock(lines, key, i) <==>
              OpensBlock(lines[i], key) || (i > 0 && InBlock(lines, key, i - 1) && ContinuesBlock(lines[i]))
  {
    hide OpensBlock, ContinuesBlock;
    if i > 0 && InBlock(lines, key, i - 1) && ContinuesBlock(lines[i]) {
      var j :| 0 <= j <= i - 1 && OpensBlock(lines[j], key) && forall m | j < m <= i - 1 :: ContinuesBlock(lines[m]);
      assert forall m | j < m <= i :: ContinuesBlock(lines[m]);
    }
    if InBlock(lines, key, i) {
      var j :| 0 <= j <= i && OpensBlock(lines[j], key) && forall m | j < m <= i :: ContinuesBlock(lines[m]);
      if j < i {
        assert ContinuesBlock(lines[i]) && forall m | j < m <= i - 1 :: ContinuesBlock(lines[m]);
      }
    }
  }

  lemma {:induction false} StripFromIs(lines: seq<string>, key: string, i: nat)
    requires i <= |lines|
    ensures Strip(lines[i..], key, i > 0 && InBlock(lines, key, i - 1)) == OutsideFrom(lines, key, i)
    decreases |lines| - i
  {
    hide OpensBlock, ContinuesBlock, InBlock, Strip;
    if i == |lines| {
      StripOfNothing(key, i > 0 && InBlock(lines, key, i - 1));
      assert lines[i..] == [];
    } else {
      StripStep(lines, i, key, i > 0 && InBlock(lines, key, i - 1));
      InBlockStep(lines, key, i);
      StripFromIs(lines, key, i + 1);
    }
  }

  lemma StripOfNothing(key: string, inside: bool)
    ensures Strip([], key, inside) == []
  {
  }

  /** Stripping keeps exactly the lines outside the blocks, in order. */
  lemma StripKeepsOutside(lines: seq<string>, key: string)
    ensures Strip(lines, key, false) == OutsideFrom(lines, key, 0)
  {
    hide Strip, InBlock;
    StripFromIs(lines, key, 0);
    assert lines[0..] == lines;
  }

  lemma {:induction false} StripOpensNothing(lines: seq<string>, key: string, inside: bool)
    ensures forall l <- Strip(lines, key, inside) :: l in lines && !OpensBlock(l, key)
  {
    hide OpensBlock, ContinuesBlock;
    if lines != [] {
      StripOpensNothing(lines[1..], key, true);
      StripOpensNothing(lines[1..], key, false);
    }
  }

  lemma {:induction false} NoOpenerNoBlock(lines: seq<string>, key: string)
    requires forall l <- lines :: !OpensBlock(l, key)
    ensures FindBlock(lines, key) == Missing
  {
    hide OpensBlock, AtKey;
    if lines != [] {
      NoOpenerNoBlock(lines[1..], key);
    }
  }

  lemma JoinedLines(ls: seq<string>)
    requires forall l <- ls :: Free(l, IsNewline)
    ensures TextLines(Join(ls, "\n")) == ls ||
            (ls != [] && ls[|ls| - 1] == "" && TextLines(Join(ls, "\n")) == ls[..|ls| - 1])
  {
    if ls == [] {
      SplitOne("");
      assert [""][..0] == [];
    } else {
      SplitOfJoin(ls);
    }
  }

  /** After stripping there is no block of that key. */
  lemma StrippedHasNoBlock(yaml: string, key: string)
    ensures FindBlock(TextLines(Join(Strip(TextLines(yaml), key, false), "\n")), key) == Missing
  {
    hide OpensBlock, Strip, FindBlock;
    var kept := Strip(TextLines(yaml), key, false);
    SplitLinesFree(yaml);
    StripOpensNothing(TextLines(yaml), key, false);
    JoinedLines(kept);
    var again := TextLines(Join(kept, "\n"));
    assert forall l <- again :: l in kept;
    NoOpenerNoBlock(again, key);
  }

  // ---- Agreement with the migrator ----------------------------------------------------------------------

  /** White space to the script but not to the daemon. */
  predicate IsSeparator(c: char) { '\U{1C}' <= c <= '\U{1F}' }

  lemma {:induction false} SameTrimStart(s: string)
    requires Free(s, IsSeparator)
    ensures TrimStart(s, PySpace) == TrimStart(s, RustSpace)
  {
    if s != "" {
      assert Free(s[1..], IsSeparator);
      SameTrimStart(s[1..]);
    }
  }

  lemma {:induction false} SameTrimEnd(s: string)
    requires Free(s, IsSeparator)
    ensures TrimEnd(s, PySpace) == TrimEnd(s, RustSpace)
  {
    if s != "" {
      SameTrimEnd(s[..|s| - 1]);
    }
  }

  lemma SameTrim(s: string)
    requires Free(s, IsSeparator)
    ensures Trim(s, PySpace) == Bare(s) && (BlankLine(s) <==> Bare(s) == "")
  {
    hide TrimStart, TrimEnd;
    SameTrimStart(s);
    TrimStartSpec(s, PySpace);
    var t := TrimStart(s, PySpace);
    SliceFree(s, |s| - |t|, |s|, IsSeparator);
    SameTrimEnd(t);
  }

  /** A field without any stop. */
  ghost predicate FreeField(f: Field, stop: char -> bool) {
    Free(f.key, stop) && Free(f.rest, stop) && forall l <- f.cont :: Free(l, stop)
  }

  lemma {:induction false} SplitFree(s: string, stop: char -> bool)
    requires Free(s, stop)
    ensures forall l <- Split(s) :: Free(l, stop)
    decreases |s|
  {
    var n := FirstOf(s, IsNewline);
    if n < |s| {
      SliceFree(s, 0, n, stop);
      SliceFree(s, n + 1, |s|, stop);
      hide Free;
      SplitFree(s[n + 1..], stop);
    }
  }

  lemma {:induction false} JoinFree(ls: seq<string>, stop: char -> bool)
    requires !stop('\n') && forall l <- ls :: Free(l, stop)
    ensures Free(Join(ls, "\n"), stop)
  {
    if |ls| > 1 {
      JoinFree(ls[1..], stop);
      FreeConcat(ls[0] + "\n", Join(ls[1..], "\n"), stop);
      FreeConcat(ls[0], "\n", stop);
    }
  }

  lemma {:induction false} ParseFree(lines: seq<string>, stop: char -> bool)
    requires forall l <- lines :: Free(l, stop)
    ensures forall f <- ParseFields(lines) :: FreeField(f, stop)
    decreases |lines|
  {
    if lines != [] {
      hide KeyLine, ContLine, FreeField, Free;
      if !KeyLine(lines[0]) {
        ParseFree(lines[1..], stop);
      } else {
        var n := ContEnd(lines, 1);
        KeyEndIn(lines[0]);
        ParseFree(lines[n..], stop);
        FieldAtFree(lines[0], lines[1..n], stop);
      }
    }
  }

  lemma FieldAtFree(line: string, cont: seq<string>, stop: char -> bool)
    requires KeyLine(line) && Free(line, stop) && forall l <- cont :: Free(l, stop)
    ensures FreeField(FieldAt(line, cont), stop)
  {
    var k := KeyEnd(line);
    SliceFree(line, 0, k, stop);
    SliceFree(line, k + 1, |line|, stop);
  }

  lemma DedentFree(lines: seq<string>, stop: char -> bool)
    requires forall l <- lines :: Free(l, stop)
    ensures forall l <- Dedent(lines) :: Free(l, stop)
  {
    hide Solid, MinIndent;
    forall i | 0 <= i < |Dedent(lines)|
      ensures Free(Dedent(lines)[i], stop)
    {
      assert lines[i] in lines;
    }
  }

  lemma {:induction false} EscapedFree(s: string, stop: char -> bool)
    requires Free(s, stop) && !stop('\\') && !stop('"')
    ensures Free(Escaped(s), stop)
  {
    if s != "" {
      EscapedFree(s[1..], stop);
      var first := if s[0] == '"' then "\\\"" else [s[0]];
      FreeConcat(first, Escaped(s[1..]), stop);
    }
  }

  lemma QuotedFree(f: Field)
    requires FreeField(f, IsSeparator)
    ensures FreeField(Quoted(f), IsSeparator)
  {
    hide Trim, Escaped, StringKey;
    var value := Trim(f.rest, PySpace);
    TrimFree(f.rest, PySpace, IsSeparator);
    EscapedFree(value, IsSeparator);
    FreeConcat(" \"" + Escaped(value), "\"", IsSeparator);
    FreeConcat(" \"", Escaped(value), IsSeparator);
  }

  lemma {:induction false} MergeFree(sub: seq<Field>, moves: seq<Field>)
    requires forall f <- sub :: FreeField(f, IsSeparator)
    requires forall f <- moves :: FreeField(f, IsSeparator)
    ensures forall f <- Merge(sub, moves) :: FreeField(f, IsSeparator)
  {
    hide FreeField, Quoted, HasField;
    if moves != [] {
      var n := |moves| - 1;
      MergeFree(sub, moves[..n]);
      QuotedFree(moves[n]);
    }
  }

  lemma MergedFree(text: string)
    requires Free(text, IsSeparator)
    ensures var fields := ParseFields(Split(text));
            && (forall f <- fields :: FreeField(f, IsSeparator))
            && (forall f <- Merged(fields) :: FreeField(f, IsSeparator))
  {
    hide FreeField, ParseFields, Merge, Dedent, Free;
    var fields := ParseFields(Split(text));
    SplitFree(text, IsSeparator);
    ParseFree(Split(text), IsSeparator);
    MovesAre(fields);
    match LastWith(fields, "metadata") {
      case None =>
      case Some(f) => SubFree(fields, f);
    }
    MergeFree(SubFields(fields), Moves(fields));
  }

  lemma SubFree(fields: seq<Field>, f: Field)
    requires forall g <- fields :: FreeField(g, IsSeparator)
    requires LastWith(fields, "metadata") == Some(f)
    ensures forall g <- SubFields(fields) :: FreeField(g, IsSeparator)
  {
    hide ParseFields, Dedent, Free;
    LastWithIs(fields, "metadata");
    DedentFree(f.cont, IsSeparator);
    JoinFree(Dedent(f.cont), IsSeparator);
    SplitFree(Join(Dedent(f.cont), "\n"), IsSeparator);
    ParseFree(Split(Join(Dedent(f.cont), "\n")), IsSeparator);
  }

  // ---- Lines that make no difference --------------------------------------------------------------------

  /** The same text, but for an empty last line. */
  ghost predicate UpToLast(a: seq<string>, b: seq<string>) {
    b == a || (a != [] && a[|a| - 1] == "" && b == a[..|a| - 1])
  }

  lemma EmptyOpensNothing(key: string)
    ensures !Opens("", key)
  {
  }

  lemma {:induction false} EmptyLast(ls: seq<string>, key: string)
    ensures ReadString(ls + [""], key) == ReadString(ls, key)
    ensures ReadList(ls + [""], key) == ReadList(ls, key)
    ensures Items(ls + [""]) == Items(ls)
  {
    hide Opens, ValueOn, Unquoted, IsItem, CommaItems;
    EmptyOpensNothing(key);
    if ls == [] {
      assert [] + [""] == [""] && [""][1..] == [];
      EmptyIsNoItem();
      assert Items([]) == Some([]);
    } else {
      assert (ls + [""])[1..] == ls[1..] + [""] && (ls + [""])[0] == ls[0];
      EmptyLast(ls[1..], key);
    }
  }

  lemma EmptyIsNoItem()
    ensures Bare("") == "" && !IsItem("")
  {
  }

  lemma UpToLastReads(a: seq<string>, b: seq<string>, key: string)
    requires UpToLast(a, b)
    ensures ReadString(a, key) == ReadString(b, key) && ReadList(a, key) == ReadList(b, key)
  {
    hide ReadString, ReadList;
    if b != a {
      EmptyLast(b, key);
      assert a == b + [""];
    }
  }

  /** Readers see a line only trimmed. */
  lemma {:induction false} SameBareReads(a: seq<string>, b: seq<string>, key: string)
    requires |a| == |b| && forall i | 0 <= i < |a| :: Bare(a[i]) == Bare(b[i])
    ensures ReadString(a, key) == ReadString(b, key) && ReadList(a, key) == ReadList(b, key)
    ensures Items(a) == Items(b)
  {
    hide Bare, Unquoted, IsItem, CommaItems;
    if a != [] {
      SameBareReads(a[1..], b[1..], key);
    }
  }

  // ---- The block of a migrated text ---------------------------------------------------------------------

  /** Blank lines made empty. */
  function Emptied(lines: seq<string>): seq<string> {
    seq(|lines|, i requires 0 <= i < |lines| => if BlankLine(lines[i]) then "" else lines[i])
  }

  lemma PaddedFree(line: string)
    requires Free(line, IsSeparator)
    ensures Free("  " + line, IsSeparator)
  {
    FreeConcat("  ", line, IsSeparator);
    assert Free("  ", IsSeparator);
  }

  lemma PaddedLine(line: string)
    requires Free(line, IsSeparator)
    ensures Bare(line) == "" <==> BlankLine(line)
    ensures !BlankLine(line) ==>
              && Bare("  " + line) != "" && Indent("  " + line) == 2 + Indent(line)
              && CutAt("  " + line, 2) == Some(2) && ("  " + line)[2..] == line
  {
    SameTrim(line);
    PaddedFree(line);
    SameTrim("  " + line);
    BlankPadded(line);
    hide BlankLine, Bare;
    PaddedBytes(line);
  }

  lemma PaddedBytes(line: string)
    ensures var l := "  " + line; Indent(l) == 2 + Indent(line) && CutAt(l, 2) == Some(2) && l[2..] == line
  {
    var l, one := "  " + line, " " + line;
    var n := FirstOf(line, NotRustSpace);
    assert l == [' '] + one && one == [' '] + line;
    FirstOfCons(' ', line, NotRustSpace);
    FirstOfCons(' ', one, NotRustSpace);
    BytesCons(l, n + 2);
    BytesCons(one, n + 1);
    assert l[1..] == one && one[1..] == line;
    assert CutAt(line, 0) == Some(0) && CutAt(one, 1) == Some(1);
  }

  lemma IndentedCons(lines: seq<string>)
    requires lines != []
    ensures Indented(lines) == [if BlankLine(lines[0]) then lines[0] else "  " + lines[0]] + Indented(lines[1..])
    ensures Emptied(lines) == [if BlankLine(lines[0]) then "" else lines[0]] + Emptied(lines[1..])
  {
    hide BlankLine;
  }

  /** A block indented by two reads back as it was, blank lines apart. */
  lemma {:induction false} BodyOfIndented(lines: seq<string>)
    requires forall l <- lines :: Free(l, IsSeparator)
    ensures Body(Indented(lines), Some(2)) == Some(Emptied(lines))
  {
    if lines != [] {
      hide BlankLine, Bare, Free, FirstOf, Body, Indented, Emptied, Indent, CutAt;
      var l := lines[0];
      BodyOfIndented(lines[1..]);
      PaddedLine(l);
      IndentedCons(lines);
      BodyStep(Indented(lines), 0, Some(2));
      assert Indented(lines)[0..] == Indented(lines) && Indented(lines)[1..] == Indented(lines[1..]);
    } else {
      assert Indented(lines) == [] && Emptied(lines) == [];
    }
  }

  lemma BodyStarts(lines: seq<string>)
    requires lines != [] && forall l <- lines :: Free(l, IsSeparator)
    requires !BlankLine(lines[0]) && FirstOf(lines[0], NotRustSpace) == 0
    ensures Body(Indented(lines), None) == Some(Emptied(lines))
  {
    hide BlankLine, Bare, Body, CutAt;
    BodyOfIndented(lines);
    PaddedLine(lines[0]);
    assert Indented(lines)[0] == "  " + lines[0];
    assert Indent(lines[0]) == 0;
    SameBody(Indented(lines));
  }

  lemma {:induction false} FindBlockSkips(before: seq<string>, opener: string, after: seq<string>, key: string)
    requires (forall l <- before :: !AtKey(l, key)) && OpensBlock(opener, key)
    ensures FindBlock(before + [opener] + after, key) == BlockOf(Body(after, None))
  {
    hide AtKey, OpensBlock, Body, BlockOf;
    var all := before + [opener] + after;
    if before == [] {
      assert all[0] == opener && all[1..] == after;
      OpenerIsAtKey(opener, key);
    } else {
      assert before[0] in before;
      assert all[0] == before[0] && all[1..] == before[1..] + [opener] + after;
      FindBlockSkips(before[1..], opener, after, key);
    }
  }

  lemma OpenerIsAtKey(line: string, key: string)
    requires OpensBlock(line, key)
    ensures AtKey(line, key)
  {
  }

  lemma MetadataOpens()
    ensures OpensBlock("metadata:", "metadata")
  {
    var line := "metadata:";
    assert "metadata" + ":" == line;
    assert line[|"metadata"| + 1..] == "";
  }

  lemma OtherStart(line: string)
    requires Free(line, IsSeparator)
    requires ContLine(line) || line[0] != 'm'
    ensures !AtKey(line, "metadata")
  {
    hide TrimEnd;
    TrimEndSpec(line, RustSpace);
    if line != "" && PySpace(line[0]) {
      assert RustSpace(line[0]);
    } else {
      assert ("metadata" + ":")[0] == 'm';
    }
  }

  lemma {:induction false} PrintFree(fields: seq<Field>)
    requires forall f <- fields :: FreeField(f, IsSeparator)
    ensures forall l <- Print(fields) :: Free(l, IsSeparator)
  {
    if fields != [] {
      assert FreeField(fields[0], IsSeparator);
      PrintFree(fields[1..]);
      var f := fields[0];
      assert Free(":", IsSeparator);
      FreeConcat(f.key + ":", f.rest, IsSeparator);
      FreeConcat(f.key, ":", IsSeparator);
    }
  }

  lemma {:induction false} HeadIsElsewhere(fields: seq<Field>)
    requires forall f <- fields :: Parsed(f) && FreeField(f, IsSeparator) && f.key[0] != 'm'
    ensures forall l <- Print(fields) :: !AtKey(l, "metadata")
  {
    if fields != [] {
      HeadIsElsewhere(fields[1..]);
      var f := fields[0];
      assert Parsed(f) && FreeField(f, IsSeparator);
      PrintFree([f]);
      assert [f][1..] == [] && Print([f]) == PrintField(f) + [];
      hide AtKey, Parsed, FreeField, ContLine;
      FieldElsewhere(f);
    }
  }

  lemma FieldElsewhere(f: Field)
    requires Parsed(f) && f.key[0] != 'm' && forall l <- PrintField(f) + [] :: Free(l, IsSeparator)
    ensures forall l <- PrintField(f) :: !AtKey(l, "metadata")
  {
    hide AtKey, ContLine;
    var ls := PrintField(f) + [];
    assert ls == PrintField(f);
    forall l | l in ls
      ensures !AtKey(l, "metadata")
    {
      OtherStart(l);
    }
  }

  lemma HeadKeys(fields: seq<Field>)
    ensures forall f <- Head(fields) :: f in fields && f.key != "" && f.key[0] != 'm'
  {
    LastWithIs(fields, "name");
    LastWithIs(fields, "description");
    assert "name"[0] == 'n' && "description"[0] == 'd';
  }

  lemma OutFree(fields: seq<Field>)
    requires forall f <- fields :: Parsed(f)
    ensures forall l <- OutLines(fields) :: Free(l, IsNewline)
  {
    hide Parsed, Print, OutLines, Head, MetadataField;
    HeadParsed(fields);
    MetadataParsed(fields);
    OutIsPrinted(fields);
    PrintLines(Head(fields) + [MetadataField(fields)]);
  }

  /** The lines of the metadata block as written, or without an empty last one. */
  lemma IndentedUpToLast(before: seq<string>, lines: seq<string>, read: seq<string>)
    requires lines != [] && !BlankLine(lines[0])
    requires UpToLast(before + Indented(lines), read)
    ensures exists kept :: UpToLast(lines, kept) && kept != [] && kept[0] == lines[0] && read == before + Indented(kept)
  {
    hide BlankLine;
    var all := before + Indented(lines);
    if read == all {
      assert UpToLast(lines, lines);
    } else {
      var n := |lines| - 1;
      var kept := lines[..n];
      assert all[|all| - 1] == Indented(lines)[n];
      assert lines[n] == "" && n > 0;
      assert read == before + Indented(kept);
      assert UpToLast(lines, kept);
    }
  }

  lemma EmptiedReads(lines: seq<string>, key: string)
    requires forall l <- lines :: Free(l, IsSeparator)
    ensures ReadString(Emptied(lines), key) == ReadString(lines, key) &&
            ReadList(Emptied(lines), key) == ReadList(lines, key)
  {
    hide BlankLine, Bare, ReadString, ReadList;
    forall i | 0 <= i < |lines|
      ensures Bare(Emptied(lines)[i]) == Bare(lines[i])
    {
      SameTrim(lines[i]);
      EmptyIsNoItem();
    }
    SameBareReads(Emptied(lines), lines, key);
  }

  lemma BlockText(lines: seq<string>, key: string)
    requires lines != [] && !BlankLine(lines[0]) && FirstOf(lines[0], NotRustSpace) == 0
    requires forall l <- lines :: Free(l, IsSeparator) && Free(l, IsNewline)
    ensures var block := BlockOf(Body(Indented(lines), None));
            && block.Found?
            && ReadString(TextLines(block.value), key) == ReadString(lines, key)
            && ReadList(TextLines(block.value), key) == ReadList(lines, key)
  {
    hide BlankLine, Bare, ReadString, ReadList, Body;
    BodyStarts(lines);
    SameTrim(lines[0]);
    var body := Emptied(lines);
    assert Bare(body[0]) != "";
    forall l | l in body
      ensures Free(l, IsNewline)
    {
      assert Free("", IsNewline);
    }
    JoinedLines(body);
    UpToLastReads(body, TextLines(Join(body, "\n")), key);
    EmptiedReads(lines, key);
  }

  /** The daemon finds the metadata block of a migrated text, and reads it as the printed merged fields. */
  lemma BlockReads(text: string, key: string)
    requires Free(text, IsSeparator) && Moves(ParseFields(Split(text))) != []
    ensures var merged := Merged(ParseFields(Split(text)));
            var block := FindBlock(TextLines(Migrate(text).0), "metadata");
            && block.Found?
            && ReadString(TextLines(block.value), key) == ReadString(Print(merged), key)
            && ReadList(TextLines(block.value), key) == ReadList(Print(merged), key)
  {
    hide ParseFields, Merged, Head, Parsed, FreeField, BlankLine, Print, ReadString, ReadList, FindBlock, TextLines,
         OpensBlock, AtKey, Moves, Free, Body, BlockOf, Indented;
    var fields := ParseFields(Split(text));
    var merged := Merged(fields);
    var lines := Print(merged);
    var before := Print(Head(fields)) + ["metadata:"];
    SplitLinesFree(text);
    ParsedFields(Split(text));
    MergedFree(text);
    MergedParsed(fields);
    PrintLines(merged);
    PrintFree(merged);
    MovedIsMerged(fields);
    MergedStarts(merged);
    OutFree(fields);
    JoinedLines(OutLines(fields));
    var read := TextLines(Migrate(text).0);
    IndentedUpToLast(before, lines, read);
    var kept :| UpToLast(lines, kept) && kept != [] && kept[0] == lines[0] && read == before + Indented(kept);
    HeadIsSkipped(fields);
    MetadataOpens();
    FindBlockSkips(Print(Head(fields)), "metadata:", Indented(kept), "metadata");
    BlockText(kept, key);
    UpToLastReads(lines, kept, key);
  }

  lemma MergedStarts(fields: seq<Field>)
    requires fields != [] && Parsed(fields[0])
    ensures Print(fields) != [] && !BlankLine(Print(fields)[0]) && FirstOf(Print(fields)[0], NotRustSpace) == 0
  {
    hide BlankLine;
    HeaderIsSolid(fields[0].key, fields[0].rest);
    assert Print(fields)[0] == Header(fields[0]);
  }

  lemma HeadIsSkipped(fields: seq<Field>)
    requires forall f <- fields :: Parsed(f) && FreeField(f, IsSeparator)
    ensures forall l <- Print(Head(fields)) :: !AtKey(l, "metadata")
  {
    hide Parsed, FreeField, AtKey, Head, Print;
    HeadKeys(fields);
    HeadIsElsewhere(Head(fields));
  }

  // ---- Reading one field --------------------------------------------------------------------------------

  lemma KeyHasNoColon(key: string)
    requires Key(key)
    ensures Free(key, IsColon)
  {
  }

  lemma HeaderOpens(f: Field, key: string)
    requires Key(f.key) && Key(key)
    ensures Opens(Header(f), key) <==> f.key == key
    ensures f.key == key ==> ValueOn(Header(f), key) == Bare(f.rest)
  {
    hide TrimEnd, Key;
    var solid := f.key + ":";
    var t := solid + TrimEnd(f.rest, RustSpace);
    KeyIsSolid(f.key);
    TrimEndKeeps(solid, f.rest, RustSpace);
    StartsSolid(Header(f), RustSpace);
    assert Bare(Header(f)) == t;
    KeyHasNoColon(f.key);
    KeyHasNoColon(key);
    if key + ":" <= t {
      SameColon(f.key, key, t);
    }
    if f.key == key {
      assert t[|key| + 1..] == TrimEnd(f.rest, RustSpace);
      TrimTwice(f.rest, RustSpace);
    }
  }

  lemma KeyIsSolid(key: string)
    requires Key(key)
    ensures key != "" && !RustSpace(key[0])
  {
  }

  lemma SameColon(a: string, b: string, t: string)
    requires a + ":" <= t && b + ":" <= t && Free(a, IsColon) && Free(b, IsColon)
    ensures a == b
  {
    FirstOfIs(t, IsColon, |a|);
    FirstOfIs(t, IsColon, |b|);
    assert t[..|a|] == a && t[..|b|] == b;
  }

  lemma {:induction false} SkipsLines(xs: seq<string>, ys: seq<string>, key: string)
    requires forall l <- xs :: !Opens(l, key)
    ensures ReadString(xs + ys, key) == ReadString(ys, key) && ReadList(xs + ys, key) == ReadList(ys, key)
  {
    hide Opens;
    if xs == [] {
      assert xs + ys == ys;
    } else {
      assert (xs + ys)[1..] == xs[1..] + ys;
      SkipsLines(xs[1..], ys, key);
    }
  }

  /** No continuation line of these fields looks like the key. */
  ghost predicate Unshadowed(fields: seq<Field>, key: string) {
    forall f <- fields :: forall l <- f.cont :: !Opens(l, key)
  }

  lemma {:induction false} ItemsStop(cont: seq<string>, tail: seq<string>)
    requires tail == [] || (var t := Bare(tail[0]); !IsItem(t) && t != "" && t[0] != '#')
    ensures Items(cont + tail) == Items(cont)
  {
    hide Bare, IsItem, Unquoted;
    if cont == [] {
      assert cont + tail == tail;
    } else {
      assert (cont + tail)[1..] == cont[1..] + tail;
      ItemsStop(cont[1..], tail);
    }
  }

  lemma PrintStopsItems(fields: seq<Field>)
    requires forall f <- fields :: Parsed(f)
    ensures var tail := Print(fields); tail == [] || (var t := Bare(tail[0]); !IsItem(t) && t != "" && t[0] != '#')
  {
    if fields != [] {
      var f := fields[0];
      assert Parsed(f);
      KeyIsSolid(f.key);
      hide TrimEnd;
      TrimEndKeeps(f.key + ":", f.rest, RustSpace);
      StartsSolid(Header(f), RustSpace);
      assert Print(fields)[0] == Header(f);
      var t := Bare(Header(f));
      assert t[0] == f.key[0] && KeyStart(t[0]) && "- "[0] == '-';
    }
  }

  /** What a field's own lines say as a list. */
  function ListOf(f: Field): Option<seq<string>> {
    var v := Bare(f.rest);
    if v == "" then Items(f.cont)
    else if v[0] == '[' then Some(CommaItems(Trim(v, IsBracket)))
    else Some([])
  }

  lemma {:induction false} NoFieldNoList(fields: seq<Field>, key: string)
    requires (forall f <- fields :: Parsed(f)) && Unshadowed(fields, key) && Key(key) && !HasField(fields, key)
    ensures ReadList(Print(fields), key) == Some([])
  {
    if fields != [] {
      hide Opens, Parsed, Key;
      assert fields[0] in fields && Parsed(fields[0]);
      NoFieldNoList(fields[1..], key);
      FieldOpensNothing(fields[0], key);
      SkipsLines(PrintField(fields[0]), Print(fields[1..]), key);
    }
  }

  lemma FieldOpensNothing(f: Field, key: string)
    requires Parsed(f) && Key(key) && f.key != key && forall l <- f.cont :: !Opens(l, key)
    ensures forall l <- PrintField(f) :: !Opens(l, key)
  {
    hide Opens, Key;
    HeaderOpens(f, key);
  }

  /** When every field of this key is `f`, the readers say what `f` says. */
  lemma {:induction false} ReadsField(fields: seq<Field>, key: string, f: Field)
    requires (forall g <- fields :: Parsed(g)) && Unshadowed(fields, key) && Key(key)
    requires HasField(fields, key) && forall g <- fields :: g.key == key ==> g == f
    ensures ReadString(Print(fields), key) == ReadingOf(Bare(f.rest))
    ensures ReadList(Print(fields), key) == ListOf(f)
  {
    hide Opens, Parsed, Key, Bare, Items, CommaItems, HasField;
    HasFieldCons(fields, key);
    var g, rest := fields[0], fields[1..];
    assert g in fields && Parsed(g);
    if g.key == key {
      FirstField(f, rest, key);
      if HasField(rest, key) {
        ReadsField(rest, key, f);
      } else {
        NoFieldNoList(rest, key);
      }
    } else {
      FieldOpensNothing(g, key);
      SkipsLines(PrintField(g), Print(rest), key);
      ReadsField(rest, key, f);
    }
  }

  lemma HasFieldCons(fields: seq<Field>, key: string)
    requires HasField(fields, key)
    ensures fields != [] && (HasField(fields[1..], key) || fields[0].key == key)
  {
    var i :| 0 <= i < |fields| && fields[i].key == key;
    if i > 0 {
      assert fields[1..][i - 1] == fields[i];
    }
  }

  lemma FirstField(f: Field, rest: seq<Field>, key: string)
    requires Parsed(f) && f.key == key && (forall l <- f.cont :: !Opens(l, key)) && forall g <- rest :: Parsed(g)
    ensures var lines := PrintField(f) + Print(rest);
            && ReadString(lines, key) == ReadingOf(Bare(f.rest))
            && ReadList(lines, key) ==
                 var v := Bare(f.rest);
                 if v == "" then Items(f.cont)
                 else if v[0] == '[' then Some(CommaItems(Trim(v, IsBracket)))
                 else ReadList(Print(rest), key)
  {
    hide Opens, Bare, Items, CommaItems, Header, Print, ValueOn;
    HeaderOpens(f, key);
    var lines := PrintField(f) + Print(rest);
    assert lines[0] == Header(f) && lines[1..] == f.cont + Print(rest);
    PrintStopsItems(rest);
    ItemsStop(f.cont, Print(rest));
    SkipsLines(f.cont, Print(rest), key);
  }

  // ---- Quoting ----------------------------------------------------------------------------------------

  lemma {:induction false} EscapedIs(s: string)
    ensures |Escaped(s)| >= |s|
    ensures Escaped(s) == s <==> Free(s, IsQuote)
  {
    if s != "" {
      EscapedIs(s[1..]);
      assert s == [s[0]] + s[1..];
      FreeConcat([s[0]], s[1..], IsQuote);
      if s[0] == '"' {
        assert |Escaped(s)| > |s|;
      } else if Escaped(s) == s {
        assert Escaped(s)[1..] == Escaped(s[1..]);
      }
    }
  }

  /** The value is not quoted again, or holds no double quote. */
  predicate Quotable(key: string, rest: string) {
    NeedsQuotes(key, rest) ==> Free(Bare(rest), IsQuote)
  }

  lemma QuotedSays(f: Field)
    requires Free(f.rest, IsSeparator)
    ensures ReadingOf(Bare(Quoted(f).rest)) == ReadingOf(Bare(f.rest)) <==> Quotable(f.key, f.rest)
    ensures ListOf(Quoted(f)) == ListOf(f)
  {
    if NeedsQuotes(f.key, f.rest) {
      hide StringKey, TrimStart, TrimEnd, Trim, Items, CommaItems, Escaped;
      SameTrim(f.rest);
      var v := Bare(f.rest);
      QuotedBare(Escaped(v));
      EscapedIs(v);
      assert !InQuotes(v);
    }
  }

  lemma QuotedBare(inner: string)
    ensures var v := Bare(" \"" + inner + "\"");
            && v == "\"" + inner + "\"" && v[0] == '"' && InQuotes(v) && Unquoted(v) == Some(inner)
  {
    hide Trim;
    var core := "\"" + inner + "\"";
    assert " " + core + "" == " \"" + inner + "\"";
    assert core[0] == '"' && core[|core| - 1] == '"' && core[1..|core| - 1] == inner;
    TrimBetween(" ", core, "", RustSpace);
  }

  // ---- The two parsers agree ----------------------------------------------------------------------------

  /** For a moved key that no continuation line of the merged fields looks like: the daemon reads from the
      migrated block the string it reads from the field's own lines exactly when quoting the value did not
      have to escape a double quote, and always the same list. */
  lemma ParsersAgree(text: string, key: string)
    requires Free(text, IsSeparator) && HasField(Moves(ParseFields(Split(text))), key)
    requires Unshadowed(Merged(ParseFields(Split(text))), key)
    ensures var fields := ParseFields(Split(text));
            var own := LastWith(Moves(fields), key);
            var block := FindBlock(TextLines(Migrate(text).0), "metadata");
            && own.Some? && block.Found?
            && (ReadString(TextLines(block.value), key) == ReadString(PrintField(own.value), key)
                <==> Quotable(key, own.value.rest))
            && ReadList(TextLines(block.value), key) == ReadList(PrintField(own.value), key)
  {
    hide ParseFields, Merge, SubFields, Print, ReadString, ReadList, FindBlock, TextLines, Migrate, Quoted, Parsed,
         FreeField, ReadingOf, ListOf, Bare, Quotable, Free, Opens, PrintField, Key, Moves;
    var fields := ParseFields(Split(text));
    var moves, merged := Moves(fields), Merged(fields);
    var f := LastWith(moves, key);
    LastWithIs(moves, key);
    MergeIs(SubFields(fields), moves);
    MovesAre(fields);
    SplitLinesFree(text);
    ParsedFields(Split(text));
    MergedParsed(fields);
    MergedFree(text);
    BlockReads(text, key);
    QuotedKey(f.value);
    OwnKey(f.value);
    forall g | g in merged && g.key == key
      ensures g == Quoted(f.value)
    {
      assert FromLast(g, SubFields(fields), moves);
    }
    ReadsField(merged, key, Quoted(f.value));
    OwnReads(f.value);
    OwnFree(f.value);
    QuotedSays(f.value);
  }

  lemma OwnKey(f: Field)
    requires Parsed(f)
    ensures Key(f.key)
  {
  }

  lemma OwnFree(f: Field)
    requires FreeField(f, IsSeparator)
    ensures Free(f.rest, IsSeparator)
  {
  }

  lemma OwnReads(f: Field)
    requires Parsed(f) && forall l <- f.cont :: !Opens(l, f.key)
    ensures ReadString(PrintField(f), f.key) == ReadingOf(Bare(f.rest))
    ensures ReadList(PrintField(f), f.key) == ListOf(f)
  {
    hide Opens, Bare, Items, ReadString, ReadList, PrintField, CommaItems;
    FirstField(f, [], f.key);
    assert PrintField(f) + Print([]) == PrintField(f);
    NothingListed(f.key);
  }

  lemma NothingListed(key: string)
    ensures ReadList(Print([]), key) == Some([])
  {
  }

  // ---- The daemon before and after ----------------------------------------------------------------------

  /** Exactly one line of the text looks like the key, and it is a field of its own at the top level. */
  ghost predicate OnlyOpener(lines: seq<string>, key: string, i: nat) {
    && i < |lines| && KeyLine(lines[i])
    && forall j | 0 <= j < |lines| :: Opens(lines[j], key) <==> j == i
  }

  /** The field of a line that has a key. */
  function FieldOn(lines: seq<string>, i: nat): Field
    requires i < |lines| && KeyLine(lines[i])
  {
    FieldAt(lines[i], lines[i + 1..ContEnd(lines, i + 1)])
  }

  /** A line that a list skips or takes an item from. */
  predicate Continues(line: string) {
    var t := Bare(line);
    t == "" || (if IsItem(t) then Unquoted(Bare(t[2..])).Some? else t[0] == '#')
  }

  /** The first line that is neither blank nor a comment is an item. */
  predicate ItemFirst(lines: seq<string>) {
    lines != [] &&
    var t := Bare(lines[0]);
    IsItem(t) || ((t == "" || t[0] == '#') && ItemFirst(lines[1..]))
  }

  /** When the list of a field is all in its own lines: its value is on the line of the key, its lines end the
      list themselves, or no item follows them. */
  predicate ListStays(f: Field, after: seq<string>) {
    Bare(f.rest) != "" || (exists l <- f.cont :: !Continues(l)) || !ItemFirst(after)
  }

  lemma {:induction false} NoItems(lines: seq<string>)
    ensures Items(lines) == Some([]) <==> !ItemFirst(lines)
  {
    hide Bare, Unquoted;
    if lines != [] {
      NoItems(lines[1..]);
    }
  }

  /** Items of two runs of lines are those of the first exactly when the first ends the list or the second
      starts with none. */
  lemma {:induction false} ItemsOver(cont: seq<string>, after: seq<string>)
    ensures Items(cont + after) == Items(cont) <==> (exists l <- cont :: !Continues(l)) || !ItemFirst(after)
  {
    hide Bare, Unquoted, ItemFirst;
    if cont == [] {
      assert cont + after == after;
      NoItems(after);
    } else {
      assert (cont + after)[1..] == cont[1..] + after && (cont + after)[0] == cont[0];
      ItemsOver(cont[1..], after);
      assert cont == [cont[0]] + cont[1..];
      ItemsStep(cont + after);
      ItemsStep(cont);
      var t := Bare(cont[0]);
      if Continues(cont[0]) && IsItem(t) {
        PrependedSame(Unquoted(Bare(t[2..])).value, Items(cont[1..] + after), Items(cont[1..]));
      }
    }
  }

  lemma PrependedSame(item: string, a: Option<seq<string>>, b: Option<seq<string>>)
    ensures Prepended([item], a) == Prepended([item], b) <==> a == b
  {
    if a.Some? && b.Some? {
      assert ([item] + a.value)[1..] == a.value && ([item] + b.value)[1..] == b.value;
    }
  }

  lemma ItemsStep(lines: seq<string>)
    requires lines != []
    ensures var t := Bare(lines[0]);
            if !Continues(lines[0]) then Items(lines) == if IsItem(t) then None else Some([])
            else if IsItem(t) then Items(lines) == Prepended([Unquoted(Bare(t[2..])).value], Items(lines[1..]))
            else Items(lines) == Items(lines[1..])
  {
    hide Bare, Unquoted;
  }

  // The parser visits every line that has a key.

  lemma {:induction false} ContEndShift(lines: seq<string>, d: nat, i: nat)
    requires d + i <= |lines|
    ensures ContEnd(lines[d..], i) + d == ContEnd(lines, d + i)
    decreases |lines| - d - i
  {
    hide ContLine;
    if d + i < |lines| {
      assert lines[d..][i] == lines[d + i];
      if ContLine(lines[d + i]) {
        ContEndShift(lines, d, i + 1);
      }
    }
  }

  lemma FieldShift(lines: seq<string>, d: nat, j: nat)
    requires d + j < |lines| && KeyLine(lines[d + j])
    ensures FieldOn(lines[d..], j) == FieldOn(lines, d + j)
  {
    hide KeyLine;
    ContEndShift(lines, d, j + 1);
    assert lines[d..][j] == lines[d + j];
    var n := ContEnd(lines, d + j + 1);
    assert lines[d..][j + 1..n - d] == lines[d + j + 1..n];
  }

  lemma ContIsNoKey(line: string)
    requires ContLine(line)
    ensures !KeyLine(line)
  {
    hide KeyLine;
    NoKeyHere(line);
  }

  lemma {:induction false} LineIsField(lines: seq<string>, i: nat)
    requires i < |lines| && KeyLine(lines[i])
    ensures FieldOn(lines, i) in ParseFields(lines)
    decreases |lines|
  {
    hide KeyLine, ContLine;
    if !KeyLine(lines[0]) {
      FieldShift(lines, 1, i - 1);
      LineIsField(lines[1..], i - 1);
    } else if i > 0 {
      var n := ContEnd(lines, 1);
      if i < n {
        ContIsNoKey(lines[i]);
      } else {
        FieldShift(lines, n, i - n);
        LineIsField(lines[n..], i - n);
      }
    }
  }

  lemma {:induction false} FieldIsLine(lines: seq<string>, f: Field) returns (j: nat)
    requires f in ParseFields(lines)
    ensures j < |lines| && KeyLine(lines[j]) && f == FieldOn(lines, j)
    decreases |lines|
  {
    hide KeyLine, ContLine;
    if !KeyLine(lines[0]) {
      var k := FieldIsLine(lines[1..], f);
      FieldShift(lines, 1, k);
      j := k + 1;
    } else {
      var n := ContEnd(lines, 1);
      if f == FieldOn(lines, 0) {
        j := 0;
      } else {
        var k := FieldIsLine(lines[n..], f);
        FieldShift(lines, n, k);
        j := n + k;
      }
    }
  }

  lemma KeyLineOpens(line: string, cont: seq<string>, key: string)
    requires KeyLine(line) && Key(key)
    ensures FieldAt(line, cont).key == key <==> Opens(line, key)
    ensures Opens(line, key) ==> ValueOn(line, key) == Bare(FieldAt(line, cont).rest)
  {
    var f := FieldAt(line, cont);
    KeyOfLine(line, cont);
    hide KeyLine, Opens, ValueOn, Key, Bare;
    HeaderOpens(f, key);
  }

  lemma KeyOfLine(line: string, cont: seq<string>)
    requires KeyLine(line)
    ensures var f := FieldAt(line, cont); Header(f) == line && Key(f.key)
  {
  }

  /** The only field of the key is the one on that line. */
  lemma OnlyField(lines: seq<string>, key: string, i: nat)
    requires OnlyOpener(lines, key, i) && Key(key)
    ensures FieldOn(lines, i) in ParseFields(lines) && FieldOn(lines, i).key == key
    ensures forall f <- ParseFields(lines) | f.key == key :: f == FieldOn(lines, i)
  {
    hide KeyLine, Opens, Key;
    LineIsField(lines, i);
    KeyLineOpens(lines[i], lines[i + 1..ContEnd(lines, i + 1)], key);
    forall f | f in ParseFields(lines) && f.key == key
      ensures f == FieldOn(lines, i)
    {
      var j := FieldIsLine(lines, f);
      KeyLineOpens(lines[j], lines[j + 1..ContEnd(lines, j + 1)], key);
    }
  }

  lemma ContOpensNothing(lines: seq<string>, key: string, i: nat, f: Field)
    requires OnlyOpener(lines, key, i) && f in ParseFields(lines)
    ensures forall l <- f.cont :: l in lines && !Opens(l, key)
  {
    hide KeyLine, Opens;
    var j := FieldIsLine(lines, f);
    var n := ContEnd(lines, j + 1);
    forall m | 0 <= m < |f.cont|
      ensures f.cont[m] in lines && !Opens(f.cont[m], key)
    {
      assert f.cont[m] == lines[j + 1 + m];
      ContIsNoKey(lines[j + 1 + m]);
    }
  }

  // Dedenting makes no line look like the key.

  lemma {:induction false} IndentAtLeast(lines: seq<string>, l: string)
    requires l in lines
    ensures MinIndent(lines) <= FirstOf(l, NotSpace)
  {
    if l != lines[0] {
      IndentAtLeast(lines[1..], l);
    }
  }

  lemma BlankOpensNoKey(line: string, key: string)
    requires Free(line, IsSeparator) && BlankLine(line)
    ensures !Opens(line, key)
  {
    SameTrim(line);
    hide TrimStart, TrimEnd;
  }

  lemma SpacesTrimmed(line: string, n: nat)
    requires n <= FirstOf(line, NotSpace)
    ensures Bare(line[n..]) == Bare(line)
  {
    var pre := line[..n];
    assert line == pre + line[n..];
    forall k | 0 <= k < n
      ensures RustSpace(pre[k])
    {
      assert line[..FirstOf(line, NotSpace)][k] == line[k];
    }
    TrimStartSkips(pre, line[n..], RustSpace);
  }

  lemma DedentOpensNothing(cont: seq<string>, key: string)
    requires forall l <- cont :: Free(l, IsSeparator) && !Opens(l, key)
    ensures forall l <- Dedent(cont) :: !Opens(l, key)
  {
    hide Opens, BlankLine, Free, FirstOf, MinIndent, Bare;
    var solid := Solid(cont);
    SolidIs(cont);
    if solid != [] {
      var n := MinIndent(solid);
      forall k | 0 <= k < |cont|
        ensures !Opens(Dedent(cont)[k], key)
      {
        assert cont[k] in cont;
        if BlankLine(cont[k]) {
          BlankTail(cont[k], n);
          BlankOpensNoKey(Dedent(cont)[k], key);
        } else {
          IndentAtLeast(solid, cont[k]);
          SpacesTrimmed(cont[k], n);
          SameBareOpens(Dedent(cont)[k], cont[k], key);
        }
      }
    }
  }

  lemma BlankTail(line: string, n: nat)
    requires BlankLine(line) && Free(line, IsSeparator)
    ensures var r := if |line| >= n then line[n..] else line; BlankLine(r) && Free(r, IsSeparator)
  {
    hide BlankLine, PySpace;
    BlankIff(line);
    if |line| >= n {
      BlankIff(line[n..]);
    }
  }

  lemma SameBareOpens(a: string, b: string, key: string)
    requires Bare(a) == Bare(b)
    ensures Opens(a, key) == Opens(b, key)
  {
  }

  /** Reading the lines of a sub-field. */
  lemma SubOpensNothing(fields: seq<Field>, key: string)
    requires forall f <- fields :: FreeField(f, IsSeparator) && Parsed(f) && forall l <- f.cont :: !Opens(l, key)
    ensures Unshadowed(SubFields(fields), key)
  {
    hide Opens, ParseFields, Dedent, FreeField, Parsed, Free;
    match LastWith(fields, "metadata") {
      case None =>
      case Some(f) =>
        LastWithIs(fields, "metadata");
        ContIsFree(f);
        DedentOpensNothing(f.cont, key);
        DedentFree(f.cont, IsNewline);
        var ls := Dedent(f.cont);
        if ls == [] {
          SplitOne("");
          NothingHere();
        } else {
          SplitOfJoin(ls);
          assert SubFields(fields) == ParseFields(ls);
          forall g | g in ParseFields(ls)
            ensures forall l <- g.cont :: !Opens(l, key)
          {
            ContIsThere(ls, g);
          }
        }
    }
  }

  lemma ContIsFree(f: Field)
    requires FreeField(f, IsSeparator) && Parsed(f)
    ensures forall l <- f.cont :: Free(l, IsSeparator) && Free(l, IsNewline)
  {
  }

  lemma NothingHere()
    ensures ParseFields([""]) == []
  {
    assert [""][1..] == [];
    assert !KeyLine("");
  }

  lemma ContIsThere(lines: seq<string>, f: Field)
    requires f in ParseFields(lines)
    ensures forall l <- f.cont :: l in lines
  {
    hide KeyLine;
    var j := FieldIsLine(lines, f);
    forall m | 0 <= m < |f.cont|
      ensures f.cont[m] in lines
    {
      assert f.cont[m] == lines[j + 1 + m];
    }
  }

  /** No continuation line of the merged fields looks like a key that opens one line of the text. */
  lemma MergedUnshadowed(text: string, key: string, i: nat)
    requires Free(text, IsSeparator) && OnlyOpener(Split(text), key, i)
    ensures Unshadowed(Merged(ParseFields(Split(text))), key)
  {
    hide ParseFields, Opens, Parsed, FreeField, SubFields, Merge, Moves, Quoted, KeyLine, Free, Split;
    var lines := Split(text);
    var fields := ParseFields(lines);
    SplitLinesFree(text);
    ParsedFields(lines);
    SplitFree(text, IsSeparator);
    ParseFree(lines, IsSeparator);
    forall f | f in fields
      ensures forall l <- f.cont :: !Opens(l, key)
    {
      ContOpensNothing(lines, key, i, f);
    }
    SubOpensNothing(fields, key);
    var moves := Moves(fields);
    MovesAre(fields);
    MergeIs(SubFields(fields), moves);
    forall f | f in Merged(fields)
      ensures forall l <- f.cont :: !Opens(l, key)
    {
      LastWithIs(moves, f.key);
      if LastWith(moves, f.key).Some? {
        QuotedKey(LastWith(moves, f.key).value);
        SameCont(LastWith(moves, f.key).value);
      }
    }
  }

  lemma SameCont(f: Field)
    ensures Quoted(f).cont == f.cont
  {
    hide MaybeQuote;
  }

  /** What the readers say of the whole text: the value on the line of the key, or the items behind it. */
  lemma OpenerReads(lines: seq<string>, key: string, i: nat)
    requires OnlyOpener(lines, key, i) && Key(key)
    ensures var f := FieldOn(lines, i);
            && ReadString(lines, key) == ReadingOf(Bare(f.rest))
            && ReadList(lines, key) == if Bare(f.rest) == "" then Items(lines[i + 1..]) else ListOf(f)
  {
    hide Opens, ValueOn, Bare, KeyLine, Items, Key, ReadingOf;
    KeyLineOpens(lines[i], lines[i + 1..ContEnd(lines, i + 1)], key);
    var pre, tail, suf := lines[..i], lines[i..], lines[i + 1..];
    assert lines == pre + tail && tail[0] == lines[i] && tail[1..] == suf;
    SkipsLines(pre, tail, key);
    assert suf + [] == suf;
    SkipsLines(suf, [], key);
  }

  lemma TextReads(text: string, key: string)
    ensures ReadString(TextLines(text), key) == ReadString(Split(text), key)
    ensures ReadList(TextLines(text), key) == ReadList(Split(text), key)
  {
    hide ReadString, ReadList, Split;
    UpToLastReads(Split(text), TextLines(text), key);
  }

  /** For a key that one line of the text opens, and that is moved: the daemon reads from the migrated block
      the string it read from the text exactly when quoting did not have to escape a double quote, and the
      list it read exactly when all of the list was in the field's own lines. */
  lemma DaemonReadsSame(text: string, key: string, i: nat)
    requires Free(text, IsSeparator) && OnlyOpener(Split(text), key, i) && Key(key) && !Standard(key)
    ensures var lines := Split(text);
            var f := FieldOn(lines, i);
            var block := FindBlock(TextLines(Migrate(text).0), "metadata");
            && block.Found?
            && (ReadString(TextLines(block.value), key) == ReadString(TextLines(text), key) <==> Quotable(key, f.rest))
            && (ReadList(TextLines(block.value), key) == ReadList(TextLines(text), key)
                <==> ListStays(f, lines[ContEnd(lines, i + 1)..]))
  {
    hide ParseFields, ReadString, ReadList, FindBlock, TextLines, Migrate, Moves, Merged, PrintField, Opens, Key, Bare,
         ReadingOf, Quotable, Free, KeyLine, Items, Split, ItemFirst, Continues, Unshadowed, Standard;
    var lines := Split(text);
    var fields := ParseFields(lines);
    var f, n := FieldOn(lines, i), ContEnd(lines, i + 1);
    OnlyField(lines, key, i);
    MovesAre(fields);
    FieldMoved(fields, key, f);
    MergedUnshadowed(text, key, i);
    ParsersAgree(text, key);
    SplitLinesFree(text);
    ParsedFields(lines);
    ContOpensNothing(lines, key, i, f);
    OwnReads(f);
    OpenerReads(lines, key, i);
    TextReads(text, key);
    assert lines[i + 1..] == f.cont + lines[n..];
    ItemsOver(f.cont, lines[n..]);
  }

  lemma FieldMoved(fields: seq<Field>, key: string, f: Field)
    requires f in fields && f.key == key && !Standard(key) && forall g <- fields | g.key == key :: g == f
    ensures HasField(Moves(fields), key) && LastWith(Moves(fields), key) == Some(f)
  {
    hide Standard, Moves;
    MovesAre(fields);
    LastWithIs(Moves(fields), key);
    assert f in Moves(fields);
    var k :| 0 <= k < |Moves(fields)| && Moves(fields)[k] == f;
    assert Moves(fields)[k].key == key;
  }

  // ---- A list that is lost ------------------------------------------------------------------------------

  /** Items that are not indented belong to no field, so the migrator drops them: the daemon reads `a` from
      the list before the migration and nothing after it. */
  lemma UnindentedListIsLost()
    ensures var text := Join(["keywords:", "- a"], "\n");
            var block := FindBlock(TextLines(Migrate(text).0), "metadata");
            && ReadList(TextLines(text), "keywords") == Some(["a"])
            && block.Found? && ReadList(TextLines(block.value), "keywords") == Some([])
  {
    hide ParseFields, ReadList, FindBlock, TextLines, Migrate, Moves, Merged, PrintField;
    var lines := ["keywords:", "- a"];
    var text := Join(lines, "\n");
    var f := Field("keywords", "", []);
    UnindentedLines(lines);
    UnindentedParses(lines, f);
    UnindentedReads(lines);
    UnindentedMoves(f);
    ParsersAgree(text, "keywords");
    UnindentedOwn(f);
  }

  lemma UnindentedLines(lines: seq<string>)
    requires lines == ["keywords:", "- a"]
    ensures var text := Join(lines, "\n");
            Free(text, IsSeparator) && Split(text) == lines && TextLines(text) == lines
  {
    assert Free("keywords:", IsNewline) && Free("- a", IsNewline);
    assert Free("keywords:", IsSeparator) && Free("- a", IsSeparator);
    hide Free, Split, Join;
    SplitOfJoin(lines);
    JoinFree(lines, IsSeparator);
  }

  lemma KeywordsParsed(f: Field)
    requires f == Field("keywords", "", [])
    ensures Parsed(f) && Key(f.key) && Header(f) == "keywords:"
  {
    assert Free("keywords", NotKeyChar) && Free("keywords", IsNewline) && Free("", IsNewline);
    assert "keywords" + ":" + "" == "keywords:";
  }

  lemma ItemIsNoField()
    ensures !KeyLine("- a") && !ContLine("- a") && ParseFields(["- a"]) == []
  {
    var item := "- a";
    assert item[..1] == "-" && !KeyChar(item[1]);
    FirstOfIs(item, NotKeyChar, 1);
    var one: seq<string> := [item];
    var none: seq<string> := [];
    hide KeyLine;
    assert one[1..] == none && ParseFields(none) == [];
  }

  lemma UnindentedParses(lines: seq<string>, f: Field)
    requires lines == ["keywords:", "- a"] && f == Field("keywords", "", [])
    ensures ParseFields(lines) == [f] && Parsed(f) && Key(f.key)
  {
    hide KeyLine, ContLine, ParseFields, Parsed, Key, Header;
    KeywordsParsed(f);
    ItemIsNoField();
    ParsePrinted(f, ["- a"]);
    assert PrintField(f) + ["- a"] == lines;
  }

  lemma ItemIsRead()
    ensures Items(["- a"]) == Some(["a"])
  {
    var item := "- a";
    TrimOfTrimmed(item, RustSpace);
    TrimOfTrimmed("a", RustSpace);
    assert item == "- " + "a" && item[2..] == "a";
    var one: seq<string> := [item];
    var none: seq<string> := [];
    assert one[1..] == none && Items(none) == Some([]);
    hide Trim;
    assert Bare(one[0]) == item && IsItem(item) && Unquoted("a") == Some("a");
    var rest: seq<string> := [];
    assert Items(one) == Some(["a"] + rest) && ["a"] + rest == ["a"];
  }

  lemma UnindentedReads(lines: seq<string>)
    requires lines == ["keywords:", "- a"]
    ensures ReadList(lines, "keywords") == Some(["a"])
  {
    hide Opens, ValueOn, Bare, Key, Header, Items;
    var f := Field("keywords", "", []);
    KeywordsParsed(f);
    HeaderOpens(f, "keywords");
    EmptyIsNoItem();
    ItemIsRead();
    assert lines[1..] == ["- a"];
  }

  lemma UnindentedMoves(f: Field)
    requires f == Field("keywords", "", [])
    ensures Moves([f]) == [f] && Merged([f]) == [f] && HasField([f], "keywords") && Unshadowed([f], "keywords")
    ensures LastWith([f], "keywords") == Some(f)
  {
    hide BlankLine;
    assert |"keywords"| != |"name"| && |"keywords"| != |"description"| && "keywords"[0] != "metadata"[0];
    assert [f][1..] == [] && [f][..0] == [] && [f][0] == f;
    assert Moves([]) == [];
    assert Moves([f]) == [f];
    assert LastWith([], "metadata") == None;
    assert SubFields([f]) == [];
    assert Merge([], []) == [];
    assert Trim("", PySpace) == "";
    assert Quoted(f) == f;
    assert Merge([], [f]) == Put([], f) == [f];
  }

  lemma UnindentedOwn(f: Field)
    requires f == Field("keywords", "", [])
    ensures ReadList(PrintField(f), "keywords") == Some([])
  {
    UnindentedParses(["keywords:", "- a"], f);
    OwnReads(f);
    TrimOfTrimmed("", RustSpace);
  }
}
