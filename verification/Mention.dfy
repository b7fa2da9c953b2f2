/** Mentions in and references out (src/agents/mention.rs): the whole-text renderer, its streaming
    form, and the inbound resolver. */
module Mention {
  import opened Text

  // ---- The registry -----------------------------------------------------------------------------

  /** What this module asks of the user registry: `ids` maps canonical usernames to user ids, `names`
      back; `fold` is the normalisation a looked-up name goes through. */
  datatype Registry = Registry(ns: string, ids: map<string, string>, names: map<string, string>,
      fold: string -> string) {
    function FindByUsername(token: string): Option<string> {
      if fold(token) in ids then Some(ids[fold(token)]) else None
    }

    function UsernameOf(id: string): Option<string> {
      if id in names && names[id] != "" then Some(names[id]) else None
    }
  }

  // ---- Tags -------------------------------------------------------------------------------------

  /** The opening of a reference tag. */
  function Open(): string { "<ref id=\"" }

  function Tag(id: string): string {
    Open() + id + "\"/>"
  }

  /** `format!("@{username}")` for a known user of this namespace, else the tag itself. */
  function RenderOne(id: string, reg: Registry): string {
    if !(reg.ns + "/u/" <= id) then Tag(id)
    else
      match reg.UsernameOf(id)
      case Some(name) => "@" + name
      case None => Tag(id)
  }

  predicate OpenAt(s: string, i: nat) {
    i <= |s| && Open() <= s[i..]
  }

  /** The first opening from `i` on, or the length. */
  function FindOpen(s: string, i: nat): (n: nat)
    requires i <= |s|
    ensures i <= n <= |s|
    ensures n < |s| ==> OpenAt(s, n)
    ensures forall k | i <= k < n :: !OpenAt(s, k)
    decreases |s| - i
  {
    if i == |s| || OpenAt(s, i) then i else FindOpen(s, i + 1)
  }

  /** The id of the tag opened at `i`, when its attribute is closed and `/>` follows. */
  function TagAt(s: string, i: nat): (id: Option<string>)
    requires OpenAt(s, i)
    ensures id.Some? ==> Free(id.value, IsQuote) && i + |id.value| + 12 <= |s|
  {
    assert |Open()| == 9;
    var after := s[i + 9..];
    var quote := FirstOf(after, IsQuote);
    if quote == |after| || !("/>" <= after[quote + 1..]) then None else Some(after[..quote])
  }

  /** `render_refs`: an opening that does not lead to a complete tag ends the rendering. */
  function Render(text: string, reg: Registry): string
    decreases |text|
  {
    var open := FindOpen(text, 0);
    if open == |text| then text
    else
      match TagAt(text, open)
      case None => text
      case Some(id) => text[..open] + RenderOne(id, reg) + Render(text[open + |id| + 12..], reg)
  }

  // ---- Rendering piece by piece -----------------------------------------------------------------

  lemma OpenShape()
    ensures |Open()| == 9 && Open()[0] == '<'
    ensures forall k | 0 < k < 9 :: Open()[k] != '<' && Open()[k] != '>' && Open()[k] != '@'
  {
  }

  lemma OpenAtTail(s: string, i: nat, k: nat)
    requires i <= |s| && k <= |s| - i
    ensures OpenAt(s[i..], k) <==> OpenAt(s, i + k)
  {
    assert s[i..][k..] == s[i + k..];
  }

  lemma {:induction false} FindOpenTail(s: string, i: nat, k: nat)
    requires i <= |s| && k <= |s| - i
    ensures FindOpen(s, i + k) == i + FindOpen(s[i..], k)
    decreases |s| - i - k
  {
    hide OpenAt;
    OpenAtTail(s, i, k);
    if k < |s| - i && !OpenAt(s, i + k) {
      FindOpenTail(s, i, k + 1);
    }
  }

  lemma TagAtTail(s: string, i: nat, k: nat)
    requires i <= |s| && k <= |s| - i && OpenAt(s, i + k)
    ensures OpenAt(s[i..], k) && TagAt(s[i..], k) == TagAt(s, i + k)
  {
    OpenAtTail(s, i, k);
    OpenShape();
    assert s[i..][k + 9..] == s[i + k + 9..];
  }

  lemma RenderIs(text: string, open: nat, reg: Registry)
    requires open == FindOpen(text, 0)
    ensures open < |text| ==> OpenAt(text, open)
    ensures Render(text, reg) ==
              if open == |text| || TagAt(text, open).None? then text
              else
                var id := TagAt(text, open).value;
                text[..open] + RenderOne(id, reg) + Render(text[open + |id| + 12..], reg)
  {
    hide RenderOne, TagAt, FindOpen, OpenAt;
  }

  lemma FindOpenSkips(text: string)
    requires text != "" && !OpenAt(text, 0)
    ensures FindOpen(text, 0) == 1 + FindOpen(text[1..], 0)
  {
    hide OpenAt;
    FindOpenTail(text, 1, 0);
  }

  /** A character that opens nothing is copied. */
  lemma RenderChar(text: string, reg: Registry)
    requires text != "" && !OpenAt(text, 0)
    ensures Render(text, reg) == [text[0]] + Render(text[1..], reg)
  {
    hide OpenAt, RenderOne, TagAt, Render, FindOpen;
    var tail := text[1..];
    var open := FindOpen(tail, 0);
    FindOpenSkips(text);
    RenderIs(tail, open, reg);
    RenderIs(text, 1 + open, reg);
    assert text == [text[0]] + tail;
    if open < |tail| {
      TagAtTail(text, 1, open);
      if TagAt(tail, open).Some? {
        var n := open + |TagAt(tail, open).value| + 12;
        SliceShift(text, open);
        SliceShift(text, n);
        ConcatFour([text[0]], tail[..open], RenderOne(TagAt(tail, open).value, reg), Render(tail[n..], reg));
      }
    }
  }

  lemma SliceShift(text: string, n: nat)
    requires n < |text|
    ensures text[..1 + n] == [text[0]] + text[1..][..n] && text[1 + n..] == text[1..][n..]
  {
  }

  lemma TagAtStart(id: string, rest: string)
    requires Free(id, IsQuote)
    ensures OpenAt(Tag(id) + rest, 0) && TagAt(Tag(id) + rest, 0) == Some(id)
    ensures |Tag(id)| == |id| + 12
  {
    var text := Tag(id) + rest;
    OpenShape();
    hide Open;
    assert text[..9] == Open();
    var after := text[9..];
    assert after == id + ("\"/>" + rest);
    assert after[..|id|] == id;
    FirstOfIs(after, IsQuote, |id|);
    assert after[|id| + 1..] == "/>" + rest;
  }

  /** A complete tag is rendered. */
  lemma RenderTag(id: string, rest: string, reg: Registry)
    requires Free(id, IsQuote)
    ensures Render(Tag(id) + rest, reg) == RenderOne(id, reg) + Render(rest, reg)
  {
    hide OpenAt, RenderOne, TagAt, Tag;
    var text := Tag(id) + rest;
    TagAtStart(id, rest);
    assert text[..0] == "" && text[|id| + 12..] == rest;
  }

  // ---- Streaming --------------------------------------------------------------------------------

  predicate IsLess(c: char) { c == '<' }

  predicate IsGreater(c: char) { c == '>' }

  /** The last `<` before `n`, or -1. */
  function LastLess(text: string, n: nat): (k: int)
    requires n <= |text|
    ensures -1 <= k < n
    ensures k >= 0 ==> text[k] == '<'
    ensures forall m | k < m < n :: text[m] != '<'
  {
    if n == 0 || text[n - 1] == '<' then n - 1 else LastLess(text, n - 1)
  }

  /** Where the unfinished tag that ends `text` starts, or the length: the last `<`, with `<ref` there
      and no `>` behind it. */
  function HeldFrom(text: string): (n: nat)
    ensures n <= |text|
  {
    var lt := LastLess(text, |text|);
    if lt >= 0 && Free(text[lt..], IsGreater) && "<ref" <= text[lt..] then lt else |text|
  }

  /** What a stream of chunks pushes out, and flushes at its end. */
  function Streamed(pending: string, chunks: seq<string>, reg: Registry): string
    decreases |chunks|
  {
    if chunks == [] then pending
    else
      var text := pending + chunks[0];
      var n := HeldFrom(text);
      Render(text[..n], reg) + Streamed(text[n..], chunks[1..], reg)
  }

  /** Every opening starts a complete tag whose id holds no angle bracket. */
  predicate Clean(s: string, i: nat)
    requires OpenAt(s, i)
  {
    TagAt(s, i).Some? && Free(TagAt(s, i).value, IsLess) && Free(TagAt(s, i).value, IsGreater)
  }

  ghost predicate WellFormed(s: string) {
    forall i | 0 <= i <= |s| && OpenAt(s, i) :: Clean(s, i)
  }

  /** The id of the tag opened at `i`, and where that tag ends. */
  ghost function TagId(s: string, i: nat): string
    requires WellFormed(s) && OpenAt(s, i)
  {
    TagAt(s, i).value
  }

  ghost function TagEnd(s: string, i: nat): (e: nat)
    requires WellFormed(s) && OpenAt(s, i)
    ensures i + 12 <= e <= |s|
  {
    i + |TagId(s, i)| + 12
  }

  lemma TagLooks(s: string, i: nat)
    requires WellFormed(s) && OpenAt(s, i)
    ensures s[i..TagEnd(s, i)] == Tag(TagId(s, i)) && Free(TagId(s, i), IsQuote)
    ensures forall k | i < k < TagEnd(s, i) :: s[k] != '<'
    ensures forall k | i < k < TagEnd(s, i) - 1 :: s[k] != '>'
    ensures s[TagEnd(s, i) - 1] == '>'
  {
    OpenShape();
    var id := TagAt(s, i).value;
    var after := s[i + 9..];
    var quote := FirstOf(after, IsQuote);
    assert quote == |id| && after[..quote] == id && after[quote] == '"';
    var e := TagEnd(s, i);
    hide Open;
    assert s[i..i + 9] == Open();
    assert forall k | 0 <= k < |id| :: s[i + 9 + k] == id[k];
    assert s[e - 3] == '"' && s[e - 2] == '/' && s[e - 1] == '>';
    assert s[i..e] == Open() + id + "\"/>";
    forall k | i < k < e
      ensures s[k] != '<' && (k < e - 1 ==> s[k] != '>')
    {
      if k < i + 9 {
        assert s[k] == Open()[k - i];
      } else if k < e - 3 {
        assert s[k] == id[k - i - 9];
      }
    }
  }

  /** A cut falls after the first, second or third character of a tag opened at `i`. */
  predicate SplitEarly(cuts: set<nat>, i: nat) {
    i + 1 in cuts || i + 2 in cuts || i + 3 in cuts
  }

  /** The rendering from `i` on, where tags split early come out raw. */
  ghost function Pieces(s: string, i: nat, cuts: set<nat>, reg: Registry): string
    requires WellFormed(s) && i <= |s|
    decreases |s| - i
  {
    if i == |s| then ""
    else if OpenAt(s, i) then
      var id := TagId(s, i);
      (if SplitEarly(cuts, i) then Tag(id) else RenderOne(id, reg)) + Pieces(s, TagEnd(s, i), cuts, reg)
    else [s[i]] + Pieces(s, i + 1, cuts, reg)
  }

  lemma NoOpenInside(s: string, i: nat, x: nat)
    requires WellFormed(s) && OpenAt(s, i) && i < x < TagEnd(s, i)
    ensures !OpenAt(s, x)
  {
    TagLooks(s, i);
    OpenShape();
  }

  /** From inside a tag, the rest of the tag is copied. */
  lemma {:induction false} PiecesInside(s: string, i: nat, x: nat, cuts: set<nat>, reg: Registry)
    requires WellFormed(s) && OpenAt(s, i) && i < x <= TagEnd(s, i)
    ensures Pieces(s, x, cuts, reg) == s[x..TagEnd(s, i)] + Pieces(s, TagEnd(s, i), cuts, reg)
    decreases TagEnd(s, i) - x
  {
    hide OpenAt, TagEnd, WellFormed, Pieces;
    var e := TagEnd(s, i);
    var rest := Pieces(s, e, cuts, reg);
    if x < e {
      NoOpenInside(s, i, x);
      PiecesInside(s, i, x + 1, cuts, reg);
      PiecesCopy(s, x, cuts, reg);
      TakeOne(s, x, e, rest);
    } else {
      NothingBefore(s, e, rest);
    }
  }

  lemma TakeOne(s: string, x: nat, e: nat, rest: string)
    requires x < e <= |s|
    ensures s[x..e] + rest == [s[x]] + (s[x + 1..e] + rest)
  {
  }

  lemma NothingBefore(s: string, e: nat, rest: string)
    requires e <= |s|
    ensures s[e..e] + rest == rest
  {
  }

  lemma PiecesCopy(s: string, x: nat, cuts: set<nat>, reg: Registry)
    requires WellFormed(s) && x < |s| && !OpenAt(s, x)
    ensures Pieces(s, x, cuts, reg) == [s[x]] + Pieces(s, x + 1, cuts, reg)
  {
    hide OpenAt, TagEnd, WellFormed, RenderOne, Tag;
  }

  lemma {:induction false} ShortRender(text: string, reg: Registry)
    requires |text| < 9
    ensures Render(text, reg) == text
  {
    if text != "" {
      hide OpenAt, Open, Render;
      ShortRender(text[1..], reg);
      RenderChar(text, reg);
    } else {
      OpenShape();
    }
  }

  lemma OpenAtSlice(s: string, d: nat, e: nat)
    requires d <= e <= |s| && OpenAt(s[d..e], 0)
    ensures OpenAt(s, d)
  {
    hide Open;
    assert s[d..e] <= s[d..];
    assert s[d..e][0..] == s[d..e];
  }

  /** Between two boundaries, tags wholly inside are not split early, and a tag cut by the far end is. */
  ghost predicate Bounded(s: string, d: nat, e: nat, cuts: set<nat>)
    requires WellFormed(s)
  {
    forall i | d <= i < e && i <= |s| && OpenAt(s, i) ::
      if TagEnd(s, i) <= e then !SplitEarly(cuts, i) else e < i + 4 && e in cuts
  }

  lemma SegmentChar(s: string, d: nat, e: nat, reg: Registry)
    requires d < e <= |s| && !OpenAt(s, d)
    ensures Render(s[d..e], reg) == [s[d]] + Render(s[d + 1..e], reg)
  {
    hide OpenAt, Render;
    if OpenAt(s[d..e], 0) {
      OpenAtSlice(s, d, e);
    } else {
      RenderChar(s[d..e], reg);
      assert s[d..e][1..] == s[d + 1..e];
    }
  }

  lemma SegmentTag(s: string, d: nat, e: nat, reg: Registry)
    requires WellFormed(s) && OpenAt(s, d) && TagEnd(s, d) <= e <= |s|
    ensures Render(s[d..e], reg) == RenderOne(TagId(s, d), reg) + Render(s[TagEnd(s, d)..e], reg)
  {
    hide OpenAt, TagEnd, TagId, WellFormed, RenderOne, Tag, Render;
    TagLooks(s, d);
    var end := TagEnd(s, d);
    assert s[d..e] == s[d..end] + s[end..e];
    RenderTag(TagId(s, d), s[end..e], reg);
  }

  lemma PiecesIs(s: string, i: nat, cuts: set<nat>, reg: Registry)
    requires WellFormed(s) && i < |s|
    ensures Pieces(s, i, cuts, reg) ==
              if OpenAt(s, i) then
                (if SplitEarly(cuts, i) then Tag(TagId(s, i)) else RenderOne(TagId(s, i), reg))
                    + Pieces(s, TagEnd(s, i), cuts, reg)
              else [s[i]] + Pieces(s, i + 1, cuts, reg)
  {
  }

  /** A boundary early inside a tag leaves both of its parts raw. */
  lemma SegmentSplits(s: string, d: nat, e: nat, cuts: set<nat>, reg: Registry)
    requires WellFormed(s) && OpenAt(s, d) && d < e < d + 4 && e < TagEnd(s, d) && e in cuts
    ensures Render(s[d..e], reg) + Pieces(s, e, cuts, reg) == Pieces(s, d, cuts, reg)
  {
    hide OpenAt, TagEnd, TagId, WellFormed, RenderOne, Tag, Render, Pieces;
    var end := TagEnd(s, d);
    PiecesIs(s, d, cuts, reg);
    ShortRender(s[d..e], reg);
    PiecesInside(s, d, e, cuts, reg);
    TagLooks(s, d);
    JoinSlices(s, d, e, end, Pieces(s, end, cuts, reg));
  }

  lemma JoinSlices(s: string, d: nat, e: nat, end: nat, rest: string)
    requires d <= e <= end <= |s|
    ensures s[d..e] + (s[e..end] + rest) == s[d..end] + rest
  {
  }

  /** Such a piece of the text renders to its part of the whole. */
  lemma {:induction false} SegmentRenders(s: string, d: nat, e: nat, cuts: set<nat>, reg: Registry)
    requires WellFormed(s) && d <= e <= |s| && Bounded(s, d, e, cuts)
    ensures Render(s[d..e], reg) + Pieces(s, e, cuts, reg) == Pieces(s, d, cuts, reg)
    decreases e - d
  {
    hide OpenAt, TagEnd, TagId, WellFormed, RenderOne, Tag, Render, Pieces;
    if d == e {
      ShortRender(s[d..e], reg);
    } else if OpenAt(s, d) {
      if TagEnd(s, d) <= e {
        SegmentRenders(s, TagEnd(s, d), e, cuts, reg);
        SegmentTag(s, d, e, reg);
        PiecesIs(s, d, cuts, reg);
      } else {
        SegmentSplits(s, d, e, cuts, reg);
      }
    } else {
      SegmentRenders(s, d + 1, e, cuts, reg);
      SegmentChar(s, d, e, reg);
      PiecesIs(s, d, cuts, reg);
    }
  }

  /** Where the chunks end, the first one starting at `base`. */
  function Cuts(chunks: seq<string>, base: nat): set<nat> {
    if chunks == [] then {} else {base + |chunks[0]|} + Cuts(chunks[1..], base + |chunks[0]|)
  }

  lemma {:induction false} CutsAhead(chunks: seq<string>, base: nat)
    ensures forall x <- Cuts(chunks, base) :: base <= x
  {
    if chunks != [] {
      CutsAhead(chunks[1..], base + |chunks[0]|);
    }
  }

  lemma TagHasGreater(s: string, d: nat)
    requires WellFormed(s) && OpenAt(s, d)
    ensures !Free(s[d..], IsGreater)
  {
    TagLooks(s, d);
    assert s[d..][TagEnd(s, d) - 1 - d] == '>';
  }

  /** Text held back has no tag in it that was ever complete. */
  lemma {:induction false} NoTagAhead(s: string, d: nat, cuts: set<nat>, reg: Registry)
    requires WellFormed(s) && d <= |s| && Free(s[d..], IsGreater)
    ensures Pieces(s, d, cuts, reg) == s[d..]
    decreases |s| - d
  {
    hide OpenAt, TagEnd, WellFormed, RenderOne, Tag;
    if d < |s| {
      if OpenAt(s, d) {
        TagHasGreater(s, d);
      } else {
        SliceFree(s[d..], 1, |s| - d, IsGreater);
        assert s[d..][1..|s| - d] == s[d + 1..];
        NoTagAhead(s, d + 1, cuts, reg);
        assert s[d..] == [s[d]] + s[d + 1..];
      }
    }
  }

  // ---- The held tail ------------------------------------------------------------------------------

  lemma HeldSpec(text: string)
    ensures var n := HeldFrom(text);
            && Free(text[n..], IsGreater)
            && (n < |text| ==> n + 4 <= |text| && text[n] == '<' && forall k | n < k < |text| :: text[k] != '<')
  {
  }

  /** No cut up to `c` falls early in a tag opened at `d` or later. */
  ghost predicate NoEarlyCut(s: string, d: nat, c: nat, cuts: set<nat>)
  {
    forall i, x | d <= i <= |s| && OpenAt(s, i) && x in cuts && x <= c :: !(i < x < i + 4)
  }

  /** A tag the consumed text cuts late is held back whole. */
  lemma LateCutIsHeld(s: string, d: nat, c: nat, i: nat)
    requires WellFormed(s) && d <= i && OpenAt(s, i) && i + 4 <= c < TagEnd(s, i)
    ensures HeldFrom(s[d..c]) == i - d
  {
    hide WellFormed, TagId;
    var text := s[d..c];
    TagLooks(s, i);
    OpenShape();
    assert Open()[..4] == "<ref" && s[i..][..4] == Open()[..4];
    assert text[i - d..] == s[i..c] && s[i..c][..4] == s[i..][..4];
    assert text[i - d] == s[i];
    forall m | i - d < m < |text|
      ensures text[m] != '<'
    {
      assert text[m] == s[d + m];
    }
    assert Free(text[i - d..], IsGreater);
  }

  /** What a push renders is bounded by the cut it ends at. */
  lemma PushIsBounded(s: string, d: nat, c: nat, next: nat, cuts: set<nat>)
    requires WellFormed(s) && d <= c <= next <= |s| && next in cuts
    requires NoEarlyCut(s, d, c, cuts) && forall x <- cuts :: x <= c || next <= x
    ensures Bounded(s, d, d + HeldFrom(s[d..next]), cuts)
  {
    hide WellFormed, OpenAt, HeldFrom, TagEnd;
    var e := d + HeldFrom(s[d..next]);
    HeldSpec(s[d..next]);
    assert e < next ==> s[d..next][e - d] == s[e];
    forall i | d <= i < e && i <= |s| && OpenAt(s, i)
      ensures if TagEnd(s, i) <= e then !SplitEarly(cuts, i) else e < i + 4 && e in cuts
    {
      var end := TagEnd(s, i);
      if end > e {
        TagLooks(s, i);
        if next >= i + 4 {
          LateCutIsHeld(s, d, next, i);
        }
      }
    }
  }

  lemma PushLeavesNoEarlyCut(s: string, d: nat, c: nat, next: nat, cuts: set<nat>)
    requires WellFormed(s) && d <= c <= next <= |s|
    requires NoEarlyCut(s, d, c, cuts) && forall x <- cuts :: x <= c || next <= x
    ensures NoEarlyCut(s, d + HeldFrom(s[d..next]), next, cuts)
  {
    hide WellFormed, HeldFrom, TagEnd;
    var e := d + HeldFrom(s[d..next]);
    HeldSpec(s[d..next]);
    OpenShape();
    forall i, x | e <= i <= |s| && OpenAt(s, i) && x in cuts && x <= next
      ensures !(i < x < i + 4)
    {
      if x > c && i < next {
        assert s[d..next][i - d] == s[i] == '<';
      }
    }
  }

  /** The stream of any chunking comes out as the pieces its cuts leave. */
  lemma {:induction false} StreamedPieces(s: string, d: nat, c: nat, chunks: seq<string>, cuts: set<nat>, reg: Registry)
    requires WellFormed(s) && d <= c <= |s| && s[c..] == Flat(chunks) && Free(s[d..c], IsGreater)
    requires Cuts(chunks, c) <= cuts && forall x <- cuts :: x <= c || x in Cuts(chunks, c)
    requires NoEarlyCut(s, d, c, cuts)
    ensures Streamed(s[d..c], chunks, reg) == Pieces(s, d, cuts, reg)
    decreases |chunks|
  {
    hide WellFormed, HeldFrom, TagEnd, Render, Pieces, Bounded, NoEarlyCut;
    if chunks == [] {
      assert c == |s| && s[d..c] == s[d..];
      NoTagAhead(s, d, cuts, reg);
    } else {
      var next := c + |chunks[0]|;
      assert s[c..][..|chunks[0]|] == chunks[0] && s[c..][|chunks[0]|..] == Flat(chunks[1..]);
      assert next <= |s| && s[next..] == Flat(chunks[1..]);
      var text := s[d..c] + chunks[0];
      assert text == s[d..next];
      var n := HeldFrom(text);
      CutsAhead(chunks[1..], next);
      PushIsBounded(s, d, c, next, cuts);
      PushLeavesNoEarlyCut(s, d, c, next, cuts);
      HeldSpec(text);
      assert text[n..] == s[d + n..next] && text[..n] == s[d..d + n];
      SegmentRenders(s, d, d + n, cuts, reg);
      StreamedPieces(s, d + n, next, chunks[1..], cuts, reg);
    }
  }

  /** With no cuts the pieces are the whole-text rendering. */
  lemma {:induction false} PiecesUncut(s: string, i: nat, reg: Registry)
    requires WellFormed(s) && i <= |s|
    ensures Pieces(s, i, {}, reg) == Render(s[i..], reg)
    decreases |s| - i
  {
    hide WellFormed, OpenAt, TagEnd, TagId, Render, RenderOne, Tag;
    if i == |s| {
      ShortRender(s[i..], reg);
    } else {
      assert s[i..|s|] == s[i..];
      if OpenAt(s, i) {
        PiecesUncut(s, TagEnd(s, i), reg);
        SegmentTag(s, i, |s|, reg);
        assert s[TagEnd(s, i)..|s|] == s[TagEnd(s, i)..];
      } else {
        PiecesUncut(s, i + 1, reg);
        SegmentChar(s, i, |s|, reg);
        assert s[i + 1..|s|] == s[i + 1..];
      }
    }
  }

  lemma RenderedOrRaw(id: string, reg: Registry)
    ensures RenderOne(id, reg) == Tag(id) || (RenderOne(id, reg) != "" && RenderOne(id, reg)[0] == '@')
    ensures Tag(id) != "" && Tag(id)[0] == '<'
  {
    OpenShape();
    hide Open;
    assert Tag(id)[0] == Open()[0];
  }

  /** Splitting a tag early shows exactly when rendering would have changed that tag. */
  lemma {:induction false} PiecesIff(s: string, i: nat, cuts: set<nat>, reg: Registry)
    requires WellFormed(s) && i <= |s|
    ensures Pieces(s, i, cuts, reg) == Pieces(s, i, {}, reg) <==>
              forall k | i <= k <= |s| && OpenAt(s, k) && SplitEarly(cuts, k) ::
                  RenderOne(TagId(s, k), reg) == Tag(TagId(s, k))
    decreases |s| - i
  {
    hide WellFormed, OpenAt, TagEnd, TagId, RenderOne, Tag, Pieces;
    if i == |s| {
      EndOpensNothing(s);
      assert Pieces(s, i, cuts, reg) == Pieces(s, i, {}, reg) by { PiecesEnd(s, cuts, reg); PiecesEnd(s, {}, reg); }
    } else {
      PiecesIs(s, i, cuts, reg);
      PiecesIs(s, i, {}, reg);
      if OpenAt(s, i) {
        var id, e := TagId(s, i), TagEnd(s, i);
        forall k | i < k < e
          ensures !OpenAt(s, k)
        {
          NoOpenInside(s, i, k);
        }
        PiecesIff(s, e, cuts, reg);
        var a, b := Pieces(s, e, cuts, reg), Pieces(s, e, {}, reg);
        PrefixCancels(RenderOne(id, reg), a, b);
        RenderedOrRaw(id, reg);
        if SplitEarly(cuts, i) && RenderOne(id, reg) != Tag(id) {
          assert (Tag(id) + a)[0] == '<' && (RenderOne(id, reg) + b)[0] == '@';
        }
      } else {
        PiecesIff(s, i + 1, cuts, reg);
        PrefixCancels([s[i]], Pieces(s, i + 1, cuts, reg), Pieces(s, i + 1, {}, reg));
      }
    }
  }

  lemma EndOpensNothing(s: string)
    ensures !OpenAt(s, |s|)
  {
    OpenShape();
  }

  lemma PiecesEnd(s: string, cuts: set<nat>, reg: Registry)
    requires WellFormed(s)
    ensures Pieces(s, |s|, cuts, reg) == ""
  {
  }

  /** Streaming equals whole-text rendering, for every chunking of a well-formed text, exactly when no
      cut falls after the first, second or third character of a tag that rendering changes. */
  lemma StreamingIff(chunks: seq<string>, reg: Registry)
    requires WellFormed(Flat(chunks))
    ensures var s := Flat(chunks);
            Streamed("", chunks, reg) == Render(s, reg) <==>
              forall k | 0 <= k <= |s| && OpenAt(s, k) && SplitEarly(Cuts(chunks, 0), k) ::
                RenderOne(TagId(s, k), reg) == Tag(TagId(s, k))
  {
    hide WellFormed, OpenAt, TagEnd, TagId, Render, RenderOne, Tag, Pieces, Streamed;
    var s := Flat(chunks);
    var cuts := Cuts(chunks, 0);
    assert s[0..0] == "" && s[0..] == s;
    StreamedPieces(s, 0, 0, chunks, cuts, reg);
    PiecesIff(s, 0, cuts, reg);
    PiecesUncut(s, 0, reg);
  }

  // ---- The renderers as they run --------------------------------------------------------------------

  /** `render_refs`, consuming the text from the left. */
  method RenderRefs(text: string, reg: Registry) returns (out: string)
    ensures out == Render(text, reg)
  {
    hide OpenAt, RenderOne, TagAt, FindOpen, Render;
    out := "";
    var rest := text;
    while true
      invariant out + Render(rest, reg) == Render(text, reg)
      decreases |rest|
    {
      var open := FindOpen(rest, 0);
      RenderIs(rest, open, reg);
      if open == |rest| {
        return out + rest;
      }
      match TagAt(rest, open) {
        case None =>
          TailKept(out, rest, open);
          return out + rest[..open] + rest[open..];
        case Some(id) =>
          OutGrows(out, rest[..open], RenderOne(id, reg), Render(rest[open + |id| + 12..], reg));
          out := out + rest[..open] + RenderOne(id, reg);
          rest := rest[open + |id| + 12..];
      }
    }
  }

  lemma TailKept(out: string, rest: string, n: nat)
    requires n <= |rest|
    ensures out + rest[..n] + rest[n..] == out + rest
  {
  }

  lemma OutGrows(out: string, a: string, b: string, c: string)
    ensures out + a + b + c == out + (a + b + c)
  {
  }

  /** The streaming renderer. */
  class RefRenderer {
    var pending: string

    constructor ()
      ensures pending == ""
    {
      pending := "";
    }

    /** What is pushed now and what stays pending are the next step of `Streamed`. */
    method Push(delta: string, reg: Registry) returns (out: string)
      modifies this
      ensures var text := old(pending) + delta;
              var n := HeldFrom(text);
              out == Render(text[..n], reg) && pending == text[n..]
    {
      pending := pending + delta;
      var lt := LastLess(pending, |pending|);
      if lt >= 0 {
        var tail := pending[lt..];
        if Free(tail, IsGreater) && "<ref" <= tail {
          var head := pending[..lt];
          pending := tail;
          out := RenderRefs(head, reg);
          return;
        }
      }
      out := RenderRefs(pending, reg);
      assert pending[..|pending|] == pending;
      pending := "";
    }

    method Flush() returns (out: string)
      modifies this
      ensures out == old(pending) && pending == ""
    {
      out := pending;
      pending := "";
    }
  }

  /** A whole stream through one renderer. */
  method StreamAll(chunks: seq<string>, reg: Registry) returns (out: string)
    ensures out == Streamed("", chunks, reg)
  {
    hide Render, HeldFrom;
    var r := new RefRenderer();
    out := "";
    var i := 0;
    while i < |chunks|
      invariant 0 <= i <= |chunks|
      invariant out + Streamed(r.pending, chunks[i..], reg) == Streamed("", chunks, reg)
    {
      assert chunks[i..][1..] == chunks[i + 1..];
      var pushed := r.Push(chunks[i], reg);
      out := out + pushed;
      i := i + 1;
    }
    assert chunks[i..] == [];
    var last := r.Flush();
    out := out + last;
  }

  // ---- Inbound --------------------------------------------------------------------------------------

  datatype Resolution = Resolved(text: string) | Failed(reply: string)

  predicate IsAt(c: char) { c == '@' }

  /** Characters of an email's local part: an `@` behind one is not a mention. */
  predicate EmailLocal(c: char) {
    || '0' <= c <= '9' || 'a' <= c <= 'z' || 'A' <= c <= 'Z'
    || c == '.' || c == '_' || c == '%' || c == '+' || c == '-'
  }

  /** Characters that end a mention. */
  predicate TokenEnd(c: char) {
    || RustSpace(c)
    || c in "，。！？!?,.;:()'\"（）《》、【】[]<>~`|\\^=+*&#%/-"
  }

  function TakeToken(s: string): string {
    s[..FirstOf(s, TokenEnd)]
  }

  function NotFoundReply(token: string): string {
    "未找到 @" + token + "，ta 尚未与本 bot 互动，无法通知；可让 ta 先发条消息或 /register。"
  }

  /** What follows the next `@`: plain text, or a mention of `token`. */
  datatype Next = End | Skip(upto: nat) | Mention(at: nat, token: string)

  function NextMention(rest: string): (n: Next)
    ensures n.Skip? ==> n.upto <= |rest| && 0 < n.upto
    ensures n.Mention? ==>
              && n.at + 1 + |n.token| <= |rest| && rest[n.at] == '@'
              && rest[n.at + 1 .. n.at + 1 + |n.token|] == n.token
  {
    var at := FirstOf(rest, IsAt);
    if at == |rest| then End
    else if at > 0 && EmailLocal(rest[at - 1]) then Skip(at + 1)
    else
      var token := TakeToken(rest[at + 1..]);
      if token == "" then Skip(at + 1) else Mention(at, token)
  }

  function Prepend(head: string, r: Resolution): Resolution {
    match r
    case Resolved(text) => Resolved(head + text)
    case Failed(_) => r
  }

  /** `resolve_mentions` from `rest` on. */
  function Resolve(rest: string, reg: Registry): Resolution
    decreases |rest|
  {
    match NextMention(rest)
    case End => Resolved(rest)
    case Skip(upto) => Prepend(rest[..upto], Resolve(rest[upto..], reg))
    case Mention(at, token) =>
      match reg.FindByUsername(token)
      case None => Failed(NotFoundReply(token))
      case Some(id) => Prepend(rest[..at] + Tag(id), Resolve(rest[at + 1 + |token|..], reg))
  }

  /** The text with every mention in the registry's spelling. */
  function Canonical(rest: string, reg: Registry): string
    decreases |rest|
  {
    match NextMention(rest)
    case End => rest
    case Skip(upto) => rest[..upto] + Canonical(rest[upto..], reg)
    case Mention(at, token) => rest[..at] + "@" + reg.fold(token) + Canonical(rest[at + 1 + |token|..], reg)
  }

  /** Every mention is already spelled the registry's way. */
  predicate AllCanonical(rest: string, reg: Registry)
    decreases |rest|
  {
    match NextMention(rest)
    case End => true
    case Skip(upto) => AllCanonical(rest[upto..], reg)
    case Mention(at, token) => reg.fold(token) == token && AllCanonical(rest[at + 1 + |token|..], reg)
  }

  method ResolveMentions(text: string, reg: Registry) returns (r: Resolution)
    ensures r == Resolve(text, reg)
  {
    hide NextMention, Tag, NotFoundReply;
    var out, rest := "", text;
    while true
      invariant Resolve(text, reg) == Prepend(out, Resolve(rest, reg))
      decreases |rest|
    {
      match NextMention(rest) {
        case End =>
          return Resolved(out + rest);
        case Skip(upto) =>
          PrependTwice(out, rest[..upto], Resolve(rest[upto..], reg));
          out := out + rest[..upto];
          rest := rest[upto..];
        case Mention(at, token) =>
          match reg.FindByUsername(token) {
            case None =>
              return Failed(NotFoundReply(token));
            case Some(id) =>
              PrependTwice(out, rest[..at] + Tag(id), Resolve(rest[at + 1 + |token|..], reg));
              out := out + (rest[..at] + Tag(id));
              rest := rest[at + 1 + |token|..];
          }
      }
    }
  }

  lemma PrependTwice(a: string, b: string, r: Resolution)
    ensures Prepend(a, Prepend(b, r)) == Prepend(a + b, r)
  {
    if r.Resolved? {
      assert a + (b + r.text) == (a + b) + r.text;
    }
  }

  // ---- Resolve, then render ---------------------------------------------------------------------------

  /** The registry is a bijection between canonical usernames and quote-free ids of the namespace. */
  ghost predicate RegistryOk(reg: Registry) {
    forall name <- reg.ids ::
      && name != "" && Free(name, TokenEnd)
      && reg.ns + "/u/" <= reg.ids[name] && Free(reg.ids[name], IsQuote)
      && reg.ids[name] in reg.names && reg.names[reg.ids[name]] == name
  }

  /** The text in front of an `@` ends like the local part of an email address. */
  predicate EndsLikeEmail(pre: string) {
    pre != "" &&
    var c := pre[|pre| - 1];
    '0' <= c <= '9' || 'a' <= c <= 'z' || 'A' <= c <= 'Z' || c in ['.', '_', '%', '+', '-']
  }

  lemma NextAt(pre: string, rest: string)
    requires Free(pre, IsAt)
    ensures FirstOf(pre + "@" + rest, IsAt) == |pre|
    ensures pre != "" ==> (pre + "@" + rest)[|pre| - 1] == pre[|pre| - 1]
    ensures (pre + "@" + rest)[..|pre| + 1] == pre + "@" && (pre + "@" + rest)[|pre| + 1..] == rest
    ensures (pre + "@" + rest)[..|pre|] == pre
  {
    var s := pre + "@" + rest;
    assert s[..|pre|] == pre;
    FirstOfIs(s, IsAt, |pre|);
  }

  /** The `@` of an email address is text, and so is one that no name follows. */
  lemma EmailIsText(pre: string, rest: string, reg: Registry)
    requires Free(pre, IsAt) && (EndsLikeEmail(pre) || rest == "" || TokenEnd(rest[0]))
    ensures Resolve(pre + "@" + rest, reg) == Prepend(pre + "@", Resolve(rest, reg))
  {
    NextAt(pre, rest);
    var text := pre + "@" + rest;
    assert EndsLikeEmail(pre) ==> EmailLocal(pre[|pre| - 1]);
    assert NextMention(text) == Skip(|pre| + 1);
  }

  /** Any other `@` in front of a name is a mention: it becomes the reference of the user the registry has
      under that name, and without one the whole message is refused. */
  lemma MentionIsResolved(pre: string, token: string, post: string, reg: Registry)
    requires Free(pre, IsAt) && !EndsLikeEmail(pre)
    requires token != "" && Free(token, TokenEnd) && (post == "" || TokenEnd(post[0]))
    ensures Resolve(pre + "@" + (token + post), reg)
            == if reg.fold(token) in reg.ids
               then Prepend(pre + ("<ref id=\"" + reg.ids[reg.fold(token)] + "\"/>"), Resolve(post, reg))
               else Failed("未找到 @" + token + "，ta 尚未与本 bot 互动，无法通知；可让 ta 先发条消息或 /register。")
  {
    hide TokenEnd, EndsLikeEmail, NextMention, NotFoundReply, Tag;
    MentionIsNext(pre, token, post);
    NotFoundIs(token);
    TagIs(pre, token, reg);
  }

  lemma MentionIsNext(pre: string, token: string, post: string)
    requires Free(pre, IsAt) && !EndsLikeEmail(pre)
    requires token != "" && Free(token, TokenEnd) && (post == "" || TokenEnd(post[0]))
    ensures var text := pre + "@" + (token + post);
            NextMention(text) == Mention(|pre|, token) && text[..|pre|] == pre && text[|pre| + 1 + |token|..] == post
  {
    hide TokenEnd;
    var rest := token + post;
    var text := pre + "@" + rest;
    NextAt(pre, rest);
    assert pre != "" ==> !EmailLocal(pre[|pre| - 1]);
    hide EmailLocal, EndsLikeEmail;
    assert rest[..|token|] == token && rest[|token|..] == post;
    FirstOfIs(rest, TokenEnd, |token|);
    assert text[|pre| + 1..] == rest && text[|pre| + 1 + |token|..] == rest[|token|..];
  }

  lemma NotFoundIs(token: string)
    ensures NotFoundReply(token) == "未找到 @" + token + "，ta 尚未与本 bot 互动，无法通知；可让 ta 先发条消息或 /register。"
  {
  }

  lemma TagIs(pre: string, token: string, reg: Registry)
    ensures var id := reg.FindByUsername(token);
            && (id.Some? <==> reg.fold(token) in reg.ids)
            && (id.Some? ==> pre + Tag(id.value) == pre + ("<ref id=\"" + reg.ids[reg.fold(token)] + "\"/>"))
  {
  }

  /** A reference behind text without one: the name of a known user of this namespace, else the tag. */
  lemma ReferenceIsRendered(pre: string, id: string, post: string, reg: Registry)
    requires NoOpen(pre) && Free(id, IsQuote)
    ensures Render(pre + ("<ref id=\"" + id + "\"/>" + post), reg)
            == pre + ((if reg.ns + "/u/" <= id && id in reg.names && reg.names[id] != "" then "@" + reg.names[id]
                       else "<ref id=\"" + id + "\"/>") + Render(post, reg))
  {
    hide Render, NoOpen;
    var tagged := Tag(id) + post;
    TagStarts(id, post);
    RenderCopies(pre, tagged, reg);
    RenderTag(id, post, reg);
  }

  ghost predicate NoOpen(s: string) {
    forall i | 0 <= i <= |s| :: !OpenAt(s, i)
  }

  lemma NoOpenSlice(s: string, i: nat, j: nat)
    requires NoOpen(s) && i <= j <= |s|
    ensures NoOpen(s[i..j])
  {
    forall k | 0 <= k <= j - i
      ensures !OpenAt(s[i..j], k)
    {
      assert s[i..j][k..] == s[i + k..j];
      assert s[i + k..j] <= s[i + k..];
      assert !OpenAt(s, i + k);
    }
  }

  /** Text without an opening, followed by nothing, by a tag, or itself ending in `@`, is copied. */
  lemma {:induction false} RenderCopies(a: string, w: string, reg: Registry)
    requires NoOpen(a) && (w == "" || w[0] == '<' || (a != "" && a[|a| - 1] == '@'))
    ensures Render(a + w, reg) == a + Render(w, reg)
  {
    hide NoOpen, Render, OpenAt;
    if a == "" {
      assert a + w == w;
    } else {
      NoOpenAcross(a, w);
      RenderChar(a + w, reg);
      assert (a + w)[1..] == a[1..] + w;
      NoOpenSlice(a, 1, |a|);
      assert a[1..|a|] == a[1..];
      if |a| > 1 || w == "" || w[0] == '<' {
        RenderCopies(a[1..], w, reg);
      } else {
        assert a[1..] + w == w;
      }
    }
  }

  lemma NoOpenAcross(a: string, w: string)
    requires a != "" && NoOpen(a) && (w == "" || w[0] == '<' || a[|a| - 1] == '@')
    ensures !OpenAt(a + w, 0)
  {
    OpenShape();
    assert !OpenAt(a, 0);
    hide Open;
    var s := a + w;
    assert s[0..] == s && a[0..] == a;
    assert |a| >= 9 ==> a[..9] == s[..9];
    assert s[|a| - 1] == a[|a| - 1];
    assert w != "" ==> s[|a|] == w[0];
    assert |a| < 9 ==> Open()[|a| - 1] != '@' && Open()[|a|] != '<';
  }

  lemma MentionRenders(token: string, reg: Registry)
    requires RegistryOk(reg) && reg.FindByUsername(token).Some?
    ensures var id := reg.FindByUsername(token).value;
            Free(id, IsQuote) && RenderOne(id, reg) == "@" + reg.fold(token)
  {
    hide Tag, TokenEnd;
  }

  lemma TagStarts(id: string, rest: string)
    ensures Tag(id) + rest != "" && (Tag(id) + rest)[0] == '<'
  {
    OpenShape();
  }

  /** Rendering what the resolver produced gives the message back, each mention in the registry's
      spelling; emails and lone `@` included. */
  lemma {:induction false} ResolveThenRender(rest: string, reg: Registry)
    requires RegistryOk(reg) && NoOpen(rest) && Resolve(rest, reg).Resolved?
    ensures Render(Resolve(rest, reg).text, reg) == Canonical(rest, reg)
    decreases |rest|
  {
    hide RegistryOk, NoOpen, Render, NextMention, Tag, RenderOne;
    match NextMention(rest)
    case End =>
      RenderCopies(rest, "", reg);
      ShortRender("", reg);
      assert rest + "" == rest;
    case Skip(upto) =>
      SkipEndsInAt(rest);
      NoOpenSlice(rest, 0, upto);
      NoOpenSlice(rest, upto, |rest|);
      assert rest[upto..|rest|] == rest[upto..] && rest[0..upto] == rest[..upto];
      ResolveThenRender(rest[upto..], reg);
      RenderCopies(rest[..upto], Resolve(rest[upto..], reg).text, reg);
    case Mention(at, token) =>
      var after := at + 1 + |token|;
      NoOpenSlice(rest, 0, at);
      NoOpenSlice(rest, after, |rest|);
      assert rest[after..|rest|] == rest[after..] && rest[0..at] == rest[..at];
      ResolveThenRender(rest[after..], reg);
      MentionRenders(token, reg);
      var id := reg.FindByUsername(token).value;
      var tail := Resolve(rest[after..], reg).text;
      TagStarts(id, tail);
      RenderCopies(rest[..at], Tag(id) + tail, reg);
      RenderTag(id, tail, reg);
      assert rest[..at] + Tag(id) + tail == rest[..at] + (Tag(id) + tail);
  }

  lemma SkipEndsInAt(rest: string)
    requires NextMention(rest).Skip?
    ensures rest[NextMention(rest).upto - 1] == '@'
  {
    hide TokenEnd, EmailLocal, TakeToken;
  }

  // ---- Canonical spelling -----------------------------------------------------------------------------

  lemma AtGoesOn()
    ensures !TokenEnd('@')
  {
  }

  /** What follows a token is nothing or a character that ends tokens, and `Canonical` keeps that. */
  lemma CanonicalStarts(rest: string, reg: Registry)
    requires rest == "" || TokenEnd(rest[0])
    ensures var c := Canonical(rest, reg); c == "" || TokenEnd(c[0])
  {
    AtGoesOn();
    hide TokenEnd, EmailLocal, TakeToken;
    match NextMention(rest)
    case End =>
    case Skip(upto) =>
      assert (rest[..upto] + Canonical(rest[upto..], reg))[0] == rest[0];
    case Mention(at, token) =>
      assert at > 0;
      assert (rest[..at] + "@" + reg.fold(token) + Canonical(rest[at + 1 + |token|..], reg))[0] == rest[0];
  }

  lemma TokenStops(rest: string)
    requires NextMention(rest).Mention?
    ensures var Mention(at, token) := NextMention(rest);
            var after := rest[at + 1 + |token|..];
            Free(token, TokenEnd) && (after == "" || TokenEnd(after[0]))
  {
    hide EmailLocal, TokenEnd;
    var at := FirstOf(rest, IsAt);
    var n := FirstOf(rest[at + 1..], TokenEnd);
    assert rest[at + 1..][n..] == rest[at + 1 + n..];
  }

  /** Two tokens in front of text that stops tokens differ whenever the whole differs. */
  lemma TokensCompare(t: string, u: string, a: string, b: string)
    requires Free(t, TokenEnd) && Free(u, TokenEnd)
    requires (a == "" || TokenEnd(a[0])) && (b == "" || TokenEnd(b[0]))
    ensures t + a == u + b <==> t == u && a == b
  {
    assert (t + a)[..|t|] == t && (u + b)[..|u|] == u;
    FirstOfIs(t + a, TokenEnd, |t|);
    FirstOfIs(u + b, TokenEnd, |u|);
    assert (t + a)[|t|..] == a && (u + b)[|u|..] == b;
  }

  lemma FoldIsAToken(token: string, reg: Registry)
    requires RegistryOk(reg) && reg.FindByUsername(token).Some?
    ensures Free(reg.fold(token), TokenEnd)
  {
  }

  lemma CanonicalMention(rest: string, reg: Registry)
    requires RegistryOk(reg) && NextMention(rest).Mention?
    requires reg.FindByUsername(NextMention(rest).token).Some?
    ensures var Mention(at, token) := NextMention(rest);
            var after := rest[at + 1 + |token|..];
            Canonical(rest, reg) == rest <==> reg.fold(token) == token && Canonical(after, reg) == after
  {
    hide RegistryOk, NextMention, Canonical;
    var Mention(at, token) := NextMention(rest);
    var after := rest[at + 1 + |token|..];
    var name, tail := reg.fold(token), Canonical(after, reg);
    TokenStops(rest);
    FoldIsAToken(token, reg);
    CanonicalStarts(after, reg);
    TokensCompare(name, token, tail, after);
    MentionSplits(rest, at, token);
    var head := rest[..at] + "@";
    PrefixCancels(head, name + tail, token + after);
    assert Canonical(rest, reg) == head + (name + tail) by {
      CanonicalIs(rest, reg);
      assert head + name + tail == head + (name + tail);
    }
  }

  lemma MentionSplits(rest: string, at: nat, token: string)
    requires at + 1 + |token| <= |rest| && rest[at] == '@' && rest[at + 1..at + 1 + |token|] == token
    ensures rest == rest[..at] + "@" + (token + rest[at + 1 + |token|..])
  {
  }

  lemma CanonicalIs(rest: string, reg: Registry)
    requires NextMention(rest).Mention?
    ensures var Mention(at, token) := NextMention(rest);
            Canonical(rest, reg) == rest[..at] + "@" + reg.fold(token) + Canonical(rest[at + 1 + |token|..], reg)
  {
    hide NextMention;
  }

  lemma {:induction false} CanonicalIff(rest: string, reg: Registry)
    requires RegistryOk(reg) && Resolve(rest, reg).Resolved?
    ensures Canonical(rest, reg) == rest <==> AllCanonical(rest, reg)
    decreases |rest|
  {
    hide RegistryOk, NextMention, Tag;
    match NextMention(rest)
    case End =>
    case Skip(upto) =>
      CanonicalIff(rest[upto..], reg);
      assert rest == rest[..upto] + rest[upto..];
      PrefixCancels(rest[..upto], Canonical(rest[upto..], reg), rest[upto..]);
    case Mention(at, token) =>
      CanonicalIff(rest[at + 1 + |token|..], reg);
      CanonicalMention(rest, reg);
  }

  /** Resolve then render is the identity on a message exactly when its mentions are spelled the
      registry's way. */
  lemma ResolveRenderIdentity(text: string, reg: Registry)
    requires RegistryOk(reg) && NoOpen(text) && Resolve(text, reg).Resolved?
    ensures Render(Resolve(text, reg).text, reg) == text <==> AllCanonical(text, reg)
  {
    ResolveThenRender(text, reg);
    CanonicalIff(text, reg);
  }
}
