/** What the rewrite of a link prints, read off the pieces its href is written in
    (scripts/migrate-memory-split.py, `parse_md_href`, `href_for`, `delink_text`, `rewrite_links`). */
module LinkRewriting {
  import opened Text
  import opened MemoryFront
  import opened MemoryLinks

  // ---- The pieces of an href ------------------------------------------------------------------------

  /** A directory part: nothing, or a path that ends in a slash of either kind. */
  predicate DirPart(dir: string) {
    dir == "" || (!PySpace(dir[0]) && (dir[|dir| - 1] == '/' || dir[|dir| - 1] == '\\'))
  }

  /** A file part: no slash, and no white space around it. */
  predicate FilePart(file: string) {
    Trimmed(file, PySpace) && forall c <- file :: c != '/' && c != '\\'
  }

  /** The href is written as `dir` and `file`, with white space around them and, behind a directory,
      between them. */
  ghost predicate Spells(href: string, dir: string, file: string) {
    && DirPart(dir) && FilePart(file)
    && exists a: string, b: string, c: string ::
         && Blank(a, PySpace) && Blank(b, PySpace) && Blank(c, PySpace) && (dir == "" ==> b == "")
         && href == a + dir + (b + file) + c
  }

  /** The starts of links that leave the memories. */
  predicate Outside(dir: string, file: string) {
    if dir == "" then "#" <= file || "mailto:" <= file
    else "http://" <= dir || "https://" <= dir || "#" <= dir || "mailto:" <= dir
  }

  /** The file suffix, in any case. */
  predicate Suffix(ext: string) {
    ext == ".md" || ext == ".mD" || ext == ".Md" || ext == ".MD"
  }

  /** A memory is named by what is not an outside link, has the suffix behind at least one character, and
      holds neither two dots in a row nor a newline. */
  ghost predicate NamesMemory(dir: string, file: string) {
    && !Outside(dir, file)
    && |file| > 3 && Suffix(file[|file| - 3..])
    && (forall i | 0 < i < |file| :: !(file[i - 1] == '.' && file[i] == '.'))
    && (forall i | 0 <= i < |file| :: file[i] != '\n')
  }

  lemma FileFree(file: string)
    requires FilePart(file)
    ensures Free(file, IsSlash)
  {
    assert forall i | 0 <= i < |file| :: file[i] in file;
  }

  lemma BlankFree(b: string)
    requires Blank(b, PySpace)
    ensures Free(b, IsSlash)
  {
    assert !PySpace('/') && !PySpace('\\');
    hide PySpace;
  }

  lemma BlankConcat(b: string, c: string)
    requires Blank(b, PySpace) && Blank(c, PySpace)
    ensures Blank(b + c, PySpace)
  {
    hide PySpace;
  }

  /** Trimming takes off the outer white space, and the last slash sets the file part apart. */
  lemma SpelledSegment(href: string, dir: string, file: string)
    requires Spells(href, dir, file)
    ensures Segment(href) == file
    ensures Trim(href, PySpace) == "" <==> dir == "" && file == ""
    ensures file != "" ==> ExternalStart(Trim(href, PySpace)) == Outside(dir, file)
  {
    var a: string, b: string, c: string :|
      && Blank(a, PySpace) && Blank(b, PySpace) && Blank(c, PySpace) && (dir == "" ==> b == "")
      && href == a + dir + (b + file) + c;
    FileFree(file);
    BlankFree(b);
    FreeConcat(b, file, IsSlash);
    if file == "" {
      SpelledEmpty(href, a, dir, b, c);
    } else {
      SpelledWhole(href, a, dir, b, file, c);
      SpelledOutside(dir, b, file);
    }
  }

  lemma SlashIsSolid()
    ensures !PySpace('/') && !PySpace('\\')
  {
  }

  lemma SpelledEmpty(href: string, a: string, dir: string, b: string, c: string)
    requires Blank(a, PySpace) && Blank(b, PySpace) && Blank(c, PySpace) && DirPart(dir)
    requires href == a + dir + (b + "") + c
    ensures Segment(href) == "" && Trim(href, PySpace) == dir
  {
    SlashIsSolid();
    hide PySpace, TrimStart, TrimEnd, Trim;
    BlankConcat(b, c);
    if dir == "" {
      BlankConcat(a, b + c);
      assert href == a + (b + c);
      TrimOfBlank(href, PySpace);
    } else {
      assert href == a + dir + (b + c);
      TrimBetween(a, dir, b + c, PySpace);
      assert dir + "" == dir;
      AfterLastIs(dir, "", IsSlash);
    }
    TrimOfBlank("", PySpace);
  }

  lemma SpelledWhole(href: string, a: string, dir: string, b: string, file: string, c: string)
    requires Blank(a, PySpace) && Blank(b, PySpace) && Blank(c, PySpace) && DirPart(dir) && file != ""
    requires Trimmed(file, PySpace) && Free(b + file, IsSlash) && (dir == "" ==> b == "")
    requires href == a + dir + (b + file) + c
    ensures Segment(href) == file && Trim(href, PySpace) == dir + (b + file)
  {
    hide PySpace, TrimStart, TrimEnd, Trim, AfterLast;
    var whole := dir + (b + file);
    assert whole[|whole| - 1] == file[|file| - 1];
    assert whole[0] == if dir == "" then file[0] else dir[0];
    assert href == a + whole + c;
    TrimBetween(a, whole, c, PySpace);
    AfterLastIs(dir, b + file, IsSlash);
    assert b + file == b + file + "";
    TrimBetween(b, file, "", PySpace);
  }

  lemma SpelledOutside(dir: string, b: string, file: string)
    requires DirPart(dir) && Free(b + file, IsSlash) && file != "" && (dir == "" ==> b == "")
    ensures ExternalStart(dir + (b + file)) == Outside(dir, file)
  {
    hide PySpace;
    if dir == "" {
      assert dir + (b + file) == file == b + file;
      StartInFile("http://", 5, file);
      StartInFile("https://", 6, file);
    } else {
      StartInDir("http://", dir, b + file);
      StartInDir("https://", dir, b + file);
      StartInDir("#", dir, b + file);
      StartInDir("mailto:", dir, b + file);
    }
  }

  lemma StartInFile(start: string, k: nat, file: string)
    requires k < |start| && start[k] == '/' && Free(file, IsSlash)
    ensures !(start <= file)
  {
  }

  /** A start whose slashes stand together at its end, or that has none, is all in the directory. */
  lemma StartInDir(start: string, dir: string, rest: string)
    requires dir != "" && (dir[|dir| - 1] == '/' || dir[|dir| - 1] == '\\') && Free(rest, IsSlash)
    requires forall i, j | 0 <= i < j < |start| && IsSlash(start[i]) :: IsSlash(start[j])
    ensures start <= dir + rest <==> start <= dir
  {
    var whole := dir + rest;
    assert IsSlash(whole[|dir| - 1]) && (rest != "" ==> !IsSlash(whole[|dir|]));
    assert start <= whole ==> forall i | 0 <= i < |start| :: start[i] == whole[i];
    assert |start| <= |dir| ==> whole[..|start|] == dir[..|start|];
  }

  // ---- When an href is read as a memory -----------------------------------------------------------

  /** An href names a memory exactly when its pieces do; and then which, and whether with a layer. */
  lemma HrefReads(href: string, dir: string, file: string)
    requires Spells(href, dir, file)
    ensures ParseHref(href) == External <==> !NamesMemory(dir, file)
    ensures NamesMemory(dir, file) ==> ParseHref(href) == SplitPrefix(file[..|file| - 3])
  {
    hide Trim, Segment, ExternalStart, Spells, Outside, PySpace, NamesMemory, TwoDots;
    SpelledSegment(href, dir, file);
    NamesIff(dir, file);
  }

  lemma NamesIff(dir: string, file: string)
    ensures NamesMemory(dir, file)
            <==> !Outside(dir, file) && MdSuffix(file) && !TwoDots(file) && '\n' !in file[..|file| - 3]
  {
    hide Outside;
    if |file| > 3 {
      var n := |file| - 3;
      var ext := file[n..];
      assert ext == [ext[0], ext[1], ext[2]];
      assert ext[0] == file[n] && ext[1] == file[n + 1] && ext[2] == file[n + 2];
      assert MdSuffix(file) <==> Suffix(ext);
      if MdSuffix(file) {
        assert forall i | n <= i < |file| :: file[i] != '\n';
        assert forall i | 0 <= i < n :: file[i] == file[..n][i];
      }
    }
  }

  /** Every href is written in such pieces, so that this covers them all. */
  lemma HrefIsSpelled(href: string) returns (dir: string, file: string)
    ensures Spells(href, dir, file)
  {
    hide PySpace, TrimStart, TrimEnd, Trim, AfterLast;
    var a, c := TrimCuts(href, PySpace);
    var t := Trim(href, PySpace);
    TrimIsTrimmed(href, PySpace);
    dir := AfterLastCuts(t, IsSlash);
    var last := AfterLast(t, IsSlash);
    var b, d := TrimCuts(last, PySpace);
    file := Trim(last, PySpace);
    LastIsFile(last, b, file, d);
    if dir == "" {
      assert t == last;
      TrimOfTrimmed(last, PySpace);
      PiecesSpell(href, a, "", "", file, c);
    } else {
      assert dir[0] == t[0];
      BlankConcat(d, c);
      Regrouped(a, dir, b, file, d, c);
      PiecesSpell(href, a, dir, b, file, d + c);
    }
  }

  lemma LastIsFile(last: string, b: string, file: string, d: string)
    requires Free(last, IsSlash) && last == b + file + d && file == Trim(last, PySpace)
    ensures FilePart(file)
  {
    hide PySpace, TrimStart, TrimEnd, Trim;
    TrimIsTrimmed(last, PySpace);
    SliceFree(last, |b|, |b| + |file|, IsSlash);
    assert last[|b|..|b| + |file|] == file;
    FreeIsFile(file);
  }

  lemma Regrouped(a: string, dir: string, b: string, file: string, d: string, c: string)
    ensures a + (dir + (b + file + d)) + c == a + dir + (b + file) + (d + c)
  {
  }

  lemma FreeIsFile(file: string)
    requires Free(file, IsSlash) && Trimmed(file, PySpace)
    ensures FilePart(file)
  {
    hide PySpace;
  }

  lemma PiecesSpell(href: string, a: string, dir: string, b: string, file: string, c: string)
    requires DirPart(dir) && FilePart(file)
    requires Blank(a, PySpace) && Blank(b, PySpace) && Blank(c, PySpace) && (dir == "" ==> b == "")
    requires href == a + dir + (b + file) + c
    ensures Spells(href, dir, file)
  {
  }

  // ---- What is printed ------------------------------------------------------------------------------

  lemma {:induction false} ScanPlain(pre: string, rest: string)
    requires Free(pre, IsOpening)
    ensures Scan(pre + rest) == Chars(pre) + Scan(rest)
  {
    if pre == "" {
      assert pre + rest == rest;
    } else {
      assert pre + rest == Print(Ch(pre[0])) + (pre[1..] + rest);
      hide MatchHere;
      ScanPlain(pre[1..], rest);
      ScanStep(Ch(pre[0]), pre[1..] + rest);
    }
  }

  lemma {:induction false} CharsStay(s: string, v: View)
    ensures ReplaceAll(Chars(s), v) == Chars(s) && Rewrites(Chars(s), v) == [] && Dead(Chars(s), v) == []
  {
    if s != "" {
      CharsStay(s[1..], v);
      assert Chars(s)[0] == Ch(s[0]) && Chars(s)[1..] == Chars(s[1..]);
    }
  }

  lemma {:induction false} RewritesConcat(a: seq<Token>, b: seq<Token>, v: View)
    ensures Rewrites(a + b, v) == Rewrites(a, v) + Rewrites(b, v) && Dead(a + b, v) == Dead(a, v) + Dead(b, v)
  {
    hide RewriteOf, DeadOf;
    if a == [] {
      assert a + b == b;
    } else {
      assert (a + b)[1..] == a[1..] + b;
      RewritesConcat(a[1..], b, v);
    }
  }

  /** A line without an opening bracket is left as it is. */
  lemma PlainLine(line: string, v: View)
    requires Free(line, IsOpening)
    ensures RewriteLine(line, v) == line && Rewrites(Scan(line), v) == [] && Dead(Scan(line), v) == []
  {
    ScanPlain(line, "");
    ScanEmpty();
    assert line + "" == line && Chars(line) + [] == Chars(line);
    CharsStay(line, v);
    PrintOfChars(line);
  }

  /** The line with its first link written as `out`, when nothing before it opens a bracket; the rest of
      the line is rewritten on its own, and so is the report. */
  ghost predicate Becomes(pre: string, text: string, href: string, post: string, v: View, out: string,
                          links: seq<(string, string)>, dead: seq<string>) {
    var line := pre + ("[" + text + "](" + href + ")") + post;
    && RewriteLine(line, v) == pre + out + RewriteLine(post, v)
    && Rewrites(Scan(line), v) == links + Rewrites(Scan(post), v)
    && Dead(Scan(line), v) == dead + Dead(Scan(post), v)
  }

  /** What a link as the expression matches it is. */
  predicate LinkText(text: string, href: string) {
    Free(text, IsBracket) && Free(href, IsParen)
  }

  lemma LinkInLine(pre: string, text: string, href: string, post: string, v: View)
    requires Free(pre, IsOpening) && LinkText(text, href)
    ensures var t := Link(text, href);
            Becomes(pre, text, href, post, v, Edited(t, v), RewriteOf(t, v), DeadOf(t, v))
  {
    hide RewriteLine, Scan, Edited, RewriteOf, DeadOf, Rewrites, Dead;
    var t := Link(text, href);
    LinkScanned(pre, t, post);
    LineIs(pre + Print(t) + post, v);
    LineIs(post, v);
    TokensAround(pre, t, Scan(post), v);
  }

  lemma LineIs(line: string, v: View)
    ensures RewriteLine(line, v) == PrintAll(ReplaceAll(Scan(line), v))
  {
  }

  lemma LinkScanned(pre: string, t: Token, post: string)
    requires Free(pre, IsOpening) && t.Link? && LinkShape(t)
    ensures Scan(pre + Print(t) + post) == Chars(pre) + ([t] + Scan(post))
  {
    assert pre + Print(t) + post == pre + (Print(t) + post);
    hide Scan, Print, LinkShape, Chars;
    ScanPlain(pre, Print(t) + post);
    ScanStep(t, post);
  }

  lemma TokensAround(pre: string, t: Token, rest: seq<Token>, v: View)
    ensures var ts := Chars(pre) + ([t] + rest);
            && PrintAll(ReplaceAll(ts, v)) == pre + Edited(t, v) + PrintAll(ReplaceAll(rest, v))
            && Rewrites(ts, v) == RewriteOf(t, v) + Rewrites(rest, v)
            && Dead(ts, v) == DeadOf(t, v) + Dead(rest, v)
  {
    hide Edited, RewriteOf, DeadOf, Replace, Chars, PrintAll, ReplaceAll, Rewrites, Dead;
    ReplaceConcat(Chars(pre), [t] + rest, v);
    ReplaceConcat([t], rest, v);
    RewritesConcat(Chars(pre), [t] + rest, v);
    RewritesConcat([t], rest, v);
    CharsStay(pre, v);
    OneToken(t, v);
    PrintConcat(Chars(pre), Replace(t, v) + ReplaceAll(rest, v));
    PrintConcat(Replace(t, v), ReplaceAll(rest, v));
    PrintOfChars(pre);
    EditedIsReplaced(t, v);
  }

  lemma OneToken(t: Token, v: View)
    ensures ReplaceAll([t], v) == Replace(t, v) && Rewrites([t], v) == RewriteOf(t, v) && Dead([t], v) == DeadOf(t, v)
  {
    hide Replace, RewriteOf, DeadOf;
    assert [t][1..] == [];
  }

  /** A link that names no memory stays as it is. */
  lemma OutsideLink(pre: string, text: string, href: string, dir: string, file: string, post: string, v: View)
    requires Free(pre, IsOpening) && LinkText(text, href) && Spells(href, dir, file) && !NamesMemory(dir, file)
    ensures Becomes(pre, text, href, post, v, "[" + text + "](" + href + ")", [], [])
    ensures forall inventory :: !Dangles(href, v.src, inventory)
  {
    hide Spells, NamesMemory, Becomes, ParseHref;
    HrefReads(href, dir, file);
    LinkInLine(pre, text, href, post, v);
  }

  /** A link to a memory without a layer: de-linked with a note when the memory is gone, kept when it
      lives in the same layer, and given the other layer's name when it lives there. */
  lemma BareLink(pre: string, text: string, href: string, dir: string, stem: string, ext: string, post: string, v: View)
    requires Free(pre, IsOpening) && LinkText(text, href) && Suffix(ext)
    requires Spells(href, dir, stem + ext) && NamesMemory(dir, stem + ext) && Unlayered(stem)
    ensures stem !in v.surviving ==>
              Becomes(pre, text, href, post, v, text + "（" + v.date + " 迁移清理：目标 " + stem + " 已移除）", [], [stem + ".md"])
    ensures stem in v.surviving && v.surviving[stem] == v.src ==>
              Becomes(pre, text, href, post, v, "[" + text + "](" + href + ")", [], [])
    ensures stem in v.surviving && v.surviving[stem] != v.src ==>
              var new' := (if v.src == User then "agent:" else "user:") + stem + ".md";
              Becomes(pre, text, href, post, v, "[" + text + "](" + new' + ")", [(Trim(href, PySpace), new')], [])
    ensures forall inventory ::
              Dangles(href, v.src, inventory) <==> !(stem in inventory && inventory[stem] == v.src)
  {
    hide Spells, NamesMemory, Becomes, ParseHref;
    HrefReads(href, dir, stem + ext);
    StemIs(stem, ext);
    LinkInLine(pre, text, href, post, v);
    var t := Link(text, href);
    if stem !in v.surviving {
      NoteIs(text, v.date, stem);
    } else if v.surviving[stem] != v.src {
      NamedLayer(v.surviving[stem], stem);
    }
  }

  lemma StemIs(stem: string, ext: string)
    requires Suffix(ext)
    ensures |stem + ext| >= 3 && (stem + ext)[..|stem + ext| - 3] == stem
  {
  }

  lemma NoteIs(text: string, date: string, target: string)
    ensures text + Note(target, date) == text + "（" + date + " 迁移清理：目标 " + target + " 已移除）"
  {
  }

  lemma NamedLayer(layer: Layer, stem: string)
    ensures LayerName(layer) + ":" + stem + ".md" == (if layer == Agent then "agent:" else "user:") + stem + ".md"
  {
  }

  /** A link to a memory with a layer in its href: de-linked with a note when the memory is gone, kept
      when the layer is right, and otherwise given the right one, or none when that is the file's own. */
  lemma LayeredLink(pre: string, text: string, href: string, dir: string, layer: Layer, stem: string, ext: string,
                    post: string, v: View)
    requires Free(pre, IsOpening) && LinkText(text, href) && Suffix(ext) && stem != ""
    requires var file := (if layer == Agent then "agent:" else "user:") + stem + ext;
             Spells(href, dir, file) && NamesMemory(dir, file)
    ensures stem !in v.surviving ==>
              var target := (if layer == Agent then "agent:" else "user:") + stem;
              Becomes(pre, text, href, post, v, text + "（" + v.date + " 迁移清理：目标 " + target + " 已移除）", [],
                [target + ".md"])
    ensures stem in v.surviving && v.surviving[stem] == layer ==>
              Becomes(pre, text, href, post, v, "[" + text + "](" + href + ")", [], [])
    ensures stem in v.surviving && v.surviving[stem] != layer ==>
              var name := if v.surviving[stem] == v.src then "" else if v.src == User then "agent:" else "user:";
              var new' := name + stem + ".md";
              Becomes(pre, text, href, post, v, "[" + text + "](" + new' + ")", [(Trim(href, PySpace), new')], [])
    ensures forall inventory ::
              Dangles(href, v.src, inventory) <==> !(stem in inventory && inventory[stem] == layer)
  {
    hide Spells, NamesMemory, Becomes, ParseHref;
    var name := if layer == Agent then "agent:" else "user:";
    HrefReads(href, dir, name + stem + ext);
    StemIs(name + stem, ext);
    LayerRead(layer, stem);
    LinkInLine(pre, text, href, post, v);
    if stem !in v.surviving {
      NoteIs(text, v.date, name + stem);
    } else if v.surviving[stem] != layer {
      NamedLayer(v.surviving[stem], stem);
      assert "" + stem == stem;
    }
  }

  lemma LayerRead(layer: Layer, stem: string)
    requires stem != ""
    ensures SplitPrefix((if layer == Agent then "agent:" else "user:") + stem) == Memory(Some(layer), stem)
    ensures Qualified(Some(layer), stem) == (if layer == Agent then "agent:" else "user:") + stem
  {
    var name := if layer == Agent then "agent:" else "user:";
    assert (name + stem)[|name|..] == stem && name < name + stem;
    assert layer == User ==> (name + stem)[0] == 'u';
    assert "agent" + ":" == "agent:" && "user" + ":" == "user:";
  }

  // ---- A link with a path ---------------------------------------------------------------------------

  /** A stem as files have them: nothing an href could misread or cut. */
  ghost predicate FileStem(stem: string) {
    && stem != "" && Trimmed(stem, PySpace) && (forall c <- stem :: c != '/' && c != '\\' && c != '\n')
    && (forall i | 0 < i < |stem| :: !(stem[i - 1] == '.' && stem[i] == '.')) && stem[|stem| - 1] != '.'
  }

  /** `dir/stem.md` spells what it says and names a memory, unless it starts like an outside link. */
  lemma PathSpelled(dir: string, name: string, stem: string)
    requires DirPart(dir) && FileStem(stem) && (name == "" || name == "agent:" || name == "user:")
    requires !Outside(dir, name + stem + ".md")
    ensures Spells(dir + name + stem + ".md", dir, name + stem + ".md")
    ensures NamesMemory(dir, name + stem + ".md")
  {
    hide Outside;
    SlashIsSolid();
    var file := name + stem + ".md";
    FileNamed(name, stem);
    assert file[|file| - 3..] == ".md";
    assert dir + name + stem + ".md" == "" + dir + ("" + file) + "";
    PiecesSpell(dir + name + stem + ".md", "", dir, "", file, "");
  }

  lemma FileNamed(name: string, stem: string)
    requires FileStem(stem) && (name == "" || name == "agent:" || name == "user:")
    ensures FilePart(name + stem + ".md") && |name + stem + ".md"| > 3
    ensures var file := name + stem + ".md";
            && (forall i | 0 < i < |file| :: !(file[i - 1] == '.' && file[i] == '.'))
            && forall i | 0 <= i < |file| :: file[i] != '\n'
  {
    var file := name + stem + ".md";
    LettersAreSolid();
    assert file[0] == if name == "" then stem[0] else name[0];
    hide PySpace;
    forall i | 0 <= i < |file|
      ensures file[i] in name || file[i] in stem || file[i] in ".md"
    {
    }
    forall i | 0 < i < |file|
      ensures !(file[i - 1] == '.' && file[i] == '.')
    {
      if |name| < i < |name| + |stem| {
        assert file[i - 1] == stem[i - 1 - |name|] && file[i] == stem[i - |name|];
      }
    }
  }

  lemma LettersAreSolid()
    ensures !PySpace('a') && !PySpace('u') && !PySpace('d')
  {
  }

  lemma LinkAlone(text: string, href: string, v: View, out: string, links: seq<(string, string)>, dead: seq<string>)
    requires Becomes("", text, href, "", v, out, links, dead)
    ensures RewriteLine("[" + text + "](" + href + ")", v) == out
  {
    hide RewriteLine, Scan, Rewrites, Dead;
    var line := "[" + text + "](" + href + ")";
    assert "" + line + "" == line && "" + out + "" == out;
    EmptyLine(v);
  }

  lemma EmptyLine(v: View)
    ensures RewriteLine("", v) == ""
  {
  }

  /** A line that is one link with a path: the memory it names decides what becomes of it. */
  lemma PathLink(text: string, dir: string, stem: string, v: View)
    requires Free(text, IsBracket) && Free(dir + stem + ".md", IsParen) && DirPart(dir) && FileStem(stem)
    requires !Outside(dir, stem + ".md") && Unlayered(stem)
    ensures RewriteLine("[" + text + "](" + (dir + stem + ".md") + ")", v)
            == if stem !in v.surviving then text + "（" + v.date + " 迁移清理：目标 " + stem + " 已移除）"
               else if v.surviving[stem] == v.src then "[" + text + "](" + (dir + stem + ".md") + ")"
               else "[" + text + "](" + ((if v.src == User then "agent:" else "user:") + stem + ".md") + ")"
  {
    hide Outside, FileStem, DirPart, Spells, NamesMemory, RewriteLine, Scan, Unlayered, Becomes;
    var href := dir + stem + ".md";
    var new' := (if v.src == User then "agent:" else "user:") + stem + ".md";
    assert "" + stem + ".md" == stem + ".md" && dir + "" + stem + ".md" == href;
    PathSpelled(dir, "", stem);
    BareLink("", text, href, dir, stem, ".md", "", v);
    if stem !in v.surviving {
      LinkAlone(text, href, v, text + "（" + v.date + " 迁移清理：目标 " + stem + " 已移除）", [], [stem + ".md"]);
    } else if v.surviving[stem] == v.src {
      LinkAlone(text, href, v, "[" + text + "](" + href + ")", [], []);
    } else {
      LinkAlone(text, href, v, "[" + text + "](" + new' + ")", [(Trim(href, PySpace), new')], []);
    }
  }

  /** The same with a layer in the href. */
  lemma LayeredPathLink(text: string, dir: string, layer: Layer, stem: string, v: View)
    requires var name := if layer == Agent then "agent:" else "user:";
             && Free(text, IsBracket) && Free(dir + name + stem + ".md", IsParen) && DirPart(dir) && FileStem(stem)
             && !Outside(dir, name + stem + ".md")
    ensures var name := if layer == Agent then "agent:" else "user:";
            var other := if layer == Agent then "user:" else "agent:";
            RewriteLine("[" + text + "](" + (dir + name + stem + ".md") + ")", v)
            == if stem !in v.surviving then text + "（" + v.date + " 迁移清理：目标 " + (name + stem) + " 已移除）"
               else if v.surviving[stem] == layer then "[" + text + "](" + (dir + name + stem + ".md") + ")"
               else if v.src == layer then "[" + text + "](" + (other + stem + ".md") + ")"
               else "[" + text + "](" + (stem + ".md") + ")"
  {
    hide Outside, DirPart, Spells, NamesMemory, RewriteLine, Scan, Becomes;
    assert stem != "";
    hide FileStem;
    var name := if layer == Agent then "agent:" else "user:";
    var href := dir + name + stem + ".md";
    PathSpelled(dir, name, stem);
    LayeredLink("", text, href, dir, layer, stem, ".md", "", v);
    if stem !in v.surviving {
      LinkAlone(text, href, v, text + "（" + v.date + " 迁移清理：目标 " + (name + stem) + " 已移除）", [], [name + stem + ".md"]);
    } else if v.surviving[stem] == layer {
      LinkAlone(text, href, v, "[" + text + "](" + href + ")", [], []);
    } else {
      var name' := if v.surviving[stem] == v.src then "" else if v.src == User then "agent:" else "user:";
      var new' := name' + stem + ".md";
      LinkAlone(text, href, v, "[" + text + "](" + new' + ")", [(Trim(href, PySpace), new')], []);
      assert "" + stem == stem;
    }
  }

  // ---- Rewriting a text that grew -------------------------------------------------------------------

  lemma {:induction false} EndedLines(s: string)
    requires s == "" || IsBreak(s[|s| - 1])
    ensures forall l <- Lines(s) :: FullLine(l)
    decreases |s|
  {
    if s != "" {
      var n := FirstOf(s, IsBreak);
      assert s[..|s|] == s && !Free(s, IsBreak);
      EndedLines(s[n + 1..]);
      FirstOfIs(s[..n + 1], IsBreak, n);
    }
  }

  lemma RewriteLinesConcat(a: seq<string>, b: seq<string>, v: View)
    ensures RewriteLines(a + b, v) == RewriteLines(a, v) + RewriteLines(b, v)
  {
    hide RewriteLine;
  }

  /** Behind the end of a line, a body is rewritten on its own. */
  lemma BodyAppend(body: string, more: string, v: View)
    requires body == "" || IsBreak(body[|body| - 1])
    ensures RewriteBody(body + more, v) == RewriteBody(body, v) + RewriteBody(more, v)
  {
    hide Lines, FullLine, RewriteLines, Flat;
    EndedLines(body);
    LinesJoin(body);
    LinesOfFull(Lines(body), more);
    RewriteLinesConcat(Lines(body), Lines(more), v);
    FlatConcat(RewriteLines(Lines(body), v), RewriteLines(Lines(more), v));
  }

  /** Text added behind the last line end of a text with front matter is rewritten as a body. */
  lemma RewrittenAppend(text: string, more: string, v: View)
    requires SplitFront(text).Front? && IsBreak(text[|text| - 1])
    ensures Rewritten(text + more, v) == Rewritten(text, v) + RewriteBody(more, v)
  {
    var f := SplitFront(text);
    WholeOfSplit(text);
    CloserIsFull(f, text);
    hide SplitFront, Whole, FullLine, AnyLine, Fence, RewriteBody, Flat;
    var g := f.(body := f.body + more);
    WholeGrowsBy(f, more);
    SplitOfWhole(g);
    BodyAppend(f.body, more, v);
    BodiesApart(f.opener + Flat(f.fields) + f.closer, RewriteBody(f.body, v), RewriteBody(more, v));
  }

  lemma BodiesApart(front: string, body: string, more: string)
    ensures front + (body + more) == front + body + more
  {
  }

  lemma CloserIsFull(f: Front, text: string)
    requires Splittable(f) && Whole(f) == text && IsBreak(text[|text| - 1])
    ensures FullLine(f.closer) && (f.body == "" || IsBreak(f.body[|f.body| - 1]))
  {
    hide Fence, Flat;
    if f.body == "" {
      assert f.closer[|f.closer| - 1] == text[|text| - 1];
      assert f.closer[..|f.closer|] == f.closer;
    } else {
      assert f.body[|f.body| - 1] == text[|text| - 1];
    }
  }

  lemma PlainBody(line: string, v: View)
    requires AnyLine(line) && Free(line, IsOpening)
    ensures RewriteBody(line, v) == line
  {
    hide RewriteLine, Lines, AnyLine;
    LineAlone(line);
    PlainLine(line, v);
    FlatOne(line);
    assert RewriteLines([line], v) == [line];
  }
}
