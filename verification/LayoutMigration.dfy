/** The layout migration's actions on a file tree and its rollback (scripts/migrate-layout.py,
    `inject_frontmatter`, `execute_action`, `rmdir_empty_tree`, `rollback`). */
module LayoutMigration {
  import opened Text
  import opened MemoryFront
  import L = LayoutLog

  // ---- Injecting front matter -------------------------------------------------------------------

  /** The attributes a memory is given; an empty owner or type counts as none. */
  datatype Meta = Meta(scope: string, userId: string, memType: string)

  datatype Injection = Unclosed | Present | Injected(text: string)

  function KeyLine(key: string, value: string): string {
    key + ": \"" + value + "\"\n"
  }

  /** The key and line of each attribute to be injected. */
  function MetaKeys(meta: Meta): seq<(string, string)> {
    [("scope", meta.scope)]
    + (if meta.userId == "" then [] else [("user_id", meta.userId)])
    + (if meta.memType == "" then [] else [("type", meta.memType)])
  }

  predicate HasLine(fields: seq<string>, key: string) {
    exists i | 0 <= i < |fields| :: key + ":" <= fields[i]
  }

  /** The lines of the attributes that the fields lack. */
  function Missing(fields: seq<string>, keys: seq<(string, string)>): seq<string> {
    if keys == [] then []
    else (if HasLine(fields, keys[0].0) then [] else [KeyLine(keys[0].0, keys[0].1)]) + Missing(fields, keys[1..])
  }

  function Inject(text: string, meta: Meta): Injection {
    var ls := Lines(text);
    var keys := MetaKeys(meta);
    if ls != [] && Fence(ls[0]) then
      match SplitFront(text)
      case NoFront => Unclosed
      case Front(opener, fields, closer, body) =>
        var missing := Missing(fields, keys);
        if missing == [] then Present
        else Injected(opener + Flat(fields) + Flat(missing) + closer + body)
    else Injected("---\n" + Flat(Missing([], keys)) + "---\n" + ("\n" + text))
  }

  /** The same text up to injected front matter: fields are only appended and the body is untouched. */
  ghost predicate Kept(a: string, b: string) {
    || a == b
    || match (SplitFront(a), SplitFront(b))
       case (Front(o, fields, c, body), Front(o', fields', c', body')) =>
         o == o' && c == c' && body == body' && fields <= fields'
       case (NoFront, Front(_, _, _, body')) => body' == "\n" + a
       case _ => false
  }

  lemma KeptTransitive(a: string, b: string, c: string)
    requires Kept(a, b) && Kept(b, c)
    ensures Kept(a, c)
  {
    hide SplitFront;
    var x, y, z := SplitFront(a), SplitFront(b), SplitFront(c);
    if x.Front? && y.Front? && z.Front? && x.fields <= y.fields <= z.fields {
      assert x.fields == y.fields[..|x.fields|] == z.fields[..|x.fields|];
    }
  }

  /** Attribute values without line breaks. */
  ghost predicate PlainMeta(meta: Meta) {
    Free(meta.scope, IsBreak) && Free(meta.userId, IsBreak) && Free(meta.memType, IsBreak)
  }

  lemma KeyLineIsLine(key: string, value: string)
    requires key != "" && KeyChar(key[0]) && Free(key, IsBreak) && Free(value, IsBreak)
    ensures FullLine(KeyLine(key, value)) && !Fence(KeyLine(key, value)) && key + ":" <= KeyLine(key, value)
  {
    hide Fence;
    var core := key + ": \"" + value + "\"";
    assert KeyLine(key, value) == core + "\n" && KeyLine(key, value)[..|key| + 1] == key + ":";
    assert Free(": \"", IsBreak) && Free("\"", IsBreak);
    FreeConcat(key + ": \"" + value, "\"", IsBreak);
    FreeConcat(key + ": \"", value, IsBreak);
    FreeConcat(key, ": \"", IsBreak);
    EndedIsFull(core, "\n");
    KeyedIsNoFence(KeyLine(key, value));
  }

  ghost predicate GoodKeys(keys: seq<(string, string)>) {
    forall i | 0 <= i < |keys| ::
      keys[i].0 != "" && KeyChar(keys[i].0[0]) && Free(keys[i].0, IsBreak) && Free(keys[i].1, IsBreak)
  }

  lemma MetaKeysGood(meta: Meta)
    requires PlainMeta(meta)
    ensures GoodKeys(MetaKeys(meta)) && MetaKeys(meta) != []
  {
    assert Free("scope", IsBreak) && Free("user_id", IsBreak) && Free("type", IsBreak);
  }

  /** What is missing are lines, and with them nothing is missing any more. */
  lemma {:induction false} MissingLines(fields: seq<string>, keys: seq<(string, string)>)
    requires GoodKeys(keys)
    ensures forall l <- Missing(fields, keys) :: FullLine(l) && !Fence(l)
    ensures forall i | 0 <= i < |keys| :: HasLine(fields, keys[i].0) || HasLine(Missing(fields, keys), keys[i].0)
  {
    if keys != [] {
      hide FullLine, Fence, HasLine, KeyLine;
      KeyLineIsLine(keys[0].0, keys[0].1);
      assert forall i | 0 < i < |keys| :: keys[1..][i - 1] == keys[i];
      MissingLines(fields, keys[1..]);
      var first := if HasLine(fields, keys[0].0) then [] else [KeyLine(keys[0].0, keys[0].1)];
      var rest := Missing(fields, keys[1..]);
      forall i | 0 <= i < |keys|
        ensures HasLine(fields, keys[i].0) || HasLine(Missing(fields, keys), keys[i].0)
      {
        HasLineConcat(first, rest, keys[i].0);
        if i == 0 && !HasLine(fields, keys[0].0) {
          HasLineOne(KeyLine(keys[0].0, keys[0].1), keys[0].0);
        }
      }
    }
  }

  lemma HasLineConcat(a: seq<string>, b: seq<string>, key: string)
    ensures HasLine(a + b, key) <==> HasLine(a, key) || HasLine(b, key)
  {
    assert forall i | 0 <= i < |a| :: (a + b)[i] == a[i];
    assert forall i | 0 <= i < |b| :: (a + b)[|a| + i] == b[i];
  }

  lemma HasLineOne(l: string, key: string)
    requires key + ":" <= l
    ensures HasLine([l], key)
  {
    assert [l][0] == l;
  }

  lemma {:induction false} NothingMissing(fields: seq<string>, keys: seq<(string, string)>)
    requires forall i | 0 <= i < |keys| :: HasLine(fields, keys[i].0)
    ensures Missing(fields, keys) == []
  {
    if keys != [] {
      hide HasLine;
      assert forall i | 0 < i < |keys| :: keys[1..][i - 1] == keys[i];
      NothingMissing(fields, keys[1..]);
    }
  }

  /** The parts of a text after the attributes it lacks have been added. */
  ghost function InjectedFront(text: string, meta: Meta): Front {
    var missing := Missing(FieldsOf(text), MetaKeys(meta));
    match SplitFront(text)
    case Front(o, fields, c, body) => Front(o, fields + missing, c, body)
    case NoFront => Front("---\n", missing, "---\n", "\n" + text)
  }

  lemma WholeGrows(f: Front, missing: seq<string>)
    requires f.Front?
    ensures f.opener + Flat(f.fields) + Flat(missing) + f.closer + f.body == Whole(f.(fields := f.fields + missing))
  {
    FlatConcat(f.fields, missing);
    assert f.opener + Flat(f.fields) + Flat(missing) == f.opener + (Flat(f.fields) + Flat(missing));
  }

  lemma NewFront(text: string, missing: seq<string>)
    requires forall l <- missing :: FullLine(l) && !Fence(l)
    ensures "---\n" + Flat(missing) + "---\n" + ("\n" + text) == Whole(Front("---\n", missing, "---\n", "\n" + text))
    ensures Splittable(Front("---\n", missing, "---\n", "\n" + text))
  {
    hide Fence, FullLine, AnyLine, Flat;
    FencesFit();
  }

  lemma InjectedIs(text: string, meta: Meta)
    requires PlainMeta(meta) && Inject(text, meta).Injected?
    ensures var f := InjectedFront(text, meta);
            f.Front? && Inject(text, meta).text == Whole(f) && Splittable(f)
  {
    hide Fence, FullLine, AnyLine, SplitFront, GoodKeys, HasLine, Missing, Lines, PlainMeta, MetaKeys, Flat, Whole;
    MetaKeysGood(meta);
    var missing := Missing(FieldsOf(text), MetaKeys(meta));
    MissingLines(FieldsOf(text), MetaKeys(meta));
    if SplitFront(text).Front? {
      FrontStartsWithFence(text);
      WholeOfSplit(text);
      WholeGrows(SplitFront(text), missing);
    } else {
      NewFront(text, missing);
    }
  }

  /** Injection only appends fields. */
  lemma InjectKeeps(text: string, meta: Meta)
    requires PlainMeta(meta) && Inject(text, meta).Injected?
    ensures Kept(text, Inject(text, meta).text)
  {
    hide Splittable, SplitFront, Inject, Missing, PlainMeta;
    InjectedIs(text, meta);
    SplitOfWhole(InjectedFront(text, meta));
  }

  /** A second injection finds nothing to do. */
  lemma InjectTwice(text: string, meta: Meta)
    requires PlainMeta(meta) && Inject(text, meta).Injected?
    ensures Inject(Inject(text, meta).text, meta) == Present
  {
    var keys := MetaKeys(meta);
    var fields := FieldsOf(text);
    var missing := Missing(fields, keys);
    var f := InjectedFront(text, meta);
    InjectedIs(text, meta);
    SplitOfWhole(f);
    FrontStartsWithFence(Whole(f));
    MetaKeysGood(meta);
    MissingLines(fields, keys);
    assert f.fields == fields + missing;
    hide Splittable, SplitFront, Missing, PlainMeta, HasLine, GoodKeys, Fence, Whole, Lines, MetaKeys;
    forall i | 0 <= i < |keys|
      ensures HasLine(f.fields, keys[i].0)
    {
      HasLineConcat(fields, missing, keys[i].0);
    }
    NothingMissing(f.fields, keys);
  }

  lemma FrontStartsWithFence(text: string)
    requires SplitFront(text).Front?
    ensures Lines(text) != [] && Fence(Lines(text)[0])
  {
    hide Fence;
  }

  // ---- What an injection writes -----------------------------------------------------------------

  predicate Opens(fields: seq<string>, prefix: string) {
    exists l <- fields :: prefix <= l
  }

  /** The field lines of `b` are those of `a` and the one line `line`, when the attribute is given and no
      line of `a` opens with its key. */
  ghost predicate Gains(a: seq<string>, b: seq<string>, prefix: string, line: string, given: bool) {
    && (forall l <- a :: l in b)
    && (given && !Opens(a, prefix) ==> line in b)
    && (forall l <- b | prefix <= l && l !in a :: l == line)
    && (Opens(b, prefix) <==> given || Opens(a, prefix))
    && (forall i, j | |a| <= i < j < |b| && prefix <= b[i] :: !(prefix <= b[j]))
    && (Opens(a, prefix) ==> forall i | |a| <= i < |b| :: !(prefix <= b[i]))
  }

  /** The field lines `after` are those `before` and every attribute these lacked, each with its own
      value, and no others. */
  ghost predicate Gives(before: seq<string>, after: seq<string>, scope: string, userId: string, memType: string) {
    && before <= after
    && Gains(before, after, "scope:", "scope: \"" + scope + "\"\n", true)
    && Gains(before, after, "user_id:", "user_id: \"" + userId + "\"\n", userId != "")
    && Gains(before, after, "type:", "type: \"" + memType + "\"\n", memType != "")
    && (forall i | |before| <= i < |after| :: "scope:" <= after[i] || "user_id:" <= after[i] || "type:" <= after[i])
  }

  /** `b` is `a` with the attributes it lacked, in the front matter it has or in one put before it. */
  ghost predicate GivenAll(a: string, b: string, scope: string, userId: string, memType: string) {
    && Gives(FieldsOf(a), FieldsOf(b), scope, userId, memType)
    && match (SplitFront(a), SplitFront(b))
       case (Front(o, _, c, body), Front(o', _, c', body')) => o' == o && c' == c && body' == body
       case (NoFront, Front(o', _, c', body')) => o' == "---\n" == c' && body' == "\n" + a
       case _ => false
  }

  /** Every given attribute has a line. */
  ghost predicate Complete(fields: seq<string>, scope: string, userId: string, memType: string) {
    && Opens(fields, "scope:")
    && (userId != "" ==> Opens(fields, "user_id:"))
    && (memType != "" ==> Opens(fields, "type:"))
  }

  /** A text that opens a front matter and does not close it. */
  ghost predicate LeftOpen(text: string) {
    Lines(text) != [] && Fence(Lines(text)[0]) && SplitFront(text).NoFront?
  }

  lemma HasLineOpens(fields: seq<string>, key: string)
    ensures HasLine(fields, key) <==> Opens(fields, key + ":")
  {
    if HasLine(fields, key) {
      var i :| 0 <= i < |fields| && key + ":" <= fields[i];
      assert fields[i] in fields;
    }
    if Opens(fields, key + ":") {
      var l :| l in fields && key + ":" <= l;
      var i :| 0 <= i < |fields| && fields[i] == l;
    }
  }

  lemma {:induction false} MissingConcat(fields: seq<string>, a: seq<(string, string)>, b: seq<(string, string)>)
    ensures Missing(fields, a + b) == Missing(fields, a) + Missing(fields, b)
  {
    if a == [] {
      assert a + b == b;
    } else {
      assert (a + b)[1..] == a[1..] + b;
      MissingConcat(fields, a[1..], b);
    }
  }

  /** The line one attribute adds. */
  function Part(fields: seq<string>, prefix: string, line: string, given: bool): seq<string> {
    if given && !Opens(fields, prefix) then [line] else []
  }

  lemma MissingOne(fields: seq<string>, key: string, value: string, given: bool)
    ensures Missing(fields, if given then [(key, value)] else [])
            == Part(fields, key + ":", key + ": \"" + value + "\"\n", given)
  {
    HasLineOpens(fields, key);
    hide HasLine, Opens;
  }

  /** The lines the three attributes add, in this order. */
  lemma MissingIs(fields: seq<string>, meta: Meta)
    ensures Missing(fields, MetaKeys(meta))
            == Part(fields, "scope:", "scope: \"" + meta.scope + "\"\n", true)
               + Part(fields, "user_id:", "user_id: \"" + meta.userId + "\"\n", meta.userId != "")
               + Part(fields, "type:", "type: \"" + meta.memType + "\"\n", meta.memType != "")
  {
    hide Missing, Part;
    var scope := [("scope", meta.scope)];
    var user := if meta.userId == "" then [] else [("user_id", meta.userId)];
    var kind := if meta.memType == "" then [] else [("type", meta.memType)];
    assert MetaKeys(meta) == scope + user + kind;
    MissingConcat(fields, scope + user, kind);
    MissingConcat(fields, scope, user);
    MissingOne(fields, "scope", meta.scope, true);
    MissingOne(fields, "user_id", meta.userId, meta.userId != "");
    MissingOne(fields, "type", meta.memType, meta.memType != "");
    assert "scope" + ":" == "scope:" && "user_id" + ":" == "user_id:" && "type" + ":" == "type:";
    assert "scope" + ": \"" == "scope: \"" && "user_id" + ": \"" == "user_id: \"" && "type" + ": \"" == "type: \"";
  }

  lemma FoundIn(a: seq<string>, b: seq<string>, c: seq<string>, d: seq<string>, i: nat)
    requires |a| <= i < |a| + |b| + |c| + |d|
    ensures var l := (a + (b + c + d))[i]; l in b || l in d || |a| + |b| <= i < |a| + |b| + |c|
  {
    var k := i - |a|;
    assert (a + (b + c + d))[i]
           == if k < |b| then b[k] else if k < |b| + |c| then c[k - |b|] else d[k - |b| - |c|];
  }

  lemma PartGains(fields: seq<string>, more: seq<string>, rest: seq<string>, prefix: string, line: string, given: bool)
    requires prefix <= line
    requires (forall l <- more :: !(prefix <= l)) && forall l <- rest :: !(prefix <= l)
    ensures Gains(fields, fields + (more + Part(fields, prefix, line, given) + rest), prefix, line, given)
  {
    var part := Part(fields, prefix, line, given);
    var all := fields + (more + part + rest);
    forall i | |fields| <= i < |all| && prefix <= all[i]
      ensures i == |fields| + |more| && part == [line]
    {
      FoundIn(fields, more, part, rest, i);
    }
    if given && !Opens(fields, prefix) {
      assert all[|fields| + |more|] == line;
    }
  }

  lemma PartLines(fields: seq<string>, prefix: string, line: string, given: bool, other: string)
    requires prefix <= line && other != "" && prefix != "" && other[0] != prefix[0]
    ensures forall l <- Part(fields, prefix, line, given) :: prefix <= l && !(other <= l)
  {
  }

  /** Adding the missing lines gives every attribute. */
  lemma MissingGives(fields: seq<string>, meta: Meta)
    ensures Gives(fields, fields + Missing(fields, MetaKeys(meta)), meta.scope, meta.userId, meta.memType)
    ensures Missing(fields, MetaKeys(meta)) == [] <==> Complete(fields, meta.scope, meta.userId, meta.memType)
  {
    hide Missing, MetaKeys, Gains, Opens;
    MissingIs(fields, meta);
    var scope, user, kind :=
      "scope: \"" + meta.scope + "\"\n", "user_id: \"" + meta.userId + "\"\n", "type: \"" + meta.memType + "\"\n";
    StartsWith("scope:", " \"" + meta.scope + "\"\n", scope);
    StartsWith("user_id:", " \"" + meta.userId + "\"\n", user);
    StartsWith("type:", " \"" + meta.memType + "\"\n", kind);
    ThreeGive(fields, scope, user, kind, meta.userId != "", meta.memType != "");
    var new' := Missing(fields, MetaKeys(meta));
    forall i | |fields| <= i < |fields + new'|
      ensures "scope:" <= (fields + new')[i] || "user_id:" <= (fields + new')[i] || "type:" <= (fields + new')[i]
    {
      assert (fields + new')[i] == new'[i - |fields|];
    }
  }

  lemma StartsWith(prefix: string, rest: string, all: string)
    requires all == prefix + rest
    ensures prefix <= all
  {
  }

  lemma ThreeGive(fields: seq<string>, scope: string, user: string, kind: string, hasUser: bool, hasKind: bool)
    requires "scope:" <= scope && "user_id:" <= user && "type:" <= kind
    ensures var new' := Part(fields, "scope:", scope, true) + Part(fields, "user_id:", user, hasUser)
                        + Part(fields, "type:", kind, hasKind);
            && Gains(fields, fields + new', "scope:", scope, true)
            && Gains(fields, fields + new', "user_id:", user, hasUser)
            && Gains(fields, fields + new', "type:", kind, hasKind)
            && forall l <- new' :: "scope:" <= l || "user_id:" <= l || "type:" <= l
  {
    hide Gains, Opens, Part;
    var a, b, c := Part(fields, "scope:", scope, true), Part(fields, "user_id:", user, hasUser),
        Part(fields, "type:", kind, hasKind);
    PartLines(fields, "scope:", scope, true, "user_id:");
    PartLines(fields, "scope:", scope, true, "type:");
    PartLines(fields, "user_id:", user, hasUser, "scope:");
    PartLines(fields, "user_id:", user, hasUser, "type:");
    PartLines(fields, "type:", kind, hasKind, "scope:");
    PartLines(fields, "type:", kind, hasKind, "user_id:");
    PartGains(fields, [], b + c, "scope:", scope, true);
    PartGains(fields, a, c, "user_id:", user, hasUser);
    PartGains(fields, a + b, [], "type:", kind, hasKind);
    assert [] + a + (b + c) == a + b + c && a + b + c + [] == a + b + c;
  }

  /** When an injection stops, when it has nothing to do, and what it writes: each attribute the text
      lacks, with its own value, behind the other fields; a text without front matter gets one. */
  lemma InjectGives(text: string, meta: Meta)
    requires PlainMeta(meta)
    ensures Inject(text, meta) == Unclosed <==> LeftOpen(text)
    ensures Inject(text, meta) == Present
            <==> SplitFront(text).Front? && Complete(FieldsOf(text), meta.scope, meta.userId, meta.memType)
    ensures Inject(text, meta).Injected? ==>
              GivenAll(text, Inject(text, meta).text, meta.scope, meta.userId, meta.memType)
  {
    hide MetaKeys, Missing, Complete, Gives, Fence, Lines, PlainMeta, Flat, SplitFront, Splittable, Whole;
    MissingGives(FieldsOf(text), meta);
    if SplitFront(text).Front? {
      FrontStartsWithFence(text);
    }
    if Inject(text, meta).Injected? {
      InjectedSplits(text, meta);
    }
  }

  lemma InjectedSplits(text: string, meta: Meta)
    requires PlainMeta(meta) && Inject(text, meta).Injected?
    ensures SplitFront(Inject(text, meta).text) == InjectedFront(text, meta)
    ensures FieldsOf(Inject(text, meta).text) == FieldsOf(text) + Missing(FieldsOf(text), MetaKeys(meta))
  {
    hide MetaKeys, Missing, Inject, PlainMeta, Splittable, Whole, SplitFront;
    InjectedIs(text, meta);
    SplitOfWhole(InjectedFront(text, meta));
  }

  // ---- Actions ----------------------------------------------------------------------------------

  datatype Action =
    | MoveTo(src: L.Path, dst: L.Path, meta: Option<Meta>)
    | Create(dst: L.Path, entry: string)
    | Annotate(src: L.Path, attributes: Meta)
    | MakeDir(dst: L.Path)
    | RemoveEmpty(src: L.Path)
    | Notify(note: string)

  /** What an action does to the tree and adds to the manifest; without `ok` it raised an exception
      after this much. */
  datatype Effect = Effect(tree: L.Tree<string>, ok: bool, steps: nat, moves: seq<L.Move>, modified: seq<L.Path>,
                           created: seq<L.Path>, removedDirs: seq<L.Path>, notes: seq<string>)

  function Skipped(t: L.Tree<string>): Effect {
    Effect(t, true, 0, [], [], [], [], [])
  }

  function Raised(t: L.Tree<string>): Effect {
    Skipped(t).(ok := false)
  }

  /** The attributes put into the file at `p`; reading a directory or an unclosed front matter raises. */
  function Annotated(t: L.Tree<string>, p: L.Path, meta: Meta): Effect {
    if p !in t.files then Raised(t)
    else
      match Inject(t.files[p], meta)
      case Unclosed => Raised(t)
      case Present => Skipped(t)
      case Injected(text) => Skipped(t.(files := t.files[p := text])).(modified := [p])
  }

  /** The directories at or below `path` that hold no file, at any depth. */
  function Empties(t: L.Tree<string>, path: L.Path): set<L.Path> {
    set d | d in t.dirs && path <= d && L.NothingAt(t, d)
  }

  function WithDirs(t: L.Tree<string>, dirs: set<L.Path>): L.Tree<string> {
    t.(dirs := t.dirs + dirs)
  }

  ghost function Perform(t: L.Tree<string>, a: Action): Effect
    requires t.WellFormed()
  {
    match a
    case MoveTo(src, dst, meta) =>
      if t.Exists(dst) || !t.Exists(src) then Skipped(t)
      else if L.Blocked(t, dst) then Raised(t)
      else if src <= dst then Raised(WithDirs(t, L.Above(dst)))
      else
        L.AbsentBelow(t, dst);
        var u := L.Moved(t, src, dst);
        var e := if meta.Some? then Annotated(u, dst, meta.value) else Skipped(u);
        e.(moves := [L.Move(src, dst)], steps := if e.ok then 1 else 0)
    case Create(dst, entry) =>
      if t.Exists(dst) then Skipped(t)
      else if L.Blocked(t, dst) then Raised(t)
      else Skipped(L.Tree(t.files[dst := entry], t.dirs + L.Above(dst))).(created := [dst], steps := 1)
    case Annotate(src, meta) =>
      if !t.Exists(src) then Skipped(t)
      else
        var e := Annotated(t, src, meta.(memType := ""));
        e.(steps := |e.modified|)
    case MakeDir(dst) =>
      if t.Exists(dst) then Skipped(t)
      else if L.Blocked(t, dst) then Raised(t)
      else Skipped(WithDirs(t, L.Above(dst) + {dst})).(steps := 1)
    case RemoveEmpty(src) =>
      var u := t.(dirs := t.dirs - Empties(t, src));
      if src in Empties(t, src) then Skipped(u).(removedDirs := [src], steps := 1) else Skipped(u)
    case Notify(note) => Skipped(t).(notes := [note], steps := 1)
  }

  // ---- Conservation -----------------------------------------------------------------------------

  /** Every file of `t` is in `u`, where the moves put it and with its text up to injected front matter;
      no two have become one; and the others are `born` new files. */
  ghost predicate Conserved(t: L.Tree<string>, u: L.Tree<string>, log: seq<L.Move>, born: nat) {
    && (forall p <- t.files :: L.Forward(p, log) in u.files && Kept(t.files[p], u.files[L.Forward(p, log)]))
    && (forall p, q | p in t.files && q in t.files && L.Forward(p, log) == L.Forward(q, log) :: p == q)
    && |u.files| == |t.files| + born
  }

  lemma {:induction false} ForwardConcat(p: L.Path, a: seq<L.Move>, b: seq<L.Move>)
    ensures L.Forward(p, a + b) == L.Forward(L.Forward(p, a), b)
    decreases |a|
  {
    if a == [] {
      assert a + b == b;
    } else {
      assert (a + b)[1..] == a[1..] + b;
      ForwardConcat(L.Rebase(p, a[0].from, a[0].to), a[1..], b);
    }
  }

  lemma ConservedTransitive(t: L.Tree<string>, u: L.Tree<string>, v: L.Tree<string>,
                            a: seq<L.Move>, b: seq<L.Move>, m: nat, n: nat)
    requires Conserved(t, u, a, m) && Conserved(u, v, b, n)
    ensures Conserved(t, v, a + b, m + n)
  {
    hide Kept;
    hide L.Forward;
    forall p | p in t.files
      ensures L.Forward(p, a + b) == L.Forward(L.Forward(p, a), b)
      ensures L.Forward(p, a + b) in v.files && Kept(t.files[p], v.files[L.Forward(p, a + b)])
    {
      ForwardConcat(p, a, b);
      var q := L.Forward(p, a);
      KeptTransitive(t.files[p], u.files[q], v.files[L.Forward(q, b)]);
    }
  }

  lemma {:induction false} InjectiveImage(xs: set<L.Path>, src: L.Path, dst: L.Path)
    requires forall p <- xs :: !(dst <= p)
    ensures |L.RebaseDirs(xs, src, dst)| == |xs|
  {
    if xs != {} {
      var p :| p in xs;
      var rest := xs - {p};
      InjectiveImage(rest, src, dst);
      forall q | q in rest
        ensures L.Rebase(q, src, dst) != L.Rebase(p, src, dst)
      {
        if L.Rebase(q, src, dst) == L.Rebase(p, src, dst) {
          L.RebaseInjective(p, q, src, dst);
        }
      }
      hide L.Rebase;
      assert L.RebaseDirs(xs, src, dst) == L.RebaseDirs(rest, src, dst) + {L.Rebase(p, src, dst)};
    }
  }

  lemma MoveConserves(t: L.Tree<string>, src: L.Path, dst: L.Path)
    requires L.NothingAt(t, dst)
    ensures Conserved(t, L.Moved(t, src, dst), [L.Move(src, dst)], 0)
  {
    var log := [L.Move(src, dst)];
    var u := L.Moved(t, src, dst);
    assert log[1..] == [];
    forall p | p in t.files
      ensures L.Forward(p, log) == L.Rebase(p, src, dst)
    {
      assert L.Forward(L.Rebase(p, src, dst), []) == L.Rebase(p, src, dst);
    }
    L.RebaseKeys(t.files, src, dst);
    InjectiveImage(t.files.Keys, src, dst);
    assert |t.files| == |t.files.Keys| && |u.files| == |u.files.Keys|;
    hide L.Rebase, L.RebaseDirs, Kept;
    forall p, q | p in t.files && q in t.files && L.Forward(p, log) == L.Forward(q, log)
      ensures p == q
    {
      L.RebaseInjective(p, q, src, dst);
    }
    forall p | p in t.files
      ensures Kept(t.files[p], t.files[p])
    {
      KeptSame(t.files[p]);
    }
  }

  lemma KeptSame(a: string)
    ensures Kept(a, a)
  {
  }

  lemma AnnotatedConserves(t: L.Tree<string>, p: L.Path, meta: Meta)
    requires PlainMeta(meta)
    ensures Conserved(t, Annotated(t, p, meta).tree, [], 0)
    ensures Annotated(t, p, meta).tree.dirs == t.dirs && Annotated(t, p, meta).tree.files.Keys == t.files.Keys
  {
    hide Kept, Inject;
    var u := Annotated(t, p, meta).tree;
    forall q | q in t.files
      ensures q in u.files && Kept(t.files[q], u.files[q])
    {
      KeptSame(t.files[q]);
      if q == p && Inject(t.files[p], meta).Injected? {
        InjectKeeps(t.files[p], meta);
      }
    }
    assert u.files.Keys == t.files.Keys;
    assert |t.files| == |t.files.Keys| && |u.files| == |u.files.Keys|;
  }

  ghost predicate PlainAction(a: Action) {
    match a
    case MoveTo(_, _, meta) => meta.Some? ==> PlainMeta(meta.value)
    case Annotate(_, meta) => PlainMeta(meta)
    case RemoveEmpty(src) => src != []
    case _ => true
  }

  lemma AddedDirsFit(t: L.Tree<string>, p: L.Path, dirs: set<L.Path>)
    requires t.WellFormed() && !t.Exists(p) && !L.Blocked(t, p)
    requires L.Above(p) <= dirs <= L.Above(p) + {p}
    ensures WithDirs(t, dirs).WellFormed()
  {
    var u := WithDirs(t, dirs);
    forall d, i | d in dirs && 0 <= i < |d|
      ensures d[..i] in u.dirs
    {
      L.AboveIs(p, d);
      assert d[..i] == p[..i] && p[..i] in L.Above(p);
    }
  }

  lemma CreatedFits(t: L.Tree<string>, p: L.Path, text: string)
    requires t.WellFormed() && !t.Exists(p) && !L.Blocked(t, p)
    ensures L.Tree(t.files[p := text], t.dirs + L.Above(p)).WellFormed()
  {
    AddedDirsFit(t, p, L.Above(p));
    var u := L.Tree(t.files[p := text], t.dirs + L.Above(p));
    forall i | 0 <= i < |p|
      ensures p[..i] in u.dirs
    {
      assert p[..i] in L.Above(p);
    }
    L.AboveIs(p, p);
  }

  lemma PrunedFits(t: L.Tree<string>, path: L.Path, gone: set<L.Path>)
    requires t.WellFormed() && path != []
    requires forall d <- gone :: d in Empties(t, path)
    requires forall d, e | d in gone && e in t.dirs && d <= e :: e in gone
    ensures t.(dirs := t.dirs - gone).WellFormed()
  {
    var u := t.(dirs := t.dirs - gone);
    forall p, i | (p in u.files || p in u.dirs) && 0 <= i < |p|
      ensures p[..i] in u.dirs
    {
      assert p[..i] <= p && p[..i] in t.dirs;
    }
    assert [] !in gone;
  }

  lemma EmptiesAreClosed(t: L.Tree<string>, path: L.Path, d: L.Path, e: L.Path)
    requires d in Empties(t, path) && e in t.dirs && d <= e
    ensures e in Empties(t, path)
  {
    forall p | p in t.files
      ensures !(e <= p)
    {
      assert e <= p ==> d <= p;
    }
  }

  /** An effect that leaves a tree and loses, overwrites or merges no file. */
  ghost predicate Sound(t: L.Tree<string>, e: Effect) {
    e.tree.WellFormed() && Conserved(t, e.tree, e.moves, |e.created|)
  }

  lemma AllEmptiesGo(t: L.Tree<string>, path: L.Path)
    requires t.WellFormed() && path != []
    ensures t.(dirs := t.dirs - Empties(t, path)).WellFormed()
  {
    var gone := Empties(t, path);
    hide Empties, L.Tree.WellFormed;
    forall d, e | d in gone && e in t.dirs && d <= e
      ensures e in gone
    {
      EmptiesAreClosed(t, path, d, e);
    }
    PrunedFits(t, path, gone);
  }

  lemma SameFiles(t: L.Tree<string>, u: L.Tree<string>)
    requires u.files == t.files
    ensures Conserved(t, u, [], 0)
  {
    hide Kept;
    forall p | p in t.files
      ensures Kept(t.files[p], u.files[p])
    {
      KeptSame(t.files[p]);
    }
  }

  lemma NothingDone(t: L.Tree<string>)
    ensures Conserved(t, t, [], 0)
  {
    SameFiles(t, t);
  }

  lemma PlainWithoutType(meta: Meta)
    requires PlainMeta(meta)
    ensures PlainMeta(meta.(memType := ""))
  {
  }

  lemma OnlyModifies(t: L.Tree<string>, p: L.Path, meta: Meta)
    ensures var e := Annotated(t, p, meta);
            e.moves == [] && e.created == [] && e.removedDirs == [] && e.notes == [] && e.steps == 0
  {
  }

  lemma AnnotatedFits(t: L.Tree<string>, p: L.Path, meta: Meta)
    requires t.WellFormed() && PlainMeta(meta)
    ensures Annotated(t, p, meta).tree.WellFormed()
    ensures Annotated(t, p, meta).created == []
    ensures Annotated(t, p, meta).moves == []
  {
    AnnotatedConserves(t, p, meta);
    hide Inject, PlainMeta;
  }

  lemma MovePerformed(t: L.Tree<string>, src: L.Path, dst: L.Path, meta: Option<Meta>)
    requires t.WellFormed() && t.Exists(src) && !t.Exists(dst) && !L.Blocked(t, dst) && !(src <= dst)
    requires meta.Some? ==> PlainMeta(meta.value)
    ensures var e := Perform(t, MoveTo(src, dst, meta));
            Sound(t, e)
  {
    hide PlainMeta, Annotated, Conserved, L.Moved, L.Above;
    L.AbsentBelow(t, dst);
    L.MovedWellFormed(t, src, dst);
    MoveConserves(t, src, dst);
    hide L.Tree.WellFormed;
    hide L.NothingAt, L.Blocked;
    var u := L.Moved(t, src, dst);
    if meta.Some? {
      AnnotatedFits(u, dst, meta.value);
      AnnotatedConserves(u, dst, meta.value);
      ConservedTransitive(t, u, Annotated(u, dst, meta.value).tree, [L.Move(src, dst)], [], 0, 0);
      assert [L.Move(src, dst)] + [] == [L.Move(src, dst)];
    }
  }

  lemma CreateConserves(t: L.Tree<string>, dst: L.Path, entry: string)
    requires !t.Exists(dst)
    ensures Conserved(t, L.Tree(t.files[dst := entry], t.dirs + L.Above(dst)), [], 1)
  {
    hide Kept, L.Above;
    var files := t.files[dst := entry];
    forall p | p in t.files
      ensures Kept(t.files[p], files[p])
    {
      KeptSame(t.files[p]);
    }
    assert files.Keys == t.files.Keys + {dst};
    assert |files| == |files.Keys| && |t.files| == |t.files.Keys|;
  }

  lemma CreatePerformed(t: L.Tree<string>, dst: L.Path, entry: string)
    requires t.WellFormed()
    ensures Sound(t, Perform(t, Create(dst, entry)))
  {
    hide L.Tree.WellFormed, Conserved, L.Above, L.Blocked;
    NothingDone(t);
    if !t.Exists(dst) && !L.Blocked(t, dst) {
      CreatedFits(t, dst, entry);
      CreateConserves(t, dst, entry);
    }
  }

  lemma MakeDirPerformed(t: L.Tree<string>, dst: L.Path)
    requires t.WellFormed()
    ensures Sound(t, Perform(t, MakeDir(dst)))
  {
    hide L.Tree.WellFormed, Conserved, L.Above, L.Blocked;
    NothingDone(t);
    if !t.Exists(dst) && !L.Blocked(t, dst) {
      AddedDirsFit(t, dst, L.Above(dst) + {dst});
      SameFiles(t, WithDirs(t, L.Above(dst) + {dst}));
    }
  }

  lemma RemovePerformed(t: L.Tree<string>, src: L.Path)
    requires t.WellFormed() && src != []
    ensures Sound(t, Perform(t, RemoveEmpty(src)))
  {
    hide L.Tree.WellFormed, Conserved, Empties;
    AllEmptiesGo(t, src);
    SameFiles(t, t.(dirs := t.dirs - Empties(t, src)));
  }

  lemma AnnotatePerformed(t: L.Tree<string>, src: L.Path, meta: Meta)
    requires t.WellFormed() && PlainMeta(meta)
    ensures Sound(t, Perform(t, Annotate(src, meta)))
  {
    hide L.Tree.WellFormed, Conserved, Annotated, PlainMeta, L.Tree.Exists;
    if !t.Exists(src) {
      NothingDone(t);
    } else {
      var plain := meta.(memType := "");
      PlainWithoutType(meta);
      AnnotatedConserves(t, src, plain);
      AnnotatedFits(t, src, plain);
      assert Perform(t, Annotate(src, meta)) == Annotated(t, src, plain).(steps := |Annotated(t, src, plain).modified|);
    }
  }

  /** Every action keeps the tree a tree and loses, overwrites or merges no file, also when it raises. */
  lemma PerformConserves(t: L.Tree<string>, a: Action)
    requires t.WellFormed() && PlainAction(a)
    ensures Sound(t, Perform(t, a))
  {
    hide L.Tree.WellFormed, L.Moved, Conserved, Annotated, L.Above, L.Blocked, Empties, PlainMeta, L.NothingAt;
    match a
    case MoveTo(src, dst, meta) =>
      if !t.Exists(dst) && t.Exists(src) && !L.Blocked(t, dst) && !(src <= dst) {
        MovePerformed(t, src, dst, meta);
      } else {
        MoveRefused(t, src, dst, meta);
      }
    case Create(dst, entry) => CreatePerformed(t, dst, entry);
    case Annotate(src, meta) => AnnotatePerformed(t, src, meta);
    case MakeDir(dst) => MakeDirPerformed(t, dst);
    case RemoveEmpty(src) => RemovePerformed(t, src);
    case Notify(note) => NothingDone(t);
  }

  lemma MoveRefused(t: L.Tree<string>, src: L.Path, dst: L.Path, meta: Option<Meta>)
    requires t.WellFormed()
    requires t.Exists(dst) || !t.Exists(src) || L.Blocked(t, dst) || src <= dst
    ensures Sound(t, Perform(t, MoveTo(src, dst, meta)))
  {
    hide L.Tree.WellFormed, Conserved, L.Above, L.Blocked;
    NothingDone(t);
    if !t.Exists(dst) && t.Exists(src) && !L.Blocked(t, dst) {
      AddedDirsFit(t, dst, L.Above(dst));
      SameFiles(t, WithDirs(t, L.Above(dst)));
    }
  }

  // ---- Runs -------------------------------------------------------------------------------------

  function Then(e: Effect, f: Effect): Effect {
    Effect(f.tree, f.ok, e.steps + f.steps, e.moves + f.moves, e.modified + f.modified,
           e.created + f.created, e.removedDirs + f.removedDirs, e.notes + f.notes)
  }

  /** A list of actions, up to the first that raises. */
  ghost function PerformAll(t: L.Tree<string>, actions: seq<Action>): Effect
    requires t.WellFormed() && forall a <- actions :: PlainAction(a)
    decreases |actions|
  {
    hide Perform, PlainAction, Conserved, L.Tree.WellFormed;
    if actions == [] then Skipped(t)
    else
      var e := Perform(t, actions[0]);
      PerformConserves(t, actions[0]);
      if e.ok then Then(e, PerformAll(e.tree, actions[1..])) else e
  }

  /** What attributes do to the text at `p`, and when they raise or change nothing. */
  ghost predicate Writes(t: L.Tree<string>, e: Effect, p: L.Path, scope: string, userId: string, memType: string)
    requires p in t.files
  {
    var text := t.files[p];
    && (e.ok <==> !LeftOpen(text))
    && e.tree.files.Keys == t.files.Keys && e.tree == t.(files := t.files[p := e.tree.files[p]])
    && e.modified
       == (if LeftOpen(text) || (SplitFront(text).Front? && Complete(FieldsOf(text), scope, userId, memType)) then []
           else [p])
    && (if e.modified == [] then e.tree == t else GivenAll(text, e.tree.files[p], scope, userId, memType))
  }

  lemma AnnotatedWrites(t: L.Tree<string>, p: L.Path, meta: Meta)
    requires PlainMeta(meta) && p in t.files
    ensures Writes(t, Annotated(t, p, meta), p, meta.scope, meta.userId, meta.memType)
  {
    hide GivenAll, LeftOpen, Inject, PlainMeta, Complete, SplitFront;
    InjectGives(t.files[p], meta);
    var files := Annotated(t, p, meta).tree.files;
    assert files == t.files[p := files[p]];
  }

  /** An annotation gives the file its scope and owner, each where it has none, and never a type. */
  lemma AnnotateGives(t: L.Tree<string>, src: L.Path, meta: Meta)
    requires t.WellFormed() && PlainMeta(meta) && src in t.files
    ensures Writes(t, Perform(t, Annotate(src, meta)), src, meta.scope, meta.userId, "")
  {
    hide GivenAll, LeftOpen, Annotated, PlainMeta, Complete, SplitFront, L.Tree.WellFormed;
    PlainWithoutType(meta);
    AnnotatedWrites(t, src, meta.(memType := ""));
  }

  /** A creation writes its entry where nothing was, makes the directories above it, and touches no
      other file. */
  lemma CreateGives(t: L.Tree<string>, dst: L.Path, entry: string)
    requires t.WellFormed()
    ensures var e := Perform(t, Create(dst, entry));
            && (e.created == [dst] <==> !t.Exists(dst) && forall i | 0 <= i < |dst| :: dst[..i] !in t.files)
            && (e.created != [dst] ==> e.tree == t && e.created == [])
            && (e.created == [dst] ==>
                  && e.ok && e.tree.files == t.files[dst := entry] && t.dirs <= e.tree.dirs
                  && (forall i | 0 <= i < |dst| :: dst[..i] in e.tree.dirs))
  {
    assert forall i | 0 <= i < |dst| :: dst[..i] in L.Above(dst);
    assert forall q <- L.Above(dst) :: exists i | 0 <= i < |dst| :: q == dst[..i];
  }

  /** A directory is made, with those above it, exactly where nothing is and nothing above is a file. */
  lemma MakeDirGives(t: L.Tree<string>, dst: L.Path)
    requires t.WellFormed()
    ensures var e := Perform(t, MakeDir(dst));
            && e.tree.files == t.files && t.dirs <= e.tree.dirs
            && (e.steps == 1 <==> !t.Exists(dst) && forall i | 0 <= i < |dst| :: dst[..i] !in t.files)
            && (e.steps == 1 ==> forall i | 0 <= i <= |dst| :: dst[..i] in e.tree.dirs)
            && (e.steps != 1 ==> e.tree == t)
  {
    assert forall i | 0 <= i < |dst| :: dst[..i] in L.Above(dst);
    assert forall q <- L.Above(dst) :: exists i | 0 <= i < |dst| :: q == dst[..i];
    assert dst[..|dst|] == dst;
  }

  /** What is left of a tree cleared at `src`: every directory there has a file below it, and every one that
      had is left; nothing else changes.  The top is logged exactly when it goes. */
  lemma RemoveGives(t: L.Tree<string>, src: L.Path)
    requires t.WellFormed()
    ensures var e := Perform(t, RemoveEmpty(src));
            && e.tree.files == t.files && e.tree.dirs <= t.dirs
            && (forall d <- t.dirs :: d in e.tree.dirs <==> !(src <= d) || exists p <- t.files :: d <= p)
            && (if src in t.dirs && src !in e.tree.dirs then e.removedDirs == [src] && e.steps == 1
                else e.removedDirs == [] && e.steps == 0)
  {
    hide L.Tree.WellFormed;
  }

  /** `u` is `t` with everything at or below `src` at the same place at or below `dst`. */
  ghost predicate Relocated(t: L.Tree<string>, u: L.Tree<string>, src: L.Path, dst: L.Path) {
    && (forall p <- t.files :: src <= p ==> dst + p[|src|..] in u.files && u.files[dst + p[|src|..]] == t.files[p])
    && (forall p <- t.files :: !(src <= p) ==> p in u.files && u.files[p] == t.files[p])
    && (forall p <- u.files :: !(src <= p) && (p in t.files || dst <= p))
  }

  lemma MovedRelocates(t: L.Tree<string>, src: L.Path, dst: L.Path)
    requires t.WellFormed() && t.Exists(src) && !t.Exists(dst) && !(src <= dst) && L.NothingAt(t, dst)
    ensures Relocated(t, L.Moved(t, src, dst), src, dst)
  {
    var u := L.Moved(t, src, dst);
    forall p | p in t.files
      ensures src <= p ==> dst + p[|src|..] in u.files && u.files[dst + p[|src|..]] == t.files[p]
      ensures !(src <= p) ==> p in u.files && u.files[p] == t.files[p]
    {
      assert L.Rebase(p, src, dst) in u.files;
    }
    forall q | q in u.files
      ensures !(src <= q) && (q in t.files || dst <= q)
    {
      var p :| p in t.files && q == L.Rebase(p, src, dst);
      if src <= p {
        NotAbove(t, src, dst, q);
      }
    }
  }

  /** Nothing at or below a free place is at or below an existing path that is not above it. */
  lemma NotAbove(t: L.Tree<string>, src: L.Path, dst: L.Path, q: L.Path)
    requires t.WellFormed() && t.Exists(src) && !t.Exists(dst) && !(src <= dst) && dst <= q
    ensures !(src <= q)
  {
    hide L.Tree.WellFormed;
    if src <= q {
      BothPrefixes(src, dst, q);
      ExistsAbove(t, dst, src);
    }
  }

  lemma BothPrefixes(a: L.Path, b: L.Path, p: L.Path)
    requires a <= p && b <= p
    ensures a <= b || b <= a
  {
    assert a == p[..|a|] && b == p[..|b|];
  }

  lemma ExistsAbove(t: L.Tree<string>, a: L.Path, p: L.Path)
    requires t.WellFormed() && t.Exists(p) && a <= p
    ensures t.Exists(a)
  {
    assert p[..|a|] == a;
    if |a| == |p| {
      assert a == p;
    } else {
      assert p[..|a|] in t.dirs;
    }
  }

  /** A move takes everything at or below the source along, and gives the moved file its scope, owner and
      type, each where it has none; without attributes it changes no text. */
  lemma MoveGives(t: L.Tree<string>, src: L.Path, dst: L.Path, meta: Option<Meta>)
    requires t.WellFormed() && t.Exists(src) && !t.Exists(dst) && !L.Blocked(t, dst) && !(src <= dst)
    requires meta.Some? ==> PlainMeta(meta.value)
    ensures var e := Perform(t, MoveTo(src, dst, meta)); e.moves == [L.Move(src, dst)]
    ensures exists u ::
              && Relocated(t, u, src, dst)
              && var e := Perform(t, MoveTo(src, dst, meta));
                 if meta.None? then e.ok && e.tree == u
                 else if dst in u.files then Writes(u, e, dst, meta.value.scope, meta.value.userId, meta.value.memType)
                 else !e.ok && e.tree == u
  {
    hide Annotated, L.Moved, L.Blocked, PlainMeta, Writes, Relocated;
    L.AbsentBelow(t, dst);
    var u := L.Moved(t, src, dst);
    MovedRelocates(t, src, dst);
    if meta.Some? {
      if dst in u.files {
        AnnotatedWrites(u, dst, meta.value);
        WritesAnyHistory(u, Annotated(u, dst, meta.value), dst, meta.value, [L.Move(src, dst)]);
      } else {
        AnnotatedRaises(u, dst, meta.value);
      }
    }
  }

  lemma WritesAnyHistory(t: L.Tree<string>, e: Effect, p: L.Path, meta: Meta, moves: seq<L.Move>)
    requires p in t.files && Writes(t, e, p, meta.scope, meta.userId, meta.memType)
    ensures Writes(t, e.(moves := moves, steps := if e.ok then 1 else 0), p, meta.scope, meta.userId, meta.memType)
  {
    hide GivenAll, LeftOpen, Complete, SplitFront;
  }

  lemma AnnotatedRaises(t: L.Tree<string>, p: L.Path, meta: Meta)
    requires p !in t.files
    ensures !Annotated(t, p, meta).ok && Annotated(t, p, meta).tree == t
  {
  }

  /** No run of actions, finished or cut short by an exception, loses, overwrites or merges a file; every
      text is kept up to injected front matter. */
  lemma {:induction false} RunConserves(t: L.Tree<string>, actions: seq<Action>)
    requires t.WellFormed() && forall a <- actions :: PlainAction(a)
    ensures Sound(t, PerformAll(t, actions))
    decreases |actions|
  {
    hide L.Tree.WellFormed, Conserved, PlainAction, Perform;
    if actions == [] {
      NothingDone(t);
    } else {
      var e := Perform(t, actions[0]);
      PerformConserves(t, actions[0]);
      if e.ok {
        var f := PerformAll(e.tree, actions[1..]);
        RunConserves(e.tree, actions[1..]);
        ConservedTransitive(t, e.tree, f.tree, e.moves, f.moves, |e.created|, |f.created|);
      }
    }
  }

  /** A file tree and the manifest of what was done to it. */
  class Migration {
    var tree: L.Tree<string>
    var moves: seq<L.Move>
    var modified: seq<L.Path>
    var created: seq<L.Path>
    var removedDirs: seq<L.Path>
    var notifies: seq<string>

    ghost predicate Valid()
      reads this
    {
      tree.WellFormed()
    }

    /** The tree and the manifest, as the effect of everything done so far. */
    ghost function Manifest(ok: bool, steps: nat): Effect
      reads this
    {
      Effect(tree, ok, steps, moves, modified, created, removedDirs, notifies)
    }

    constructor (files: L.Tree<string>)
      requires files.WellFormed()
      ensures Valid() && Manifest(true, 0) == Skipped(files)
    {
      tree := files;
      moves, modified, created, removedDirs, notifies := [], [], [], [], [];
    }

    /** Read a file, add what attributes it lacks and write it back. */
    method InjectInto(p: L.Path, meta: Meta) returns (ok: bool)
      modifies this`tree, this`modified
      ensures var e := Annotated(old(tree), p, meta);
              tree == e.tree && ok == e.ok && modified == old(modified) + e.modified
    {
      ok := p in tree.files;
      if ok {
        match Inject(tree.files[p], meta) {
          case Unclosed => ok := false;
          case Present =>
          case Injected(text) =>
            tree := tree.(files := tree.files[p := text]);
            modified := modified + [p];
        }
      }
    }

    method MoveInto(src: L.Path, dst: L.Path, meta: Option<Meta>) returns (ok: bool, n: nat)
      requires Valid() && PlainAction(MoveTo(src, dst, meta))
      modifies this
      ensures Valid()
      ensures Manifest(ok, n) == Then(old(Manifest(true, 0)), old(Perform(tree, MoveTo(src, dst, meta))))
    {
      hide Annotated, L.Moved, L.Above, PlainMeta, Conserved, Inject;
      PerformConserves(tree, MoveTo(src, dst, meta));
      ok, n := true, 0;
      if tree.Exists(dst) || !tree.Exists(src) {
        return;
      }
      if L.Blocked(tree, dst) {
        return false, 0;
      }
      if src <= dst {
        tree := WithDirs(tree, L.Above(dst));
        return false, 0;
      }
      L.AbsentBelow(tree, dst);
      tree := L.Moved(tree, src, dst);
      moves := moves + [L.Move(src, dst)];
      if meta.Some? {
        OnlyModifies(tree, dst, meta.value);
        ok := InjectInto(dst, meta.value);
      }
      n := if ok then 1 else 0;
    }

    /** Remove the directories at or below `path` that hold no file, children first. */
    method RemoveEmptyTree(path: L.Path) returns (removed: bool)
      requires Valid() && path != []
      modifies this`tree
      ensures Valid()
      ensures tree == old(tree).(dirs := old(tree).dirs - Empties(old(tree), path))
      ensures removed <==> path in Empties(old(tree), path)
      decreases DirsBelow(tree.dirs, path)
    {
      hide DirsBelow, Children, GoneBelow, Empties, L.Tree.WellFormed;
      ghost var start := tree;
      AllEmptiesGo(tree, path);
      if path !in tree.dirs {
        NothingToClear(tree, path);
        return false;
      }
      var children := Children(tree.dirs, path);
      ghost var done: set<L.Path> := {};
      ChildrenFound(start, path);
      while children != {}
        invariant Valid() && tree == start.(dirs := start.dirs - GoneBelow(start, path, done))
        invariant forall c <- children :: |c| == |path| + 1 && path <= c
        invariant forall d <- start.dirs :: path <= d && |d| > |path| ==> d[..|path| + 1] in children + done
        decreases |children|
      {
        var child :| child in children;
        ChildIsSmaller(start.dirs, tree.dirs, path, child);
        GoneGrows(start, tree, path, done, child);
        var gone := RemoveEmptyTree(child);
        children, done := children - {child}, done + {child};
      }
      ClearedAll(start, tree, path, done);
      if exists p <- tree.files :: path <= p {
        return false;
      }
      tree := tree.(dirs := tree.dirs - DirsBelow(tree.dirs, path));
      return true;
    }

    method WriteNew(dst: L.Path, entry: string) returns (ok: bool, n: nat)
      requires Valid()
      modifies this
      ensures Valid()
      ensures Manifest(ok, n) == Then(old(Manifest(true, 0)), old(Perform(tree, Create(dst, entry))))
    {
      hide L.Above, Conserved, L.Blocked;
      PerformConserves(tree, Create(dst, entry));
      ok, n := true, 0;
      if !tree.Exists(dst) {
        if L.Blocked(tree, dst) {
          return false, 0;
        }
        tree := L.Tree(tree.files[dst := entry], tree.dirs + L.Above(dst));
        created := created + [dst];
        n := 1;
      }
    }

    method AnnotateFile(src: L.Path, attributes: Meta) returns (ok: bool, n: nat)
      requires Valid() && PlainAction(Annotate(src, attributes))
      modifies this
      ensures Valid()
      ensures Manifest(ok, n) == Then(old(Manifest(true, 0)), old(Perform(tree, Annotate(src, attributes))))
    {
      hide Annotated, PlainMeta, Conserved, Inject;
      PerformConserves(tree, Annotate(src, attributes));
      ok, n := true, 0;
      if tree.Exists(src) {
        var before := |modified|;
        OnlyModifies(tree, src, attributes.(memType := ""));
        ok := InjectInto(src, attributes.(memType := ""));
        n := |modified| - before;
      }
    }

    method MakeDirectory(dst: L.Path) returns (ok: bool, n: nat)
      requires Valid()
      modifies this
      ensures Valid()
      ensures Manifest(ok, n) == Then(old(Manifest(true, 0)), old(Perform(tree, MakeDir(dst))))
    {
      hide L.Above, Conserved, L.Blocked;
      PerformConserves(tree, MakeDir(dst));
      ok, n := true, 0;
      if !tree.Exists(dst) {
        if L.Blocked(tree, dst) {
          return false, 0;
        }
        tree := WithDirs(tree, L.Above(dst) + {dst});
        n := 1;
      }
    }

    /** One action; without `ok` it raised an exception. */
    method ExecuteAction(a: Action) returns (ok: bool, n: nat)
      requires Valid() && PlainAction(a)
      modifies this
      ensures Valid()
      ensures Manifest(ok, n) == Then(old(Manifest(true, 0)), old(Perform(tree, a)))
    {
      hide Annotated, L.Moved, L.Above, PlainMeta, L.Tree.WellFormed, Empties;
      match a {
        case MoveTo(src, dst, meta) => ok, n := MoveInto(src, dst, meta);
        case Create(dst, entry) => ok, n := WriteNew(dst, entry);
        case Annotate(src, attributes) => ok, n := AnnotateFile(src, attributes);
        case MakeDir(dst) => ok, n := MakeDirectory(dst);
        case RemoveEmpty(src) =>
          var removed := RemoveEmptyTree(src);
          ok, n := true, 0;
          if removed {
            removedDirs := removedDirs + [src];
            n := 1;
          }
        case Notify(note) =>
          notifies := notifies + [note];
          ok, n := true, 1;
      }
    }

    /** The planned actions in order, stopping at the first that raises. */
    method Apply(actions: seq<Action>) returns (ok: bool, total: nat)
      requires Valid() && forall a <- actions :: PlainAction(a)
      modifies this
      ensures Valid()
      ensures Manifest(ok, total) == Then(old(Manifest(true, 0)), old(PerformAll(tree, actions)))
    {
      hide L.Tree.WellFormed, PlainAction, Perform;
      ok, total := true, 0;
      ghost var goal := Then(Manifest(true, 0), PerformAll(tree, actions));
      var i := 0;
      while i < |actions|
        invariant 0 <= i <= |actions| && ok && Valid()
        invariant Then(Manifest(true, total), PerformAll(tree, actions[i..])) == goal
      {
        ghost var before, rest := Manifest(true, total), actions[i..];
        ghost var e := Perform(tree, actions[i]);
        assert rest[0] == actions[i] && rest[1..] == actions[i + 1..];
        var n: nat;
        ok, n := ExecuteAction(actions[i]);
        if !ok {
          total := total + n;
          return;
        }
        total := total + n;
        i := i + 1;
      }
      assert actions[i..] == [];
    }

    /** The logged moves, last first; without `ok` one raised. */
    method UndoMoves() returns (ok: bool)
      modifies this`tree
      ensures L.Undone(tree, ok) == L.Undo(old(tree), moves)
    {
      hide L.Moved, L.Above, L.Blocked;
      ok := true;
      ghost var start := tree;
      var i := |moves|;
      assert moves[i..] == [];
      while i > 0
        invariant 0 <= i <= |moves|
        invariant L.Undo(start, moves[i..]) == L.Undone(tree, true)
      {
        i := i - 1;
        var m := moves[i];
        assert moves[i..][0] == m && moves[i..][1..] == moves[i + 1..];
        if tree.Exists(m.to) && !tree.Exists(m.from) {
          if L.Blocked(tree, m.from) {
            UndoStops(start, moves, i);
            return false;
          }
          if m.to <= m.from || !L.NothingAt(tree, m.from) {
            tree := WithDirs(tree, L.Above(m.from));
            UndoStops(start, moves, i);
            return false;
          }
          tree := L.Moved(tree, m.to, m.from);
        }
      }
      assert moves[0..] == moves;
    }

    /** The created files, last first; without `ok` one was a directory. */
    method UnlinkCreated() returns (ok: bool)
      modifies this`tree
      ensures L.Undone(tree, ok) == L.Unlink(old(tree), created)
    {
      hide L.Childless;
      ok := true;
      ghost var start := tree;
      var i := |created|;
      assert created[i..] == [];
      while i > 0
        invariant 0 <= i <= |created|
        invariant L.Unlink(start, created[i..]) == L.Undone(tree, true)
      {
        i := i - 1;
        var c := created[i];
        assert created[i..][0] == c && created[i..][1..] == created[i + 1..];
        if tree.Exists(c) {
          if c !in tree.files || c == [] {
            UnlinkStops(start, created, i);
            return false;
          }
          tree := tree.(files := tree.files - {c});
          var parent := c[..|c| - 1];
          if parent != [] && L.Childless(tree, parent) {
            tree := tree.(dirs := tree.dirs - {parent});
          }
        }
      }
      assert created[0..] == created;
    }

    /** The modified files, as the archive has them; without `ok` one is a directory by now. */
    method RestoreModified(archive: map<L.Path, string>) returns (ok: bool)
      modifies this`tree
      ensures L.Undone(tree, ok) == Restore(old(tree), modified, archive)
    {
      ok := true;
      ghost var start := tree;
      var i := 0;
      while i < |modified|
        invariant 0 <= i <= |modified|
        invariant Restore(start, modified[..i], archive) == L.Undone(tree, true)
      {
        var p := modified[i];
        assert modified[..i + 1][..i] == modified[..i] && modified[..i + 1][i] == p;
        if p in archive && tree.Exists(p) {
          if p !in tree.files {
            RestoreStops(start, modified, i + 1, archive);
            return false;
          }
          tree := tree.(files := tree.files[p := archive[p]]);
        }
        i := i + 1;
      }
      assert modified[..i] == modified;
    }

    /** `rollback`: created files go, modified ones get their archived texts, and the logged moves are undone;
        without `ok` something raised. */
    method Rollback(archive: map<L.Path, string>) returns (ok: bool)
      modifies this`tree
      ensures L.Undone(tree, ok) == RolledBack(old(tree), moves, created, modified, archive)
    {
      hide L.Undo, L.Unlink, Restore, L.Tree.WellFormed;
      ok := UnlinkCreated();
      if ok {
        ok := RestoreModified(archive);
      }
      if ok {
        ok := UndoMoves();
      }
    }
  }

  function Children(dirs: set<L.Path>, path: L.Path): set<L.Path> {
    set d | d in dirs && |d| == |path| + 1 && path <= d
  }

  lemma ChildrenFound(t: L.Tree<string>, path: L.Path)
    requires t.WellFormed()
    ensures forall d <- t.dirs :: path <= d && |d| > |path| ==>
              d[..|path| + 1] in Children(t.dirs, path)
    ensures forall c <- Children(t.dirs, path) :: |c| == |path| + 1 && path <= c
    ensures t.(dirs := t.dirs - GoneBelow(t, path, {})) == t
  {
    forall d | d in t.dirs && path <= d && |d| > |path|
      ensures d[..|path| + 1] in t.dirs && path <= d[..|path| + 1]
    {
      assert d[..|d|] == d;
      assert d[..|path| + 1][..|path|] == d[..|path|];
    }
  }

  /** What is gone once the children in `done` have been cleared. */
  ghost function GoneBelow(t: L.Tree<string>, path: L.Path, done: set<L.Path>): set<L.Path> {
    set d | d in t.dirs && path <= d && |d| > |path| && d[..|path| + 1] in done && L.NothingAt(t, d)
  }

  lemma NoDirBelow(t: L.Tree<string>, path: L.Path)
    requires t.WellFormed() && path !in t.dirs
    ensures forall d <- t.dirs :: !(path <= d)
  {
    forall d | d in t.dirs
      ensures !(path <= d)
    {
      L.PrefixIs(path, d);
      assert |d| == |path| ==> d[..|path|] == d;
    }
  }

  lemma BelowChild(path: L.Path, child: L.Path, d: L.Path)
    requires |child| == |path| + 1 && path <= child
    ensures child <= d <==> path <= d && |d| > |path| && d[..|path| + 1] == child
  {
    L.PrefixIs(child, d);
  }

  function DirsBelow(dirs: set<L.Path>, path: L.Path): set<L.Path> {
    set d | d in dirs && path <= d
  }

  lemma ChildIsSmaller(start: set<L.Path>, now: set<L.Path>, path: L.Path, child: L.Path)
    requires now <= start && path in start && |child| == |path| + 1 && path <= child
    ensures DirsBelow(now, child) < DirsBelow(start, path)
  {
    var all := DirsBelow(start, path);
    var below := DirsBelow(now, child);
    assert path in all && path !in below;
    forall d | d in below
      ensures d in all
    {
      BelowChild(path, child, d);
    }
  }

  lemma GoneGrows(start: L.Tree<string>, now: L.Tree<string>, path: L.Path, done: set<L.Path>, child: L.Path)
    requires |child| == |path| + 1 && path <= child
    requires now == start.(dirs := start.dirs - GoneBelow(start, path, done))
    ensures now.dirs - Empties(now, child) == start.dirs - GoneBelow(start, path, done + {child})
  {
    forall d | d in start.dirs
      ensures d in now.dirs - Empties(now, child) <==> d in start.dirs - GoneBelow(start, path, done + {child})
    {
      BelowChild(path, child, d);
    }
  }

  lemma NothingToClear(t: L.Tree<string>, path: L.Path)
    requires t.WellFormed() && path !in t.dirs
    ensures Empties(t, path) == {} && t.(dirs := t.dirs - Empties(t, path)) == t
  {
    NoDirBelow(t, path);
  }

  lemma ClearedAll(start: L.Tree<string>, now: L.Tree<string>, path: L.Path, done: set<L.Path>)
    requires path in start.dirs
    requires now == start.(dirs := start.dirs - GoneBelow(start, path, done))
    requires forall d <- start.dirs :: path <= d && |d| > |path| ==> d[..|path| + 1] in done
    ensures path in Empties(start, path) <==> L.NothingAt(start, path)
    ensures !L.NothingAt(start, path) ==> now.dirs == start.dirs - Empties(start, path)
    ensures L.NothingAt(start, path) ==> now.dirs - DirsBelow(now.dirs, path) == start.dirs - Empties(start, path)
  {
    hide GoneBelow;
    AllChildrenDone(start, path, done);
    if L.NothingAt(start, path) {
      hide Empties;
    }
  }

  lemma AllChildrenDone(start: L.Tree<string>, path: L.Path, done: set<L.Path>)
    requires forall d <- start.dirs :: path <= d && |d| > |path| ==> d[..|path| + 1] in done
    ensures path !in GoneBelow(start, path, done)
    ensures forall d <- Empties(start, path) :: d == path || d in GoneBelow(start, path, done)
    ensures GoneBelow(start, path, done) <= Empties(start, path)
  {
    forall d | d in Empties(start, path)
      ensures d == path || d in GoneBelow(start, path, done)
    {
      if |d| == |path| {
        assert d == path;
      }
    }
  }

  lemma {:induction false} UndoStops(t: L.Tree<string>, log: seq<L.Move>, i: nat)
    requires i <= |log| && !L.Undo(t, log[i..]).ok
    ensures L.Undo(t, log) == L.Undo(t, log[i..])
  {
    if i == 0 {
      assert log[0..] == log;
    } else {
      assert log[i - 1..][1..] == log[i..];
      UndoStops(t, log, i - 1);
    }
  }

  lemma {:induction false} UnlinkStops(t: L.Tree<string>, created: seq<L.Path>, i: nat)
    requires i <= |created| && !L.Unlink(t, created[i..]).ok
    ensures L.Unlink(t, created) == L.Unlink(t, created[i..])
  {
    if i == 0 {
      assert created[0..] == created;
    } else {
      assert created[i - 1..][1..] == created[i..];
      UnlinkStops(t, created, i - 1);
    }
  }

  /** Writing one archived text back; a directory in the file's place raises. */
  function RestoreOne(t: L.Tree<string>, p: L.Path, archive: map<L.Path, string>): L.Undone<string> {
    if p !in archive || !t.Exists(p) then L.Undone(t, true)
    else if p !in t.files then L.Undone(t, false)
    else L.Undone(t.(files := t.files[p := archive[p]]), true)
  }

  function Restore(t: L.Tree<string>, modified: seq<L.Path>, archive: map<L.Path, string>): L.Undone<string> {
    if modified == [] then L.Undone(t, true)
    else
      var n := |modified| - 1;
      var r := Restore(t, modified[..n], archive);
      if r.ok then RestoreOne(r.tree, modified[n], archive) else r
  }

  lemma {:induction false} RestoreStops(t: L.Tree<string>, modified: seq<L.Path>, i: nat, archive: map<L.Path, string>)
    requires i <= |modified| && !Restore(t, modified[..i], archive).ok
    ensures Restore(t, modified, archive) == Restore(t, modified[..i], archive)
    decreases |modified|
  {
    hide RestoreOne;
    if i == |modified| {
      assert modified[..i] == modified;
    } else {
      var n := |modified| - 1;
      assert modified[..n][..i] == modified[..i];
      RestoreStops(t, modified[..n], i, archive);
    }
  }

  /** Restoring gives each modified file its archived text, leaves the others theirs, and moves nothing. */
  lemma {:induction false} RestoreWritesTexts(t: L.Tree<string>, modified: seq<L.Path>, archive: map<L.Path, string>)
    ensures var r := Restore(t, modified, archive);
            && r.tree.files.Keys == t.files.Keys && r.tree.dirs == t.dirs
            && (r.ok ==> forall p <- t.files ::
                  r.tree.files[p] == if p in modified && p in archive then archive[p] else t.files[p])
  {
    if modified != [] {
      var n := |modified| - 1;
      RestoreWritesTexts(t, modified[..n], archive);
      assert modified == modified[..n] + [modified[n]];
    }
  }

  /** It raises nothing when every modified path that still exists is a file. */
  lemma {:induction false} RestoreRaisesNothing(t: L.Tree<string>, modified: seq<L.Path>, archive: map<L.Path, string>)
    requires forall p <- modified :: p !in t.dirs
    ensures Restore(t, modified, archive).ok
  {
    if modified != [] {
      var n := |modified| - 1;
      RestoreRaisesNothing(t, modified[..n], archive);
      RestoreWritesTexts(t, modified[..n], archive);
    }
  }

  /** The three steps of a rollback. */
  function RolledBack(t: L.Tree<string>, moves: seq<L.Move>, created: seq<L.Path>, modified: seq<L.Path>,
      archive: map<L.Path, string>): L.Undone<string> {
    var r := Unmade(t, created, modified, archive);
    if r.ok then L.Undo(r.tree, moves) else r
  }

  /** The first two steps. */
  function Unmade(t: L.Tree<string>, created: seq<L.Path>, modified: seq<L.Path>,
      archive: map<L.Path, string>): L.Undone<string> {
    var r := L.Unlink(t, created);
    if r.ok then Restore(r.tree, modified, archive) else r
  }

  // ---- Migrate, then roll back --------------------------------------------------------------------

  /** The same paths, with whatever contents. */
  ghost predicate SamePaths(t: L.Tree<string>, u: L.Tree<string>) {
    t.files.Keys == u.files.Keys && t.dirs == u.dirs
  }

  lemma {:induction false} RunsByPaths(t: L.Tree<string>, u: L.Tree<string>, log: seq<L.Move>)
    requires SamePaths(t, u) && L.Runs(t, log)
    ensures L.Runs(u, log) && SamePaths(L.After(t, log), L.After(u, log))
    decreases |log|
  {
    if log != [] {
      var m := log[0];
      L.RebaseKeys(t.files, m.from, m.to);
      L.RebaseKeys(u.files, m.from, m.to);
      hide L.RebaseFiles, L.RebaseDirs;
      RunsByPaths(L.Moved(t, m.from, m.to), L.Moved(u, m.from, m.to), log[1..]);
    }
  }

  /** Actions that leave every path in place, but for moves. */
  predicate OnlyMoves(a: Action) {
    a.MoveTo? || a.Annotate? || a.Notify?
  }

  lemma StepIsMove(t: L.Tree<string>, a: Action)
    requires t.WellFormed() && PlainAction(a) && OnlyMoves(a) && Perform(t, a).ok
    ensures var e := Perform(t, a);
            L.Runs(t, e.moves) && SamePaths(e.tree, L.After(t, e.moves))
  {
    hide PlainMeta, Inject, L.Moved;
    match a
    case MoveTo(src, dst, meta) =>
      if !t.Exists(dst) && t.Exists(src) {
        L.AbsentBelow(t, dst);
        hide L.Tree.WellFormed;
        var log := [L.Move(src, dst)];
        assert log[1..] == [];
        var u := L.Moved(t, src, dst);
        assert L.Runs(u, []) && L.After(u, []) == u;
        assert L.Runs(t, log) && L.After(t, log) == L.After(u, log[1..]);
        if meta.Some? {
          AnnotatedConserves(u, dst, meta.value);
        }
      }
    case Annotate(src, meta) =>
      PlainWithoutType(meta);
      AnnotatedConserves(t, src, meta.(memType := ""));
    case Notify(_) =>
  }

  lemma {:induction false} RunsConcat(t: L.Tree<string>, a: seq<L.Move>, b: seq<L.Move>)
    requires L.Runs(t, a) && L.Runs(L.After(t, a), b)
    ensures L.Runs(t, a + b) && L.After(t, a + b) == L.After(L.After(t, a), b)
    decreases |a|
  {
    hide L.Moved, L.NothingAt;
    if a == [] {
      assert a + b == b;
    } else {
      assert (a + b)[0] == a[0] && (a + b)[1..] == a[1..] + b;
      RunsConcat(L.Moved(t, a[0].from, a[0].to), a[1..], b);
    }
  }

  lemma {:induction false} RunIsMoves(t: L.Tree<string>, actions: seq<Action>)
    requires t.WellFormed() && forall a <- actions :: PlainAction(a) && OnlyMoves(a)
    requires PerformAll(t, actions).ok
    ensures var e := PerformAll(t, actions);
            L.Runs(t, e.moves) && SamePaths(e.tree, L.After(t, e.moves))
    decreases |actions|
  {
    hide L.Tree.WellFormed, PlainAction, OnlyMoves, Perform, Conserved;
    if actions != [] {
      var e := Perform(t, actions[0]);
      PerformConserves(t, actions[0]);
      StepIsMove(t, actions[0]);
      var f := PerformAll(e.tree, actions[1..]);
      RunIsMoves(e.tree, actions[1..]);
      RunsByPaths(e.tree, L.After(t, e.moves), f.moves);
      RunsConcat(t, e.moves, f.moves);
    }
  }

  /** Migrating by moves and annotations, then undoing the recorded moves: no undo step is skipped if and
      only if no source is a leftover directory of the later moves; and then every file is back at its own
      path, with its text up to injected front matter. */
  lemma MovesUndoIff(t: L.Tree<string>, actions: seq<Action>)
    requires t.WellFormed() && forall a <- actions :: PlainAction(a) && OnlyMoves(a)
    requires PerformAll(t, actions).ok
    ensures var e := PerformAll(t, actions);
            && (L.UndoesAll(e.tree, e.moves) <==> L.Undoable(e.moves))
            && (L.Undoable(e.moves) ==>
                  && L.Undo(e.tree, e.moves).ok
                  && var back := L.Undo(e.tree, e.moves).tree;
                     back.files.Keys == t.files.Keys && forall p <- t.files :: Kept(t.files[p], back.files[p]))
  {
    hide L.Tree.WellFormed, PlainAction, OnlyMoves, PerformAll, Kept, L.Undo, L.Undoable, L.UndoesAll, L.Forward;
    var e := PerformAll(t, actions);
    RunIsMoves(t, actions);
    RunConserves(t, actions);
    L.UndoIff(t, e.moves, e.tree);
  }
}
