/** Moves of files and directories, the log they leave, and undoing it (scripts/migrate-layout.py,
    `execute_action` for moves and the third step of `rollback`).

    A path is the sequence of its components.  A tree holds files, with contents of any kind, and
    directories; moving a directory renames the prefix of everything at or below it.
 */
module LayoutLog {
  import opened Text

  type Path = seq<string>

  datatype Tree<T> = Tree(files: map<Path, T>, dirs: set<Path>) {
    predicate Exists(p: Path) {
      p in files || p in dirs
    }

    /** Parents are directories, and nothing is both a file and a directory. */
    ghost predicate WellFormed() {
      && files.Keys !! dirs
      && [] in dirs
      && (forall p, i | p in files && 0 <= i < |p| :: p[..i] in dirs)
      && (forall p, i | p in dirs && 0 <= i < |p| :: p[..i] in dirs)
    }

    /** `shutil.move` works: nothing above the destination is a file, and it is not inside the source. */
    predicate CanMove(src: Path, dst: Path) {
      Exists(src) && !Exists(dst) && !(src <= dst) && forall q <- Above(dst) :: q !in files
    }
  }

  /** The proper ancestors of a path. */
  function Above(p: Path): set<Path> {
    set i | 0 <= i < |p| :: p[..i]
  }

  /** Something above `p` is a file. */
  predicate Blocked<T>(t: Tree<T>, p: Path) {
    exists q <- Above(p) :: q in t.files
  }

  /** A path after everything at or below `src` has been renamed to `dst`. */
  function Rebase(p: Path, src: Path, dst: Path): Path {
    if src <= p then dst + p[|src|..] else p
  }

  /** No file is at or below `dst`. */
  predicate NothingAt<T>(t: Tree<T>, dst: Path) {
    forall p <- t.files :: !(dst <= p)
  }

  lemma RebaseInjective(p: Path, q: Path, src: Path, dst: Path)
    requires !(dst <= p) && !(dst <= q)
    requires Rebase(p, src, dst) == Rebase(q, src, dst)
    ensures p == q
  {
    if src <= p && src <= q {
      assert (dst + p[|src|..])[|dst|..] == (dst + q[|src|..])[|dst|..];
      assert p == src + p[|src|..] && q == src + q[|src|..];
    }
  }

  /** The files after a rename. */
  function RebaseFiles<T>(files: map<Path, T>, src: Path, dst: Path): (r: map<Path, T>)
    requires forall p <- files :: !(dst <= p)
    ensures forall p <- files :: Rebase(p, src, dst) in r && r[Rebase(p, src, dst)] == files[p]
    ensures forall q <- r :: exists p <- files :: q == Rebase(p, src, dst)
  {
    assert forall p, q | p in files && q in files && Rebase(p, src, dst) == Rebase(q, src, dst) :: p == q by {
      forall p, q | p in files && q in files && Rebase(p, src, dst) == Rebase(q, src, dst) {
        RebaseInjective(p, q, src, dst);
      }
    }
    map p | p in files :: Rebase(p, src, dst) := files[p]
  }

  function RebaseDirs(dirs: set<Path>, src: Path, dst: Path): set<Path> {
    set p | p in dirs :: Rebase(p, src, dst)
  }

  /** Make the parents of the destination, then rename. */
  function Moved<T>(t: Tree<T>, src: Path, dst: Path): Tree<T>
    requires NothingAt(t, dst)
  {
    Tree(RebaseFiles(t.files, src, dst), RebaseDirs(t.dirs + Above(dst), src, dst))
  }

  lemma PrefixIs(a: Path, p: Path)
    ensures a <= p <==> |a| <= |p| && p[..|a|] == a
  {
  }

  lemma AbsentBelow<T>(t: Tree<T>, dst: Path)
    requires t.WellFormed() && !t.Exists(dst)
    ensures NothingAt(t, dst) && forall p <- t.dirs :: !(dst <= p)
  {
    forall p | p in t.files || p in t.dirs
      ensures !(dst <= p)
    {
      PrefixIs(dst, p);
      assert p[..|p|] == p;
      if |dst| < |p| {
        assert p[..|dst|] in t.dirs;
      }
    }
  }

  // ---- Paths under a rename and back ----------------------------------------------------------------

  /** Neither path is at or below the other. */
  predicate Apart(a: Path, b: Path) {
    !(a <= b) && !(b <= a)
  }

  lemma MoveIsApart<T>(t: Tree<T>, src: Path, dst: Path)
    requires t.WellFormed() && t.CanMove(src, dst)
    ensures Apart(src, dst) && NothingAt(t, dst) && forall p <- t.dirs :: !(dst <= p)
  {
    AbsentBelow(t, dst);
  }

  lemma AboveIs(p: Path, q: Path)
    ensures q in Above(p) <==> q <= p && q != p
  {
    if q <= p && q != p {
      assert q == p[..|q|];
    }
  }

  lemma MovedWellFormed<T>(t: Tree<T>, src: Path, dst: Path)
    requires t.WellFormed() && t.CanMove(src, dst) && NothingAt(t, dst)
    ensures Moved(t, src, dst).WellFormed()
    ensures Moved(t, src, dst).Exists(dst)
  {
    var m := Moved(t, src, dst);
    MoveIsApart(t, src, dst);
    assert !(src <= []) && Rebase([], src, dst) == [];
    assert Rebase(src, src, dst) == dst;
    forall p | p in t.files || p in t.dirs
      ensures forall i | 0 <= i < |Rebase(p, src, dst)| :: Rebase(p, src, dst)[..i] in m.dirs
    {
      ParentsMove(t, src, dst, p);
    }
    forall p | p in Above(dst)
      ensures Rebase(p, src, dst) == p && forall i | 0 <= i < |p| :: p[..i] in m.dirs
    {
      AboveIs(dst, p);
      assert Rebase(p, src, dst) == p;
      forall i | 0 <= i < |p|
        ensures p[..i] in m.dirs
      {
        assert p[..i] == dst[..i];
        assert p[..i] in Above(dst) && Rebase(p[..i], src, dst) == p[..i];
      }
    }
    assert m.files.Keys !! m.dirs by {
      KindsStayApart(t, src, dst);
    }
  }

  lemma ParentsMove<T>(t: Tree<T>, src: Path, dst: Path, p: Path)
    requires t.WellFormed() && t.CanMove(src, dst) && NothingAt(t, dst)
    requires p in t.files || p in t.dirs
    ensures forall i | 0 <= i < |Rebase(p, src, dst)| :: Rebase(p, src, dst)[..i] in Moved(t, src, dst).dirs
  {
    hide Moved, Above;
    forall i | 0 <= i < |Rebase(p, src, dst)|
      ensures Rebase(p, src, dst)[..i] in Moved(t, src, dst).dirs
    {
      ParentMoves(t, src, dst, p, i);
    }
  }

  lemma ParentMoves<T>(t: Tree<T>, src: Path, dst: Path, p: Path, i: nat)
    requires t.WellFormed() && t.CanMove(src, dst) && NothingAt(t, dst)
    requires p in t.files || p in t.dirs
    requires i < |Rebase(p, src, dst)|
    ensures Rebase(p, src, dst)[..i] in Moved(t, src, dst).dirs
  {
    MoveIsApart(t, src, dst);
    var q := Rebase(p, src, dst);
    if src <= p && i < |dst| {
      assert q[..i] == dst[..i] && dst[..i] in Above(dst);
      assert Rebase(dst[..i], src, dst) == dst[..i];
    } else if src <= p {
      var k := i - |dst| + |src|;
      assert p[..k] in t.dirs;
      assert p[..k][|src|..] == p[|src|..k] && src <= p[..k];
      assert q[..i] == Rebase(p[..k], src, dst);
    } else {
      assert p[..i] in t.dirs;
      assert src <= p[..i] ==> src <= p;
      assert Rebase(p[..i], src, dst) == p[..i];
    }
  }

  lemma KindsStayApart<T>(t: Tree<T>, src: Path, dst: Path)
    requires t.WellFormed() && t.CanMove(src, dst) && NothingAt(t, dst)
    ensures Moved(t, src, dst).files.Keys !! Moved(t, src, dst).dirs
  {
    var m := Moved(t, src, dst);
    MoveIsApart(t, src, dst);
    forall q | q in m.files && q in m.dirs
      ensures false
    {
      var p :| p in t.files && q == Rebase(p, src, dst);
      var d :| d in t.dirs + Above(dst) && q == Rebase(d, src, dst);
      AboveIs(dst, d);
      RebaseInjective(p, d, src, dst);
    }
  }

  // ---- Logs -----------------------------------------------------------------------------------------

  datatype Move = Move(from: Path, to: Path)

  /** Every move of the log was possible when its turn came. */
  ghost predicate Runs<T>(t: Tree<T>, log: seq<Move>)
    decreases |log|
  {
    log != [] ==>
      && t.CanMove(log[0].from, log[0].to) && NothingAt(t, log[0].to)
      && Runs(Moved(t, log[0].from, log[0].to), log[1..])
  }

  ghost function After<T>(t: Tree<T>, log: seq<Move>): Tree<T>
    requires Runs(t, log)
    decreases |log|
  {
    hide NothingAt;
    if log == [] then t else After(Moved(t, log[0].from, log[0].to), log[1..])
  }

  /** Where a file ends up. */
  function Forward(p: Path, log: seq<Move>): Path
    decreases |log|
  {
    if log == [] then p else Forward(Rebase(p, log[0].from, log[0].to), log[1..])
  }

  /** What rolling back leaves; without `ok` it raised an exception after this much. */
  datatype Undone<T> = Undone(tree: Tree<T>, ok: bool)

  /** One step of the rollback: skipped when the source is gone or the destination is back already.  A file
      above the destination raises before anything is made, a destination inside the source after its
      parents are. */
  function UndoOne<T>(t: Tree<T>, m: Move): Undone<T> {
    if !t.Exists(m.to) || t.Exists(m.from) then Undone(t, true)
    else if Blocked(t, m.from) then Undone(t, false)
    else if m.to <= m.from || !NothingAt(t, m.from) then Undone(t.(dirs := t.dirs + Above(m.from)), false)
    else Undone(Moved(t, m.to, m.from), true)
  }

  /** The moves undone last first, up to a step that raises. */
  function Undo<T>(t: Tree<T>, log: seq<Move>): Undone<T> {
    if log == [] then Undone(t, true)
    else
      var r := Undo(t, log[1..]);
      if r.ok then UndoOne(r.tree, log[0]) else r
  }

  /** No step of the rollback is skipped. */
  ghost predicate UndoesAll<T>(t: Tree<T>, log: seq<Move>) {
    log != [] ==>
      && UndoesAll(t, log[1..])
      && Undo(t, log[1..]).ok
      && Undo(t, log[1..]).tree.CanMove(log[0].to, log[0].from)
  }

  /** The directories that running and undoing the log may leave behind: the parents it made for its
      destinations, carried back through the earlier moves. */
  function Extras(log: seq<Move>): set<Path> {
    if log == [] then {}
    else Above(log[0].to) + RebaseDirs(Extras(log[1..]), log[0].to, log[0].from)
  }

  /** No source comes back as a leftover directory before its own move is undone. */
  predicate Undoable(log: seq<Move>) {
    log != [] ==> log[0].from !in Extras(log[1..]) && Undoable(log[1..])
  }

  /** Same files, possibly with other contents, and some more directories. */
  ghost predicate SamePlaces<T, U>(u: Tree<U>, t: Tree<T>, extras: set<Path>) {
    u.files.Keys == t.files.Keys && u.dirs == t.dirs + extras
  }

  lemma GoneAfterMove<T>(t: Tree<T>, m: Move, p: Path)
    requires t.WellFormed() && t.CanMove(m.from, m.to) && NothingAt(t, m.to)
    requires p in t.files || p in t.dirs || p in Above(m.to)
    ensures !(m.from <= Rebase(p, m.from, m.to)) && Rebase(Rebase(p, m.from, m.to), m.to, m.from) == p
  {
    MoveIsApart(t, m.from, m.to);
    AboveIs(m.to, p);
  }

  lemma BackIsPossible<T, U>(t: Tree<T>, m: Move, u: Tree<U>, extras: set<Path>)
    requires t.WellFormed() && t.CanMove(m.from, m.to) && NothingAt(t, m.to)
    requires SamePlaces(u, Moved(t, m.from, m.to), extras)
    ensures u.Exists(m.to)
    ensures u.Exists(m.from) <==> m.from in extras
    ensures m.from !in extras ==> u.CanMove(m.to, m.from) && NothingAt(u, m.from)
  {
    var moved := Moved(t, m.from, m.to);
    MoveIsApart(t, m.from, m.to);
    MovedWellFormed(t, m.from, m.to);
    forall q | q in moved.files
      ensures !(m.from <= q)
    {
      var p :| p in t.files && q == Rebase(p, m.from, m.to);
      GoneAfterMove(t, m, p);
    }
    forall q | q in moved.dirs
      ensures q != m.from
    {
      var p :| p in t.dirs + Above(m.to) && q == Rebase(p, m.from, m.to);
      GoneAfterMove(t, m, p);
    }
    forall q | q in Above(m.from)
      ensures q !in moved.files
    {
      AboveIs(m.from, q);
      if q in moved.files {
        var p :| p in t.files && q == Rebase(p, m.from, m.to);
        AncestorIsNoFile(t, m, p);
      }
    }
  }

  lemma AncestorIsNoFile<T>(t: Tree<T>, m: Move, p: Path)
    requires t.WellFormed() && t.CanMove(m.from, m.to) && NothingAt(t, m.to) && p in t.files
    ensures !(Rebase(p, m.from, m.to) <= m.from)
  {
    MoveIsApart(t, m.from, m.to);
    var q := Rebase(p, m.from, m.to);
    PrefixIs(p, m.from);
    PrefixIs(q, m.from);
    PrefixIs(m.to, q);
    if |p| < |m.from| {
      assert m.from[..|p|] != p;
    }
    if |m.to| <= |q| <= |m.from| {
      assert m.from[..|q|][..|m.to|] == m.from[..|m.to|];
      PrefixIs(m.to, m.from);
    }
  }

  lemma RebaseKeys<T>(files: map<Path, T>, src: Path, dst: Path)
    requires forall p <- files :: !(dst <= p)
    ensures RebaseFiles(files, src, dst).Keys == RebaseDirs(files.Keys, src, dst)
  {
    hide Rebase;
  }

  /** A set of paths of the tree comes back from a move and its reverse. */
  lemma PathsComeBack<T>(t: Tree<T>, m: Move, paths: set<Path>)
    requires t.WellFormed() && t.CanMove(m.from, m.to) && NothingAt(t, m.to)
    requires forall p <- paths :: p in t.files || p in t.dirs || p in Above(m.to)
    ensures RebaseDirs(RebaseDirs(paths, m.from, m.to), m.to, m.from) == paths
  {
    hide Tree.WellFormed, Tree.CanMove, NothingAt, Rebase, Above;
    var there := RebaseDirs(paths, m.from, m.to);
    forall p | p in paths
      ensures p in RebaseDirs(there, m.to, m.from)
    {
      GoneAfterMove(t, m, p);
      assert Rebase(p, m.from, m.to) in there;
    }
    forall q | q in RebaseDirs(there, m.to, m.from)
      ensures q in paths
    {
      var r :| r in there && q == Rebase(r, m.to, m.from);
      var p :| p in paths && r == Rebase(p, m.from, m.to);
      GoneAfterMove(t, m, p);
    }
  }

  lemma FileComesBack<T, U>(t: Tree<T>, m: Move, u: Tree<U>, p: Path)
    requires t.WellFormed() && t.CanMove(m.from, m.to) && NothingAt(t, m.to)
    requires u.files.Keys == Moved(t, m.from, m.to).files.Keys && NothingAt(u, m.from)
    requires p in t.files
    ensures Rebase(p, m.from, m.to) in u.files && p in Moved(u, m.to, m.from).files
    ensures Moved(u, m.to, m.from).files[p] == u.files[Rebase(p, m.from, m.to)]
  {
    hide RebaseFiles, RebaseDirs, Above, Rebase, Tree.WellFormed, Tree.CanMove;
    GoneAfterMove(t, m, p);
    var q := Rebase(p, m.from, m.to);
    assert q in Moved(t, m.from, m.to).files;
    assert q in u.files;
  }

  lemma FilesComeBack<T, U>(t: Tree<T>, m: Move, u: Tree<U>)
    requires t.WellFormed() && t.CanMove(m.from, m.to) && NothingAt(t, m.to)
    requires u.files.Keys == Moved(t, m.from, m.to).files.Keys && NothingAt(u, m.from)
    ensures Moved(u, m.to, m.from).files.Keys == t.files.Keys
    ensures forall p <- t.files ::
              Rebase(p, m.from, m.to) in u.files && p in Moved(u, m.to, m.from).files
              && Moved(u, m.to, m.from).files[p] == u.files[Rebase(p, m.from, m.to)]
  {
    RebaseKeys(t.files, m.from, m.to);
    RebaseKeys(u.files, m.to, m.from);
    PathsComeBack(t, m, t.files.Keys);
    hide Tree.WellFormed, Tree.CanMove, NothingAt, Rebase, RebaseDirs, Above, RebaseFiles, Moved;
    assert Moved(u, m.to, m.from).files.Keys == t.files.Keys;
    forall p | p in t.files {
      FileComesBack(t, m, u, p);
    }
  }

  /** Undoing a move puts its files back, and keeps the extra directories. */
  lemma BackRestores<T, U>(t: Tree<T>, m: Move, u: Tree<U>, extras: set<Path>)
    requires t.WellFormed() && t.CanMove(m.from, m.to) && NothingAt(t, m.to)
    requires SamePlaces(u, Moved(t, m.from, m.to), extras)
    requires u.CanMove(m.to, m.from) && NothingAt(u, m.from)
    ensures SamePlaces(Moved(u, m.to, m.from), t, Above(m.to) + RebaseDirs(extras, m.to, m.from))
    ensures forall p <- t.files ::
              Rebase(p, m.from, m.to) in u.files && p in Moved(u, m.to, m.from).files
              && Moved(u, m.to, m.from).files[p] == u.files[Rebase(p, m.from, m.to)]
  {
    hide Tree.WellFormed, Tree.CanMove, NothingAt, Rebase, RebaseFiles, RebaseDirs;
    FilesComeBack(t, m, u);
    PathsComeBack(t, m, t.dirs + Above(m.to));
    AncestorsAreThere(t, m);
    var forth := RebaseDirs(t.dirs + Above(m.to), m.from, m.to);
    assert u.dirs + Above(m.from) == forth + (extras + Above(m.from));
    RebaseUnion(forth, extras + Above(m.from), m.to, m.from);
    RebaseUnion(extras, Above(m.from), m.to, m.from);
  }

  lemma RebaseUnion(a: set<Path>, b: set<Path>, src: Path, dst: Path)
    ensures RebaseDirs(a + b, src, dst) == RebaseDirs(a, src, dst) + RebaseDirs(b, src, dst)
  {
  }

  lemma AncestorsAreThere<T>(t: Tree<T>, m: Move)
    requires t.WellFormed() && t.CanMove(m.from, m.to) && NothingAt(t, m.to)
    ensures RebaseDirs(Above(m.from), m.to, m.from) <= t.dirs
  {
    MoveIsApart(t, m.from, m.to);
    forall p | p in Above(m.from)
      ensures Rebase(p, m.to, m.from) in t.dirs
    {
      AboveIs(m.from, p);
      assert p in t.dirs && !(m.to <= p);
    }
  }

  /** One more step of the rollback, the later ones being undone. */
  lemma UndoStep<T, U>(t: Tree<T>, m: Move, u: Tree<U>, extras: set<Path>)
    requires t.WellFormed() && t.CanMove(m.from, m.to) && NothingAt(t, m.to)
    requires SamePlaces(u, Moved(t, m.from, m.to), extras)
    ensures u.CanMove(m.to, m.from) <==> m.from !in extras
    ensures m.from !in extras ==>
              && UndoOne(u, m).ok
              && SamePlaces(UndoOne(u, m).tree, t, Above(m.to) + RebaseDirs(extras, m.to, m.from))
              && forall p <- t.files ::
                   Rebase(p, m.from, m.to) in u.files && p in UndoOne(u, m).tree.files
                   && UndoOne(u, m).tree.files[p] == u.files[Rebase(p, m.from, m.to)]
  {
    hide Moved, Rebase, RebaseDirs, NothingAt, Tree.WellFormed, SamePlaces;
    BackIsPossible(t, m, u, extras);
    if m.from !in extras {
      BackRestores(t, m, u, extras);
    }
  }

  /** Undoing a log, exactly: every step runs if and only if no source is found among the leftover
      directories of the later moves; and then every file is back where it started, with whatever it
      holds now, and only leftover directories are added. */
  lemma {:induction false} UndoIff<T, U>(t: Tree<T>, log: seq<Move>, end: Tree<U>)
    requires t.WellFormed() && Runs(t, log)
    requires end.files.Keys == After(t, log).files.Keys && end.dirs == After(t, log).dirs
    ensures UndoesAll(end, log) <==> Undoable(log)
    ensures Undoable(log) ==>
              && Undo(end, log).ok
              && SamePlaces(Undo(end, log).tree, t, Extras(log))
              && forall p <- t.files ::
                   Forward(p, log) in end.files && Undo(end, log).tree.files[p] == end.files[Forward(p, log)]
    decreases |log|
  {
    if log != [] {
      hide Moved, Rebase, RebaseDirs, NothingAt, Tree.WellFormed, Tree.CanMove, UndoOne;
      var m, rest := log[0], log[1..];
      var moved := Moved(t, m.from, m.to);
      MovedWellFormed(t, m.from, m.to);
      UndoIff(moved, rest, end);
      if Undoable(rest) {
        var u := Undo(end, rest).tree;
        UndoStep(t, m, u, Extras(rest));
        MovedFiles(t, m);
      }
    }
  }

  lemma MovedFiles<T>(t: Tree<T>, m: Move)
    requires NothingAt(t, m.to)
    ensures forall p <- t.files :: Rebase(p, m.from, m.to) in Moved(t, m.from, m.to).files
  {
  }

  // ---- Created files ----------------------------------------------------------------------------------

  /** Nothing is below the directory `d`. */
  predicate Childless<T>(t: Tree<T>, d: Path) {
    (forall p <- t.files :: !(d <= p)) && forall p <- t.dirs :: d <= p ==> p == d
  }

  /** A created file goes, and its directory when that leaves it empty; a directory in its place raises. */
  function UnlinkOne<T>(t: Tree<T>, c: Path): Undone<T> {
    if !t.Exists(c) then Undone(t, true)
    else if c !in t.files || c == [] then Undone(t, false)
    else
      var u := t.(files := t.files - {c});
      var parent := c[..|c| - 1];
      Undone(if parent != [] && Childless(u, parent) then u.(dirs := u.dirs - {parent}) else u, true)
  }

  /** The created files, last first. */
  function Unlink<T>(t: Tree<T>, created: seq<Path>): Undone<T> {
    if created == [] then Undone(t, true)
    else
      var r := Unlink(t, created[1..]);
      if r.ok then UnlinkOne(r.tree, created[0]) else r
  }

  lemma UnlinkedOne<T>(t: Tree<T>, c: Path)
    requires t.WellFormed() && UnlinkOne(t, c).ok
    ensures var u := UnlinkOne(t, c).tree; u.WellFormed() && u.files == t.files - {c} && u.dirs <= t.dirs
  {
    if c in t.files {
      var u := t.(files := t.files - {c});
      var parent := c[..|c| - 1];
      if parent != [] && Childless(u, parent) {
        PrunedOne(u, parent);
      }
    } else {
      assert t.files - {c} == t.files;
    }
  }

  lemma PrunedOne<T>(u: Tree<T>, d: Path)
    requires u.WellFormed() && d != [] && Childless(u, d)
    ensures u.(dirs := u.dirs - {d}).WellFormed()
  {
    forall p, i | (p in u.files || p in u.dirs) && 0 <= i < |p|
      ensures p[..i] != d || p == d
    {
      assert p[..i] <= p;
    }
  }

  /** Unlinking that raises nothing takes exactly the created files, and at most emptied directories. */
  lemma {:induction false} UnlinkTakesCreated<T>(t: Tree<T>, created: seq<Path>)
    requires t.WellFormed() && Unlink(t, created).ok
    ensures var u := Unlink(t, created).tree;
            u.WellFormed() && u.dirs <= t.dirs && u.files == t.files - (set c | c in created)
  {
    hide Tree.WellFormed, UnlinkOne;
    if created != [] {
      var rest := created[1..];
      UnlinkTakesCreated(t, rest);
      UnlinkedOne(Unlink(t, rest).tree, created[0]);
      assert created == [created[0]] + rest;
    }
  }

  /** It raises nothing when no created path is a directory. */
  lemma {:induction false} UnlinkRaisesNothing<T>(t: Tree<T>, created: seq<Path>)
    requires t.WellFormed() && forall c <- created :: c !in t.dirs
    ensures Unlink(t, created).ok
  {
    hide Childless, Tree.WellFormed;
    if created != [] {
      UnlinkRaisesNothing(t, created[1..]);
      UnlinkTakesCreated(t, created[1..]);
      NotTheRoot(t, created[0]);
    }
  }

  lemma NotTheRoot<T>(t: Tree<T>, c: Path)
    requires t.WellFormed() && c !in t.dirs
    ensures c != []
  {
  }

  // ---- Which logs can be undone -----------------------------------------------------------------------

  lemma {:induction false} NoExtra(log: seq<Move>, p: Path)
    requires forall i | 0 <= i < |log| :: p !in Above(log[i].to) && !(log[i].from <= p)
    ensures p !in Extras(log)
  {
    if log != [] {
      var m, rest := log[0], log[1..];
      assert forall i | 0 <= i < |rest| :: rest[i] == log[i + 1];
      NoExtra(rest, p);
      forall q | q in Extras(rest)
        ensures Rebase(q, m.to, m.from) != p
      {
        assert m.to <= q ==> m.from <= Rebase(q, m.to, m.from);
      }
    }
  }

  /** A log is undoable when nothing later is put below a source or taken from at or above it. */
  lemma {:induction false} ApartLogsUndo(log: seq<Move>)
    requires forall i, j | 0 <= i < j < |log| :: log[i].from !in Above(log[j].to) && !(log[j].from <= log[i].from)
    ensures Undoable(log)
  {
    if log != [] {
      var rest := log[1..];
      assert forall i | 0 <= i < |rest| :: rest[i] == log[i + 1];
      ApartLogsUndo(rest);
      NoExtra(rest, log[0].from);
    }
  }

  /** A tree of empty directories. */
  ghost function Bare(dirs: set<Path>): Tree<string> {
    Tree(map[], dirs)
  }

  lemma BareMoved(dirs: set<Path>, src: Path, dst: Path)
    ensures NothingAt(Bare(dirs), dst)
    ensures Moved(Bare(dirs), src, dst) == Bare(RebaseDirs(dirs + Above(dst), src, dst))
  {
    assert RebaseFiles<string>(map[], src, dst) == map[];
  }

  lemma CannotUndo(a: string, b: string, c: string, x: string, y: string, z: string)
    requires a != y
    ensures var log := [Move([a, b], [x]), Move([a], [y]), Move([z], [y, b, c])];
            && (forall i, j | 0 <= i < j < |log| :: !(log[i].from <= log[j].to))
            && !Undoable(log)
  {
    var log := [Move([a, b], [x]), Move([a], [y]), Move([z], [y, b, c])];
    var later, last := [Move([a], [y]), Move([z], [y, b, c])], [Move([z], [y, b, c])];
    assert log[1..] == later && later[1..] == last && last[1..] == [];
    NothingBelow(a, b, c, y);
    ParentIsExtra(y, b, c, z);
    RebasedPair(a, b, y);
    hide Rebase, Above;
    ExtraBefore([y, b], Move([a], [y]), last);
    assert [Move([a], [y])] + last == later;
    assert log[0].from == [a, b];
  }

  lemma NothingBelow(a: string, b: string, c: string, y: string)
    requires a != y
    ensures !([a, b] <= [y]) && !([a, b] <= [y, b, c]) && !([a] <= [y, b, c])
  {
    var long := [y, b, c];
    PrefixIs([a, b], long);
    PrefixIs([a], long);
    assert long[..1][0] == y && long[..2][0] == y && [a][0] == a && [a, b][0] == a;
  }

  lemma ParentIsExtra(y: string, b: string, c: string, z: string)
    ensures [y, b] in Extras([Move([z], [y, b, c])])
  {
    var last := [Move([z], [y, b, c])];
    assert last[1..] == [] && [y, b, c][..2] == [y, b];
    assert [y, b] in Above([y, b, c]);
  }

  lemma RebasedPair(a: string, b: string, y: string)
    ensures Rebase([y, b], [y], [a]) == [a, b]
  {
    assert [y] <= [y, b] && [y, b][1..] == [b];
  }

  lemma ExtraBefore(p: Path, m: Move, rest: seq<Move>)
    requires p in Extras(rest)
    ensures Rebase(p, m.to, m.from) in Extras([m] + rest)
  {
    hide Rebase, Above;
    assert ([m] + rest)[1..] == rest;
  }

  lemma BareRuns(dirs: set<Path>, src: Path, dst: Path, rest: seq<Move>)
    requires src in dirs && dst !in dirs && !(src <= dst)
    requires Runs(Bare(RebaseDirs(dirs + Above(dst), src, dst)), rest)
    ensures Runs(Bare(dirs), [Move(src, dst)] + rest)
  {
    hide RebaseDirs, Moved, NothingAt;
    var log := [Move(src, dst)] + rest;
    assert log[1..] == rest;
    BareMoved(dirs, src, dst);
  }

  lemma MovesRun(a: string, b: string, c: string, x: string, y: string, z: string)
    requires a != x && a != y && a != z && x != y && x != z && y != z
    ensures Runs(Bare({[], [a], [a, b], [z]}), [Move([a, b], [x]), Move([a], [y]), Move([z], [y, b, c])])
  {
    hide Runs, RebaseDirs, Bare;
    var d0: set<Path> := {[], [a], [a, b], [z]};
    var d1 := RebaseDirs(d0 + Above([x]), [a, b], [x]);
    var d2 := RebaseDirs(d1 + Above([y]), [a], [y]);
    MembersAfter(d0, a, b, c, x, y, z);
    var log2: seq<Move> := [Move([z], [y, b, c])];
    var log1: seq<Move> := [Move([a], [y])] + log2;
    NothingRuns(RebaseDirs(d2 + Above([y, b, c]), [z], [y, b, c]));
    assert [y, b, c][..1] == [y] && [z][0] != [y][0];
    PrefixIs([z], [y, b, c]);
    BareRuns(d2, [z], [y, b, c], []);
    assert [Move([z], [y, b, c])] + [] == log2;
    BareRuns(d1, [a], [y], log2);
    BareRuns(d0, [a, b], [x], log1);
    assert [Move([a, b], [x])] + log1 == [Move([a, b], [x]), Move([a], [y]), Move([z], [y, b, c])];
  }

  lemma NothingRuns(dirs: set<Path>)
    ensures Runs(Bare(dirs), [])
  {
  }

  lemma MembersAfter(d0: set<Path>, a: string, b: string, c: string, x: string, y: string, z: string)
    requires a != x && a != y && a != z && x != y && x != z && y != z
    requires d0 == {[], [a], [a, b], [z]}
    ensures var d1 := RebaseDirs(d0 + Above([x]), [a, b], [x]);
            var d2 := RebaseDirs(d1 + Above([y]), [a], [y]);
            [a] in d1 && [y] !in d1 && [z] in d2 && [y, b, c] !in d2
  {
    var d1 := RebaseDirs(d0 + Above([x]), [a, b], [x]);
    assert Rebase([z], [a], [y]) == [z];
    AboveIs([x], [y]);
    AboveIs([x], [y, b, c]);
    AboveIs([x], [a, b, c]);
    hide RebaseDirs, Above;
    NotDeep(d1, a, y, b, c);
  }

  lemma NotDeep(dirs: set<Path>, a: string, y: string, b: string, c: string)
    requires a != y && [y, b, c] !in dirs && [a, b, c] !in dirs
    ensures [y, b, c] !in RebaseDirs(dirs + Above([y]), [a], [y])
  {
    forall p | p in dirs + Above([y])
      ensures Rebase(p, [a], [y]) != [y, b, c]
    {
      AboveIs([y], p);
      RebaseDeep(p, a, y, b, c);
    }
  }

  lemma RebaseDeep(p: Path, a: string, y: string, b: string, c: string)
    ensures Rebase(p, [a], [y]) == [y, b, c] ==> p == [y, b, c] || p == [a, b, c]
  {
    if [a] <= p {
      assert p == [a] + p[1..];
      assert ([y] + p[1..])[1..] == p[1..] && [y, b, c][1..] == [b, c];
      assert [a, b, c] == [a] + [b, c];
    }
  }

  /** Running with every destination absent and never at or below an earlier source is not enough: here a
      source's parent is moved, a directory of the same name is made inside its new place, and both come
      back before the source does. */
  lemma NeverBelowIsNotEnough(a: string, b: string, c: string, x: string, y: string, z: string)
    requires a != x && a != y && a != z && x != y && x != z && y != z
    ensures var log := [Move([a, b], [x]), Move([a], [y]), Move([z], [y, b, c])];
            && Runs(Bare({[], [a], [a, b], [z]}), log)
            && (forall i, j | 0 <= i < j < |log| :: !(log[i].from <= log[j].to))
            && !Undoable(log)
  {
    hide Runs, Undoable;
    CannotUndo(a, b, c, x, y, z);
    MovesRun(a, b, c, x, y, z);
  }
}
