/** Rolling back a finished layout migration of all action kinds (scripts/migrate-layout.py, `apply` and
    `rollback`). */
module LayoutRollback {
  import opened Text
  import opened LayoutMigration
  import L = LayoutLog

  // ---- What a run puts where ----------------------------------------------------------------------

  /** What a performed action puts somewhere: something it moved, a file it wrote, a directory it made. */
  datatype Entry = Went(move: L.Move) | Wrote(dst: L.Path) | Made(dst: L.Path)

  /** Where an entry puts something. */
  function Target(e: Entry): L.Path {
    match e
    case Went(m) => m.to
    case Wrote(dst) => dst
    case Made(dst) => dst
  }

  ghost function EntryOf(t: L.Tree<string>, a: Action): seq<Entry>
    requires t.WellFormed()
  {
    var e := Perform(t, a);
    match a
    case MoveTo(src, dst, _) => if e.moves != [] then [Went(L.Move(src, dst))] else []
    case Create(dst, _) => if e.created != [] then [Wrote(dst)] else []
    case MakeDir(dst) => if e.steps == 1 then [Made(dst)] else []
    case _ => []
  }

  ghost predicate Plain(actions: seq<Action>) {
    forall a <- actions :: PlainAction(a)
  }

  /** The entries of a finished run, in order. */
  ghost function Trace(t: L.Tree<string>, actions: seq<Action>): seq<Entry>
    requires t.WellFormed() && Plain(actions)
    decreases |actions|
  {
    if actions == [] then []
    else
      PerformConserves(t, actions[0]);
      EntryOf(t, actions[0]) + Trace(Perform(t, actions[0]).tree, actions[1..])
  }

  function MovesOf(trace: seq<Entry>): seq<L.Move> {
    if trace == [] then []
    else (if trace[0].Went? then [trace[0].move] else []) + MovesOf(trace[1..])
  }

  function WrittenBy(trace: seq<Entry>): seq<L.Path> {
    if trace == [] then []
    else (if trace[0].Wrote? then [trace[0].dst] else []) + WrittenBy(trace[1..])
  }

  lemma {:induction false} TraceConcat(a: seq<Entry>, b: seq<Entry>)
    requires |a| <= 1
    ensures MovesOf(a + b) == MovesOf(a) + MovesOf(b) && WrittenBy(a + b) == WrittenBy(a) + WrittenBy(b)
  {
    if a == [] {
      assert a + b == b;
    } else {
      assert (a + b)[1..] == b && a[1..] == [];
    }
  }

  lemma OneEntry(t: L.Tree<string>, a: Action)
    requires t.WellFormed()
    ensures |EntryOf(t, a)| <= 1
    ensures MovesOf(EntryOf(t, a)) == Perform(t, a).moves && WrittenBy(EntryOf(t, a)) == Perform(t, a).created
  {
    hide L.Moved, L.Above, L.Blocked, L.Tree.WellFormed, Empties, Inject, L.NothingAt;
    var trace := EntryOf(t, a);
    if trace != [] {
      assert trace[1..] == [];
    }
    match a
    case MoveTo(src, dst, meta) =>
    case Annotate(src, meta) => OnlyModifies(t, src, meta.(memType := ""));
    case _ =>
  }

  /** The manifest lists the moves and the created files of the trace. */
  lemma {:induction false} TraceIsLogged(t: L.Tree<string>, actions: seq<Action>)
    requires t.WellFormed() && Plain(actions) && PerformAll(t, actions).ok
    ensures var e := PerformAll(t, actions);
            e.moves == MovesOf(Trace(t, actions)) && e.created == WrittenBy(Trace(t, actions))
    decreases |actions|
  {
    hide L.Tree.WellFormed, Perform, EntryOf, PlainAction, Conserved;
    if actions != [] {
      var u := Perform(t, actions[0]).tree;
      PerformConserves(t, actions[0]);
      OneEntry(t, actions[0]);
      TraceIsLogged(u, actions[1..]);
      TraceConcat(EntryOf(t, actions[0]), Trace(u, actions[1..]));
    }
  }

  // ---- What is left over ----------------------------------------------------------------------------

  /** The directories a run and its rollback may leave, seen from before the entries: the parents that
      were made, carried back through the earlier moves. */
  function Extras(trace: seq<Entry>): set<L.Path> {
    if trace == [] then {}
    else
      var later := Extras(trace[1..]);
      match trace[0]
      case Went(m) => L.Above(m.to) + L.RebaseDirs(later, m.to, m.from)
      case Wrote(dst) => L.Above(dst) + later
      case Made(dst) => L.Above(dst) + {dst} + later
  }

  /** The created files that a later move took away from the path they were created at, so that the
      rollback does not unlink them, carried back likewise. */
  function Strays(trace: seq<Entry>, created: seq<L.Path>): set<L.Path> {
    if trace == [] then {}
    else
      var later := Strays(trace[1..], created);
      match trace[0]
      case Went(m) => L.RebaseDirs(later, m.to, m.from)
      case Wrote(dst) => if L.Forward(dst, MovesOf(trace[1..])) in created then later else {dst} + later
      case Made(_) => later
  }

  /** No source finds a leftover directory in its place, nor a leftover file there or above it, when its
      move is undone. */
  predicate Safe(trace: seq<Entry>, created: seq<L.Path>) {
    trace != [] ==>
      && Safe(trace[1..], created)
      && (trace[0].Went? ==>
            && trace[0].move.from !in Extras(trace[1..])
            && forall s <- Strays(trace[1..], created) :: !(s <= trace[0].move.from))
  }

  // ---- Backwards through a run ------------------------------------------------------------------------

  /** The rollback has come back to the tree `t`, `log` being the moves still to come from there: the files
      of `t` are there with the texts they ended with, except those that ended at a created path, which
      are gone; besides there are only strays and leftover directories. */
  ghost predicate Back(t: L.Tree<string>, u: L.Tree<string>, end: map<L.Path, string>, log: seq<L.Move>,
                       created: seq<L.Path>, strays: set<L.Path>, extras: set<L.Path>)
  {
    && u.WellFormed()
    && (forall q <- t.files :: HasEnd(u, q, end, L.Forward(q, log), created))
    && u.files.Keys <= t.files.Keys + strays
    && u.dirs <= t.dirs + extras
  }

  ghost predicate HasEnd(u: L.Tree<string>, q: L.Path, end: map<L.Path, string>, last: L.Path, created: seq<L.Path>) {
    if last in created then q !in u.files else last in end && q in u.files && u.files[q] == end[last]
  }

  lemma SamePlaceBack(t: L.Tree<string>, v: L.Tree<string>, u: L.Tree<string>, end: map<L.Path, string>,
      log: seq<L.Move>,
                      created: seq<L.Path>, strays: set<L.Path>, extras: set<L.Path>)
    requires Back(v, u, end, log, created, strays, extras)
    requires t.files.Keys == v.files.Keys && v.dirs <= t.dirs
    ensures Back(t, u, end, log, created, strays, extras)
  {
    hide L.Tree.WellFormed, HasEnd;
  }

  lemma ForwardStep(q: L.Path, m: L.Move, log: seq<L.Move>)
    ensures L.Forward(q, [m] + log) == L.Forward(L.Rebase(q, m.from, m.to), log)
  {
    assert ([m] + log)[1..] == log;
  }

  /** Nothing is where a source was. */
  lemma SourceIsFree(t: L.Tree<string>, m: L.Move, u: L.Tree<string>, end: map<L.Path, string>, log: seq<L.Move>,
                     created: seq<L.Path>, strays: set<L.Path>, extras: set<L.Path>)
    requires t.WellFormed() && t.CanMove(m.from, m.to) && L.NothingAt(t, m.to)
    requires Back(L.Moved(t, m.from, m.to), u, end, log, created, strays, extras)
    requires m.from !in extras && forall s <- strays :: !(s <= m.from)
    ensures !u.Exists(m.from) && L.NothingAt(u, m.from) && !L.Blocked(u, m.from)
  {
    var v := L.Moved(t, m.from, m.to);
    L.MoveIsApart(t, m.from, m.to);
    forall q | q in v.files
      ensures !(m.from <= q) && !(q <= m.from)
    {
      var p :| p in t.files && q == L.Rebase(p, m.from, m.to);
      L.GoneAfterMove(t, m, p);
      L.AncestorIsNoFile(t, m, p);
    }
    forall q | q in v.dirs
      ensures q != m.from
    {
      var p :| p in t.dirs + L.Above(m.to) && q == L.Rebase(p, m.from, m.to);
      L.GoneAfterMove(t, m, p);
    }
    hide L.Moved, L.Rebase, HasEnd, L.Tree.CanMove;
    NotThere(v, u, end, log, created, strays, extras, m.from);
  }

  lemma NotThere(v: L.Tree<string>, u: L.Tree<string>, end: map<L.Path, string>, log: seq<L.Move>,
                 created: seq<L.Path>, strays: set<L.Path>, extras: set<L.Path>, p: L.Path)
    requires Back(v, u, end, log, created, strays, extras)
    requires p !in v.dirs + extras && forall q | q in v.files.Keys + strays :: !(q <= p)
    ensures !u.Exists(p) && L.NothingAt(u, p) && !L.Blocked(u, p)
  {
    hide HasEnd;
    assert p <= p;
    L.AbsentBelow(u, p);
    forall q | q in L.Above(p)
      ensures q !in u.files
    {
      L.AboveIs(p, q);
    }
  }

  /** A step that is skipped because nothing is at the destination any more. */
  lemma SkippedBack(t: L.Tree<string>, m: L.Move, u: L.Tree<string>, end: map<L.Path, string>, log: seq<L.Move>,
                    created: seq<L.Path>, strays: set<L.Path>, extras: set<L.Path>)
    requires t.WellFormed() && t.CanMove(m.from, m.to) && L.NothingAt(t, m.to)
    requires Back(L.Moved(t, m.from, m.to), u, end, log, created, strays, extras)
    requires L.NothingAt(u, m.from) && !u.Exists(m.to)
    ensures Back(t, u, end, [m] + log, created, L.RebaseDirs(strays, m.to, m.from),
                 L.Above(m.to) + L.RebaseDirs(extras, m.to, m.from))
  {
    var v := L.Moved(t, m.from, m.to);
    L.AbsentBelow(u, m.to);
    forall q | q in t.files
      ensures HasEnd(u, q, end, L.Forward(q, [m] + log), created)
    {
      ForwardStep(q, m, log);
      var r := L.Rebase(q, m.from, m.to);
      assert r in v.files && HasEnd(u, r, end, L.Forward(r, log), created);
      assert m.from <= q ==> m.to <= r;
    }
    hide L.Above, L.Tree.WellFormed, L.Tree.CanMove, HasEnd;
    StayingPaths(t.files.Keys, u.files.Keys, m, strays);
    L.RebaseKeys(t.files, m.from, m.to);
    StayingPaths(t.dirs + L.Above(m.to), u.dirs, m, extras);
  }

  /** Paths that a move did not put where they are were there before it. */
  lemma StayingPaths(was: set<L.Path>, now: set<L.Path>, m: L.Move, others: set<L.Path>)
    requires now <= L.RebaseDirs(was, m.from, m.to) + others && forall p <- now :: !(m.to <= p)
    ensures now <= was + L.RebaseDirs(others, m.to, m.from)
  {
    forall d | d in now
      ensures d in was + L.RebaseDirs(others, m.to, m.from)
    {
      assert L.Rebase(d, m.to, m.from) == d;
      if d in L.RebaseDirs(was, m.from, m.to) {
        var p :| p in was && d == L.Rebase(p, m.from, m.to);
        assert m.from <= p ==> m.to <= d;
      }
    }
  }

  /** A step that moves back. */
  lemma MovedBack(t: L.Tree<string>, m: L.Move, u: L.Tree<string>, end: map<L.Path, string>, log: seq<L.Move>,
                  created: seq<L.Path>, strays: set<L.Path>, extras: set<L.Path>)
    requires t.WellFormed() && t.CanMove(m.from, m.to) && L.NothingAt(t, m.to)
    requires Back(L.Moved(t, m.from, m.to), u, end, log, created, strays, extras)
    requires u.CanMove(m.to, m.from) && L.NothingAt(u, m.from)
    ensures Back(t, L.Moved(u, m.to, m.from), end, [m] + log, created, L.RebaseDirs(strays, m.to, m.from),
                 L.Above(m.to) + L.RebaseDirs(extras, m.to, m.from))
  {
    hide L.Tree.WellFormed, L.Tree.CanMove, L.RebaseFiles, L.RebaseDirs, L.Rebase, L.Above, L.NothingAt, HasEnd,
        L.Moved;
    L.MovedWellFormed(u, m.to, m.from);
    forall q | q in t.files
      ensures HasEnd(L.Moved(u, m.to, m.from), q, end, L.Forward(q, [m] + log), created)
    {
      FileBack(t, m, u, end, log, created, strays, extras, q);
    }
    FilesBack(t, m, u, end, log, created, strays, extras);
    DirsBack(t, m, u, end, log, created, strays, extras);
  }

  lemma FileBack(t: L.Tree<string>, m: L.Move, u: L.Tree<string>, end: map<L.Path, string>, log: seq<L.Move>,
                 created: seq<L.Path>, strays: set<L.Path>, extras: set<L.Path>, q: L.Path)
    requires t.WellFormed() && t.CanMove(m.from, m.to) && L.NothingAt(t, m.to)
    requires Back(L.Moved(t, m.from, m.to), u, end, log, created, strays, extras)
    requires u.CanMove(m.to, m.from) && L.NothingAt(u, m.from) && q in t.files
    ensures HasEnd(L.Moved(u, m.to, m.from), q, end, L.Forward(q, [m] + log), created)
  {
    L.GoneAfterMove(t, m, q);
    ForwardStep(q, m, log);
    var r := L.Rebase(q, m.from, m.to);
    assert r in L.Moved(t, m.from, m.to).files;
    assert HasEnd(u, r, end, L.Forward(r, log), created);
    hide L.Tree.WellFormed, L.Tree.CanMove, L.Forward, L.RebaseDirs, L.Above, L.Rebase;
    var w := L.Moved(u, m.to, m.from);
    if r !in u.files && q in w.files {
      var f :| f in u.files && q == L.Rebase(f, m.to, m.from);
      L.RebaseInjective(f, r, m.to, m.from);
    }
  }

  lemma FilesBack(t: L.Tree<string>, m: L.Move, u: L.Tree<string>, end: map<L.Path, string>, log: seq<L.Move>,
                  created: seq<L.Path>, strays: set<L.Path>, extras: set<L.Path>)
    requires t.WellFormed() && t.CanMove(m.from, m.to) && L.NothingAt(t, m.to)
    requires Back(L.Moved(t, m.from, m.to), u, end, log, created, strays, extras)
    requires L.NothingAt(u, m.from)
    ensures L.Moved(u, m.to, m.from).files.Keys <= t.files.Keys + L.RebaseDirs(strays, m.to, m.from)
  {
    hide L.Tree.WellFormed, L.Tree.CanMove, L.Forward, L.Above, L.Rebase, HasEnd;
    forall q | q in L.Moved(u, m.to, m.from).files
      ensures q in t.files.Keys + L.RebaseDirs(strays, m.to, m.from)
    {
      var f :| f in u.files && q == L.Rebase(f, m.to, m.from);
      if f !in strays {
        var p :| p in t.files && f == L.Rebase(p, m.from, m.to);
        L.GoneAfterMove(t, m, p);
      }
    }
  }

  lemma DirsBack(t: L.Tree<string>, m: L.Move, u: L.Tree<string>, end: map<L.Path, string>, log: seq<L.Move>,
                 created: seq<L.Path>, strays: set<L.Path>, extras: set<L.Path>)
    requires t.WellFormed() && t.CanMove(m.from, m.to) && L.NothingAt(t, m.to)
    requires Back(L.Moved(t, m.from, m.to), u, end, log, created, strays, extras)
    requires L.NothingAt(u, m.from)
    ensures L.Moved(u, m.to, m.from).dirs <= t.dirs + (L.Above(m.to) + L.RebaseDirs(extras, m.to, m.from))
  {
    L.AncestorsAreThere(t, m);
    hide L.Tree.WellFormed, L.Tree.CanMove, L.Forward, L.Above, L.Rebase, HasEnd, L.RebaseFiles;
    forall q | q in L.Moved(u, m.to, m.from).dirs
      ensures q in t.dirs + (L.Above(m.to) + L.RebaseDirs(extras, m.to, m.from))
    {
      var d :| d in u.dirs + L.Above(m.from) && q == L.Rebase(d, m.to, m.from);
      if d in L.Above(m.from) {
        assert q in L.RebaseDirs(L.Above(m.from), m.to, m.from);
      } else if d !in extras {
        var p :| p in t.dirs + L.Above(m.to) && d == L.Rebase(p, m.from, m.to);
        L.GoneAfterMove(t, m, p);
      }
    }
  }

  /** Undoing one move. */
  lemma UndoneBack(t: L.Tree<string>, m: L.Move, u: L.Tree<string>, end: map<L.Path, string>, log: seq<L.Move>,
                   created: seq<L.Path>, strays: set<L.Path>, extras: set<L.Path>)
    requires t.WellFormed() && t.CanMove(m.from, m.to) && L.NothingAt(t, m.to)
    requires Back(L.Moved(t, m.from, m.to), u, end, log, created, strays, extras)
    requires !u.Exists(m.from) && !L.Blocked(u, m.from)
    ensures L.UndoOne(u, m).ok
    ensures Back(t, L.UndoOne(u, m).tree, end, [m] + log, created, L.RebaseDirs(strays, m.to, m.from),
                 L.Above(m.to) + L.RebaseDirs(extras, m.to, m.from))
  {
    L.MoveIsApart(t, m.from, m.to);
    L.AbsentBelow(u, m.from);
    NotBlocked(u, m.from);
    hide L.Moved, L.RebaseDirs, L.NothingAt, L.Tree.WellFormed, Back;
    if u.Exists(m.to) {
      MovedBack(t, m, u, end, log, created, strays, extras);
    } else {
      SkippedBack(t, m, u, end, log, created, strays, extras);
    }
  }

  /** What undoing the entry of one action leaves. */
  function UndoEntry(u: L.Tree<string>, entry: seq<Entry>): L.Undone<string> {
    if entry != [] && entry[0].Went? then L.UndoOne(u, entry[0].move) else L.Undone(u, true)
  }

  /** The source of an action that moved something is free: nothing is there, and nothing above is a file. */
  ghost predicate Freed(u: L.Tree<string>, entry: seq<Entry>) {
    entry != [] && entry[0].Went? ==> !u.Exists(entry[0].move.from) && !L.Blocked(u, entry[0].move.from)
  }

  /** Every source is free when its move is undone. */
  ghost predicate Frees(u: L.Tree<string>, log: seq<L.Move>) {
    log != [] ==>
      && Frees(u, log[1..])
      && var r := L.Undo(u, log[1..]);
         r.ok && !r.tree.Exists(log[0].from) && !L.Blocked(r.tree, log[0].from)
  }

  /** `u` is what the rollback has come to before the entries of `trace`. */
  ghost predicate BackBefore(t: L.Tree<string>, u: L.Tree<string>, end: map<L.Path, string>, trace: seq<Entry>,
      created: seq<L.Path>)
  {
    Back(t, u, end, MovesOf(trace), created, Strays(trace, created), Extras(trace))
  }

  lemma WentBack(t: L.Tree<string>, src: L.Path, dst: L.Path, v: L.Tree<string>, u: L.Tree<string>, end: map<L.Path,
      string>,
                 trace: seq<Entry>, created: seq<L.Path>)
    requires t.WellFormed() && t.CanMove(src, dst) && L.NothingAt(t, dst)
    requires var w := L.Moved(t, src, dst); v.files.Keys == w.files.Keys && v.dirs == w.dirs
    requires BackBefore(v, u, end, trace, created) && !u.Exists(src) && !L.Blocked(u, src)
    ensures var r := L.UndoOne(u, L.Move(src, dst));
            r.ok && BackBefore(t, r.tree, end, [Went(L.Move(src, dst))] + trace, created)
  {
    var m := L.Move(src, dst);
    var longer := [Went(m)] + trace;
    assert longer[1..] == trace && longer[0] == Went(m);
    hide Back, L.Moved, L.NothingAt, L.UndoOne, L.Tree.WellFormed, L.Tree.CanMove;
    SamePlaceBack(L.Moved(t, src, dst), v, u, end, MovesOf(trace), created, Strays(trace, created), Extras(trace));
    UndoneBack(t, m, u, end, MovesOf(trace), created, Strays(trace, created), Extras(trace));
  }

  lemma WroteBack(t: L.Tree<string>, dst: L.Path, entry: string, u: L.Tree<string>, end: map<L.Path, string>,
                  trace: seq<Entry>, created: seq<L.Path>)
    requires !t.Exists(dst)
    requires BackBefore(L.Tree(t.files[dst := entry], t.dirs + L.Above(dst)), u, end, trace, created)
    ensures BackBefore(t, u, end, [Wrote(dst)] + trace, created)
  {
    hide L.Above, L.Tree.WellFormed, L.Forward;
    var v := L.Tree(t.files[dst := entry], t.dirs + L.Above(dst));
    var longer := [Wrote(dst)] + trace;
    assert longer[1..] == trace && longer[0] == Wrote(dst);
    assert MovesOf(longer) == MovesOf(trace);
    hide HasEnd;
    assert HasEnd(u, dst, end, L.Forward(dst, MovesOf(trace)), created);
    if L.Forward(dst, MovesOf(trace)) in created {
      HasNoEnd(u, dst, end, L.Forward(dst, MovesOf(trace)), created);
    }
  }

  lemma HasNoEnd(u: L.Tree<string>, q: L.Path, end: map<L.Path, string>, last: L.Path, created: seq<L.Path>)
    requires HasEnd(u, q, end, last, created) && last in created
    ensures q !in u.files
  {
  }

  lemma MadeBack(t: L.Tree<string>, dst: L.Path, u: L.Tree<string>, end: map<L.Path, string>, trace: seq<Entry>,
      created: seq<L.Path>)
    requires BackBefore(WithDirs(t, L.Above(dst) + {dst}), u, end, trace, created)
    ensures BackBefore(t, u, end, [Made(dst)] + trace, created)
  {
    hide L.Above, L.Tree.WellFormed, L.Forward, HasEnd;
    var longer := [Made(dst)] + trace;
    assert longer[1..] == trace && longer[0] == Made(dst);
    assert MovesOf(longer) == MovesOf(trace);
  }

  /** An action that puts nothing anywhere. */
  lemma QuietBack(t: L.Tree<string>, v: L.Tree<string>, u: L.Tree<string>, end: map<L.Path, string>, trace: seq<Entry>,
                  created: seq<L.Path>)
    requires BackBefore(v, u, end, trace, created) && v.files.Keys == t.files.Keys && v.dirs <= t.dirs
    ensures [] + trace == trace && BackBefore(t, u, end, trace, created)
  {
    hide Back;
    SamePlaceBack(t, v, u, end, MovesOf(trace), created, Strays(trace, created), Extras(trace));
  }

  lemma MoveBack(t: L.Tree<string>, a: Action, u: L.Tree<string>, end: map<L.Path, string>, trace: seq<Entry>,
      created: seq<L.Path>)
    requires t.WellFormed() && a.MoveTo? && PlainAction(a) && Perform(t, a).ok
    requires BackBefore(Perform(t, a).tree, u, end, trace, created) && Freed(u, EntryOf(t, a))
    ensures var r := UndoEntry(u, EntryOf(t, a)); r.ok && BackBefore(t, r.tree, end, EntryOf(t, a) + trace, created)
  {
    hide BackBefore, L.Moved, L.Above, L.NothingAt, L.UndoOne, Annotated, PlainMeta;
    var MoveTo(src, dst, meta) := a;
    if t.Exists(dst) || !t.Exists(src) {
      QuietBack(t, t, u, end, trace, created);
    } else {
      L.AbsentBelow(t, dst);
      hide L.Tree.WellFormed;
      NotBlocked(t, dst);
      if meta.Some? {
        AnnotatedConserves(L.Moved(t, src, dst), dst, meta.value);
      }
      WentBack(t, src, dst, Perform(t, a).tree, u, end, trace, created);
    }
  }

  lemma NotBlocked(t: L.Tree<string>, p: L.Path)
    requires !L.Blocked(t, p)
    ensures forall q <- L.Above(p) :: q !in t.files
  {
  }

  /** Back through one action. */
  lemma ActionBack(t: L.Tree<string>, a: Action, u: L.Tree<string>, end: map<L.Path, string>, trace: seq<Entry>,
      created: seq<L.Path>)
    requires t.WellFormed() && PlainAction(a) && Perform(t, a).ok
    requires BackBefore(Perform(t, a).tree, u, end, trace, created) && Freed(u, EntryOf(t, a))
    ensures var r := UndoEntry(u, EntryOf(t, a)); r.ok && BackBefore(t, r.tree, end, EntryOf(t, a) + trace, created)
  {
    hide BackBefore, L.Moved, L.Above, L.NothingAt, L.UndoOne, Annotated, PlainMeta, L.Tree.WellFormed,
        L.Blocked, Empties;
    var v := Perform(t, a).tree;
    match a
    case MoveTo(_, _, _) => MoveBack(t, a, u, end, trace, created);
    case Create(dst, entry) =>
      if t.Exists(dst) {
        QuietBack(t, v, u, end, trace, created);
      } else {
        WroteBack(t, dst, entry, u, end, trace, created);
      }
    case Annotate(src, meta) =>
      PlainWithoutType(meta);
      AnnotatedConserves(t, src, meta.(memType := ""));
      QuietBack(t, v, u, end, trace, created);
    case MakeDir(dst) =>
      if t.Exists(dst) {
        QuietBack(t, v, u, end, trace, created);
      } else {
        MadeBack(t, dst, u, end, trace, created);
      }
    case RemoveEmpty(_) => QuietBack(t, v, u, end, trace, created);
    case Notify(_) => QuietBack(t, v, u, end, trace, created);
  }

  lemma SafeTail(entry: seq<Entry>, trace: seq<Entry>, created: seq<L.Path>)
    requires |entry| <= 1 && Safe(entry + trace, created)
    ensures Safe(trace, created)
  {
    if entry == [] {
      assert entry + trace == trace;
    } else {
      assert (entry + trace)[1..] == trace;
    }
  }

  lemma UndoConcat(entry: seq<Entry>, trace: seq<Entry>, u: L.Tree<string>)
    requires |entry| <= 1
    ensures var r := L.Undo(u, MovesOf(trace));
            L.Undo(u, MovesOf(entry + trace)) == if r.ok then UndoEntry(r.tree, entry) else r
  {
    hide L.UndoOne;
    if entry == [] {
      assert entry + trace == trace;
    } else {
      assert (entry + trace)[1..] == trace;
      if entry[0].Went? {
        assert MovesOf(entry + trace) == [entry[0].move] + MovesOf(trace);
        assert MovesOf(entry + trace)[1..] == MovesOf(trace);
      } else {
        assert MovesOf(entry + trace) == MovesOf(trace);
      }
    }
  }

  lemma FreesConcat(entry: seq<Entry>, trace: seq<Entry>, u: L.Tree<string>)
    requires |entry| <= 1
    ensures Frees(u, MovesOf(trace)) && L.Undo(u, MovesOf(trace)).ok ==>
              (Frees(u, MovesOf(entry + trace)) <==> Freed(L.Undo(u, MovesOf(trace)).tree, entry))
    ensures Frees(u, MovesOf(entry + trace)) ==> Frees(u, MovesOf(trace))
  {
    hide L.Undo, L.Blocked;
    if entry == [] {
      assert entry + trace == trace;
    } else {
      assert (entry + trace)[1..] == trace;
      if entry[0].Went? {
        assert MovesOf(entry + trace) == [entry[0].move] + MovesOf(trace);
        assert MovesOf(entry + trace)[1..] == MovesOf(trace);
      } else {
        assert MovesOf(entry + trace) == MovesOf(trace);
      }
    }
  }

  /** A rollback whose sources are free comes back to where each action started. */
  lemma {:induction false} RunBack(t: L.Tree<string>, actions: seq<Action>, u: L.Tree<string>,
      end: map<L.Path, string>, created: seq<L.Path>)
    requires t.WellFormed() && Plain(actions) && PerformAll(t, actions).ok
    requires Frees(u, MovesOf(Trace(t, actions)))
    requires Back(PerformAll(t, actions).tree, u, end, [], created, {}, {})
    ensures var r := L.Undo(u, MovesOf(Trace(t, actions)));
            r.ok && BackBefore(t, r.tree, end, Trace(t, actions), created)
    decreases |actions|
  {
    hide L.Tree.WellFormed, Perform, EntryOf, PlainAction, Conserved, Back, L.Undo, Frees, Freed;
    if actions == [] {
      hide *;
      NothingUndone(u);
      NothingTraced(created);
    } else {
      var a, rest := actions[0], actions[1..];
      var v := Perform(t, a).tree;
      PerformConserves(t, a);
      OneEntry(t, a);
      var later := Trace(v, rest);
      FreesConcat(EntryOf(t, a), later, u);
      RunBack(v, rest, u, end, created);
      UndoConcat(EntryOf(t, a), later, u);
      hide BackBefore, UndoEntry;
      ActionBack(t, a, L.Undo(u, MovesOf(later)).tree, end, later, created);
    }
  }

  /** The source of a move is free when nothing of what was left over is in its way. */
  lemma SafeFrees(t: L.Tree<string>, a: Action, u: L.Tree<string>, end: map<L.Path, string>, trace: seq<Entry>,
      created: seq<L.Path>)
    requires t.WellFormed() && PlainAction(a) && Perform(t, a).ok
    requires BackBefore(Perform(t, a).tree, u, end, trace, created) && Safe(EntryOf(t, a) + trace, created)
    ensures Freed(u, EntryOf(t, a))
  {
    hide L.Moved, L.Above, L.NothingAt, Annotated, PlainMeta, Back, L.Tree.WellFormed, L.Blocked, Empties;
    if a.MoveTo? && !t.Exists(a.dst) && t.Exists(a.src) {
      var MoveTo(src, dst, meta) := a;
      var m := L.Move(src, dst);
      var longer := [Went(m)] + trace;
      assert longer[1..] == trace && longer[0] == Went(m) && EntryOf(t, a) == [Went(m)];
      L.AbsentBelow(t, dst);
      NotBlocked(t, dst);
      if meta.Some? {
        AnnotatedConserves(L.Moved(t, src, dst), dst, meta.value);
      }
      var strays, extras := Strays(trace, created), Extras(trace);
      SamePlaceBack(L.Moved(t, src, dst), Perform(t, a).tree, u, end, MovesOf(trace), created, strays, extras);
      SourceIsFree(t, m, u, end, MovesOf(trace), created, strays, extras);
    }
  }

  lemma {:induction false} SafeRunFrees(t: L.Tree<string>, actions: seq<Action>, u: L.Tree<string>,
      end: map<L.Path, string>, created: seq<L.Path>)
    requires t.WellFormed() && Plain(actions) && PerformAll(t, actions).ok && Safe(Trace(t, actions), created)
    requires Back(PerformAll(t, actions).tree, u, end, [], created, {}, {})
    ensures Frees(u, MovesOf(Trace(t, actions)))
    decreases |actions|
  {
    hide L.Tree.WellFormed, Perform, EntryOf, PlainAction, Conserved, Back, Safe, L.Undo, Freed, BackBefore;
    if actions == [] {
      NothingTraced(created);
      hide *;
      FreesNothing(u);
    } else {
      var a, rest := actions[0], actions[1..];
      var v := Perform(t, a).tree;
      PerformConserves(t, a);
      OneEntry(t, a);
      var later := Trace(v, rest);
      SafeTail(EntryOf(t, a), later, created);
      SafeRunFrees(v, rest, u, end, created);
      RunBack(v, rest, u, end, created);
      hide Frees;
      SafeFrees(t, a, L.Undo(u, MovesOf(later)).tree, end, later, created);
      FreesConcat(EntryOf(t, a), later, u);
    }
  }

  lemma FreesNothing(u: L.Tree<string>)
    ensures Frees(u, [])
  {
  }

  lemma NothingUndone(u: L.Tree<string>)
    ensures L.Undo(u, []) == L.Undone(u, true)
  {
  }

  lemma NothingTraced(created: seq<L.Path>)
    ensures MovesOf([]) == [] && Strays([], created) == {} && Extras([]) == {}
  {
  }

  lemma UnmadeBack(e: Effect, archive: map<L.Path, string>)
    requires e.tree.WellFormed() && Unmade(e.tree, e.created, e.modified, archive).ok
    ensures var u := Unmade(e.tree, e.created, e.modified, archive).tree;
            u.WellFormed() && Back(e.tree, u, Ends(e, archive), [], e.created, {}, {})
  {
    hide L.Unlink, Restore;
    L.UnlinkTakesCreated(e.tree, e.created);
    var v := L.Unlink(e.tree, e.created).tree;
    RestoreWritesTexts(v, e.modified, archive);
    forall q | q in e.tree.files
      ensures L.Forward(q, []) == q
    {
    }
  }

  /** The texts that the files of a finished run come back with. */
  function Ends(e: Effect, archive: map<L.Path, string>): map<L.Path, string> {
    map p | p in e.tree.files :: if p in e.modified && p in archive then archive[p] else e.tree.files[p]
  }

  // ---- What is left, exactly ----------------------------------------------------------------------------

  /** The paths of a tree. */
  datatype Places = Places(files: set<L.Path>, dirs: set<L.Path>)

  function PlacesOf(t: L.Tree<string>): Places {
    Places(t.files.Keys, t.dirs)
  }

  /** The paths left once a log is undone: all that was there, carried back, and the parents of the sources
      that something was moved back to. */
  function Left(p: Places, log: seq<L.Move>): Places {
    if log == [] then p
    else
      var m, q := log[0], Left(p, log[1..]);
      var parents := if m.to in q.files + q.dirs then L.Above(m.from) else {};
      Places(L.RebaseDirs(q.files, m.to, m.from), L.RebaseDirs(q.dirs + parents, m.to, m.from))
  }

  /** No source is one of the directories left, and no file left is there or above it. */
  predicate Unblocked(p: Places, log: seq<L.Move>) {
    log != [] ==>
      && Unblocked(p, log[1..])
      && var q := Left(p, log[1..]);
         log[0].from !in q.dirs && forall f <- q.files :: !(f <= log[0].from)
  }

  lemma {:induction false} FreesIff(u: L.Tree<string>, log: seq<L.Move>)
    requires u.WellFormed() && forall m <- log :: L.Apart(m.from, m.to)
    ensures Frees(u, log) <==> Unblocked(PlacesOf(u), log)
    ensures Frees(u, log) ==>
              var r := L.Undo(u, log);
              r.ok && r.tree.WellFormed() && PlacesOf(r.tree) == Left(PlacesOf(u), log)
  {
    if log != [] {
      hide L.Tree.WellFormed, L.UndoOne, PlacesOf, L.Apart, L.Blocked, L.RebaseDirs;
      FreesIff(u, log[1..]);
      assert log[0] in log;
      if Frees(u, log[1..]) {
        var v := L.Undo(u, log[1..]).tree;
        FreeIff(v, log[0].from);
        if !v.Exists(log[0].from) && !L.Blocked(v, log[0].from) {
          UndoPlaces(v, log[0]);
        }
      }
    }
  }

  lemma FreeIff(v: L.Tree<string>, p: L.Path)
    ensures !v.Exists(p) && !L.Blocked(v, p)
            <==> p !in PlacesOf(v).dirs && forall f <- PlacesOf(v).files :: !(f <= p)
  {
    forall f
      ensures f <= p <==> f == p || f in L.Above(p)
    {
      L.AboveIs(p, f);
    }
    hide L.Above;
  }

  lemma UndoPlaces(v: L.Tree<string>, m: L.Move)
    requires v.WellFormed() && L.Apart(m.from, m.to) && !v.Exists(m.from) && !L.Blocked(v, m.from)
    ensures var r, q := L.UndoOne(v, m), PlacesOf(v);
            var parents := if m.to in q.files + q.dirs then L.Above(m.from) else {};
            && r.ok && r.tree.WellFormed()
            && PlacesOf(r.tree)
               == Places(L.RebaseDirs(q.files, m.to, m.from), L.RebaseDirs(q.dirs + parents, m.to, m.from))
  {
    L.AbsentBelow(v, m.from);
    NotBlocked(v, m.from);
    if v.Exists(m.to) {
      L.MovedWellFormed(v, m.to, m.from);
      L.RebaseKeys(v.files, m.to, m.from);
    } else {
      L.AbsentBelow(v, m.to);
      hide L.Tree.WellFormed, L.Above;
      StaysPut(v.files.Keys, m.to, m.from);
      StaysPut(v.dirs, m.to, m.from);
      assert v.dirs + {} == v.dirs;
    }
  }

  lemma StaysPut(paths: set<L.Path>, src: L.Path, dst: L.Path)
    requires forall p <- paths :: !(src <= p)
    ensures L.RebaseDirs(paths, src, dst) == paths
  {
  }

  lemma ActionApart(t: L.Tree<string>, a: Action)
    requires t.WellFormed()
    ensures forall m <- Perform(t, a).moves :: L.Apart(m.from, m.to)
  {
    if a.MoveTo? && Perform(t, a).moves != [] {
      L.AbsentBelow(t, a.dst);
      NotBlocked(t, a.dst);
      L.MoveIsApart(t, a.src, a.dst);
    } else if a.Annotate? {
      OnlyModifies(t, a.src, a.attributes.(memType := ""));
    }
  }

  lemma {:induction false} MovesApart(t: L.Tree<string>, actions: seq<Action>)
    requires t.WellFormed() && Plain(actions)
    ensures forall m <- PerformAll(t, actions).moves :: L.Apart(m.from, m.to)
    decreases |actions|
  {
    hide L.Tree.WellFormed, Perform, PlainAction, Conserved, L.Apart;
    if actions != [] {
      PerformConserves(t, actions[0]);
      ActionApart(t, actions[0]);
      if Perform(t, actions[0]).ok {
        MovesApart(Perform(t, actions[0]).tree, actions[1..]);
      }
    }
  }

  // ---- The rollback of a whole run ------------------------------------------------------------------

  /** Rolling back a finished run of any actions, when the first two steps raise nothing.  Every source is
      free when its move is undone exactly when nothing left over is in its place and no file is above it.
      Then nothing raises, exactly these paths are left, and each file of before the run is back at its own
      path exactly when it did not end at a created path, where it was unlinked; its text is the archived one
      if it was modified where it ended, and its own up to injected front matter otherwise.  The others are
      created files that were moved away, and directories that were made. */
  lemma MigrateThenUndo(t: L.Tree<string>, actions: seq<Action>, archive: map<L.Path, string>)
    requires t.WellFormed() && Plain(actions) && PerformAll(t, actions).ok
    requires var e := PerformAll(t, actions); Unmade(e.tree, e.created, e.modified, archive).ok
    ensures var e, trace := PerformAll(t, actions), Trace(t, actions);
            var u := Unmade(e.tree, e.created, e.modified, archive).tree;
            var r := RolledBack(e.tree, e.moves, e.created, e.modified, archive);
            && (Frees(u, e.moves) <==> Unblocked(PlacesOf(u), e.moves))
            && (Frees(u, e.moves) ==>
                  && r.ok && r.tree.WellFormed() && PlacesOf(r.tree) == Left(PlacesOf(u), e.moves)
                  && (forall p <- t.files :: ComesBack(t, e, r.tree, p, archive))
                  && r.tree.files.Keys <= t.files.Keys + Strays(trace, e.created)
                  && r.tree.dirs <= t.dirs + Extras(trace))
  {
    hide L.Tree.WellFormed, L.Undo, Unmade, Trace, PerformAll, Kept, L.Forward, Strays, Extras, PlainAction, Frees,
      Unblocked, Left, PlacesOf, L.Apart, ComesBack, HasEnd, Ends;
    var e, trace := PerformAll(t, actions), Trace(t, actions);
    RunConserves(t, actions);
    TraceIsLogged(t, actions);
    MovesApart(t, actions);
    UnmadeBack(e, archive);
    var u := Unmade(e.tree, e.created, e.modified, archive).tree;
    FreesIff(u, e.moves);
    if Frees(u, e.moves) {
      RunBack(t, actions, u, Ends(e, archive), e.created);
      var r := RolledBack(e.tree, e.moves, e.created, e.modified, archive);
      forall p | p in t.files
        ensures ComesBack(t, e, r.tree, p, archive)
      {
        assert HasEnd(r.tree, p, Ends(e, archive), L.Forward(p, e.moves), e.created);
        EndComesBack(t, e, r.tree, p, archive);
      }
    }
  }

  lemma EndComesBack(t: L.Tree<string>, e: Effect, back: L.Tree<string>, p: L.Path, archive: map<L.Path, string>)
    requires p in t.files && L.Forward(p, e.moves) in e.tree.files
    requires Kept(t.files[p], e.tree.files[L.Forward(p, e.moves)])
    requires HasEnd(back, p, Ends(e, archive), L.Forward(p, e.moves), e.created)
    ensures ComesBack(t, e, back, p, archive)
  {
    hide Kept, L.Forward;
  }

  /** What becomes of a file of before the run. */
  ghost predicate ComesBack(t: L.Tree<string>, e: Effect, back: L.Tree<string>, p: L.Path, archive: map<L.Path, string>)
    requires p in t.files
  {
    var last := L.Forward(p, e.moves);
    && last in e.tree.files && Kept(t.files[p], e.tree.files[last])
    && (p in back.files <==> last !in e.created)
    && (p in back.files ==>
          back.files[p] == if last in e.modified && last in archive then archive[last] else e.tree.files[last])
  }

  /** What the entries of a run alone say: its sources are free when no leftover directory is in the place of
      one, and no stray file there or above it. */
  lemma SafeRunsFree(t: L.Tree<string>, actions: seq<Action>, archive: map<L.Path, string>)
    requires t.WellFormed() && Plain(actions) && PerformAll(t, actions).ok
    requires Safe(Trace(t, actions), PerformAll(t, actions).created)
    requires var e := PerformAll(t, actions); Unmade(e.tree, e.created, e.modified, archive).ok
    ensures var e := PerformAll(t, actions); Frees(Unmade(e.tree, e.created, e.modified, archive).tree, e.moves)
  {
    hide L.Tree.WellFormed, L.Undo, Unmade, Trace, PerformAll, PlainAction, Frees, Safe, Conserved;
    var e := PerformAll(t, actions);
    RunConserves(t, actions);
    TraceIsLogged(t, actions);
    UnmadeBack(e, archive);
    SafeRunFrees(t, actions, Unmade(e.tree, e.created, e.modified, archive).tree, Ends(e, archive), e.created);
  }

  /** The first two steps raise nothing when no created or modified path is a directory at the end. */
  lemma UnmadeRaisesNothing(e: Effect, archive: map<L.Path, string>)
    requires e.tree.WellFormed()
    requires forall p | p in e.created || p in e.modified :: p !in e.tree.dirs
    ensures Unmade(e.tree, e.created, e.modified, archive).ok
  {
    hide L.Tree.WellFormed, L.Unlink, Restore;
    L.UnlinkRaisesNothing(e.tree, e.created);
    L.UnlinkTakesCreated(e.tree, e.created);
    RestoreRaisesNothing(L.Unlink(e.tree, e.created).tree, e.modified, archive);
  }

  // ---- Runs that are clear ----------------------------------------------------------------------------

  /** What comes later does not disturb an entry: nothing is put below the source of a move, taken from at
      or above it, or made there or above it; nothing is put at, above or below a written file. */
  predicate Harmless(e: Entry, later: Entry) {
    match e
    case Went(m) =>
      m.from !in L.Above(Target(later)) && !((if later.Went? then later.move.from else later.dst) <= m.from)
    case Wrote(c) => !(Target(later) <= c) && !(c <= Target(later))
    case Made(_) => true
  }

  predicate Clear(trace: seq<Entry>) {
    trace != [] ==> Clear(trace[1..]) && forall later <- trace[1..] :: Harmless(trace[0], later)
  }

  lemma {:induction false} NothingLeft(m: L.Move, trace: seq<Entry>, created: seq<L.Path>)
    requires forall later <- trace :: Harmless(Went(m), later)
    ensures m.from !in Extras(trace) && forall s <- Strays(trace, created) :: !(s <= m.from)
  {
    if trace != [] {
      var first, rest := trace[0], trace[1..];
      NothingLeft(m, rest, created);
      hide L.Above, L.Forward;
      assert Harmless(Went(m), first);
      if first.Went? {
        var n := first.move;
        forall q
          ensures n.to <= q ==> n.from <= L.Rebase(q, n.to, n.from)
        {
        }
        assert m.from <= m.from;
      }
    }
  }

  lemma {:induction false} ClearIsSafe(trace: seq<Entry>, created: seq<L.Path>)
    requires Clear(trace)
    ensures Safe(trace, created)
  {
    hide Harmless, Extras, Strays;
    if trace != [] {
      ClearIsSafe(trace[1..], created);
      if trace[0].Went? {
        NothingLeft(trace[0].move, trace[1..], created);
      }
    }
  }

  /** Nothing is put at, above or below `c`. */
  ghost predicate Spared(c: L.Path, trace: seq<Entry>) {
    forall e <- trace :: !(Target(e) <= c) && !(c <= Target(e))
  }

  lemma DirStep(t: L.Tree<string>, a: Action, c: L.Path)
    requires t.WellFormed() && PlainAction(a) && Perform(t, a).ok && c !in t.dirs && Spared(c, EntryOf(t, a))
    ensures c !in Perform(t, a).tree.dirs
  {
    hide L.Tree.WellFormed, L.Blocked, Empties, Inject, PlainMeta, L.NothingAt;
    match a
    case MoveTo(src, dst, meta) =>
      if !t.Exists(dst) && t.Exists(src) {
        var e := Went(L.Move(src, dst));
        assert e in EntryOf(t, a) && Target(e) == dst;
        L.AboveIs(dst, c);
        hide L.Above;
        forall d | d in t.dirs + L.Above(dst)
          ensures L.Rebase(d, src, dst) != c
        {
          assert src <= d ==> dst <= L.Rebase(d, src, dst);
        }
      }
    case Create(dst, _) =>
      if !t.Exists(dst) {
        assert Wrote(dst) in EntryOf(t, a) && Target(Wrote(dst)) == dst;
        L.AboveIs(dst, c);
      }
    case MakeDir(dst) =>
      if !t.Exists(dst) {
        assert Made(dst) in EntryOf(t, a) && Target(Made(dst)) == dst;
        L.AboveIs(dst, c);
        assert dst <= dst;
      }
    case _ =>
  }

  lemma {:induction false} NeverDir(t: L.Tree<string>, actions: seq<Action>, c: L.Path)
    requires t.WellFormed() && Plain(actions) && PerformAll(t, actions).ok && c !in t.dirs
    requires Spared(c, Trace(t, actions))
    ensures c !in PerformAll(t, actions).tree.dirs
    decreases |actions|
  {
    hide L.Tree.WellFormed, Perform, EntryOf, PlainAction, Conserved;
    if actions != [] {
      PerformConserves(t, actions[0]);
      DirStep(t, actions[0], c);
      NeverDir(Perform(t, actions[0]).tree, actions[1..], c);
    }
  }

  lemma {:induction false} NeverLands(q: L.Path, log: seq<L.Move>, c: L.Path)
    requires q != c && forall m <- log :: !(m.to <= c)
    ensures L.Forward(q, log) != c
    decreases |log|
  {
    if log != [] {
      var r := L.Rebase(q, log[0].from, log[0].to);
      assert log[0].from <= q ==> log[0].to <= r;
      NeverLands(r, log[1..], c);
    }
  }

  lemma {:induction false} MovesAreEntries(trace: seq<Entry>)
    ensures forall m <- MovesOf(trace) :: Went(m) in trace
  {
    if trace != [] {
      MovesAreEntries(trace[1..]);
    }
  }

  lemma ClearTail(entry: seq<Entry>, trace: seq<Entry>)
    requires |entry| <= 1 && Clear(entry + trace)
    ensures Clear(trace)
    ensures entry != [] ==> forall later <- trace :: Harmless(entry[0], later)
  {
    hide Harmless;
    if entry == [] {
      assert entry + trace == trace;
    } else {
      assert (entry + trace)[1..] == trace;
    }
  }

  lemma HarmlessSpares(c: L.Path, later: seq<Entry>)
    requires forall e <- later :: Harmless(Wrote(c), e)
    ensures Spared(c, later)
  {
    forall e | e in later
      ensures !(Target(e) <= c) && !(c <= Target(e))
    {
      assert Harmless(Wrote(c), e);
    }
  }

  lemma SparedLands(q: L.Path, later: seq<Entry>, c: L.Path)
    requires q != c && Spared(c, later)
    ensures L.Forward(q, MovesOf(later)) != c
  {
    MovesAreEntries(later);
    forall m | m in MovesOf(later)
      ensures !(m.to <= c)
    {
      assert Went(m) in later && Target(Went(m)) == m.to;
    }
    NeverLands(q, MovesOf(later), c);
  }

  lemma StaysAlone(v: L.Tree<string>, actions: seq<Action>, c: L.Path, places: set<L.Path>)
    requires v.WellFormed() && Plain(actions) && PerformAll(v, actions).ok
    requires c !in v.dirs && c !in places && Spared(c, Trace(v, actions))
    ensures c !in PerformAll(v, actions).tree.dirs
    ensures forall p <- places :: L.Forward(p, PerformAll(v, actions).moves) != c
  {
    hide L.Tree.WellFormed, PlainAction, PerformAll, Trace, Spared, Plain;
    NeverDir(v, actions, c);
    TraceIsLogged(v, actions);
    forall p | p in places {
      SparedLands(p, Trace(v, actions), c);
    }
  }

  /** The file an action creates is new, and nothing later disturbs it. */
  lemma CreatedStays(t: L.Tree<string>, actions: seq<Action>, c: L.Path)
    requires t.WellFormed() && actions != [] && Plain(actions) && PerformAll(t, actions).ok && Clear(Trace(t, actions))
    requires c in Perform(t, actions[0]).created
    ensures c !in PerformAll(t, actions).tree.dirs
    ensures forall p <- t.files :: L.Forward(p, PerformAll(t, actions).moves) != c
  {
    RestOfRun(t, actions);
    TraceOfRun(t, actions);
    CreatesOne(t, actions[0], c);
    var v := Perform(t, actions[0]).tree;
    var later := Trace(v, actions[1..]);
    hide *;
    ClearTail(EntryOf(t, actions[0]), later);
    HarmlessSpares(c, later);
    StaysAlone(v, actions[1..], c, t.files.Keys);
    NoMovesFirst(Perform(t, actions[0]), PerformAll(v, actions[1..]));
  }

  lemma NoMovesFirst(e: Effect, f: Effect)
    requires e.moves == []
    ensures Then(e, f).moves == f.moves && Then(e, f).tree == f.tree
  {
  }

  lemma TraceOfRun(t: L.Tree<string>, actions: seq<Action>)
    requires t.WellFormed() && actions != [] && Plain(actions) && PerformAll(t, actions).ok
    ensures var v := Perform(t, actions[0]).tree;
            && v.WellFormed() && Plain(actions[1..])
            && Trace(t, actions) == EntryOf(t, actions[0]) + Trace(v, actions[1..])
  {
    hide L.Tree.WellFormed, Perform, PlainAction, Conserved, EntryOf;
    PerformConserves(t, actions[0]);
  }

  lemma CreatesOne(t: L.Tree<string>, a: Action, c: L.Path)
    requires t.WellFormed() && c in Perform(t, a).created
    ensures EntryOf(t, a) == [Wrote(c)] && Perform(t, a).moves == [] && c !in t.files && c !in Perform(t, a).tree.dirs
  {
    L.AboveIs(c, c);
    hide L.Tree.WellFormed, L.Above, L.Blocked, Empties, Inject, L.NothingAt, L.Moved;
    match a
    case Annotate(src, meta) => OnlyModifies(t, src, meta.(memType := ""));
    case _ =>
  }

  lemma RestOfRun(t: L.Tree<string>, actions: seq<Action>)
    requires t.WellFormed() && actions != [] && Plain(actions) && PerformAll(t, actions).ok
    ensures var e := Perform(t, actions[0]);
            && e.tree.WellFormed() && Plain(actions[1..])
            && var f := PerformAll(e.tree, actions[1..]);
               e.ok && f.ok && PerformAll(t, actions) == Then(e, f)
  {
    hide L.Tree.WellFormed, Perform, PlainAction, Conserved;
    PerformConserves(t, actions[0]);
  }

  lemma {:induction false} ClearCreated(t: L.Tree<string>, actions: seq<Action>)
    requires t.WellFormed() && Plain(actions) && PerformAll(t, actions).ok && Clear(Trace(t, actions))
    ensures var e := PerformAll(t, actions);
            forall c <- e.created :: c !in e.tree.dirs && forall p <- t.files :: L.Forward(p, e.moves) != c
    decreases |actions|
  {
    if actions != [] {
      var a, rest := actions[0], actions[1..];
      var first := Perform(t, a);
      RestOfRun(t, actions);
      PerformConserves(t, a);
      OneEntry(t, a);
      ClearTail(EntryOf(t, a), Trace(first.tree, rest));
      hide L.Tree.WellFormed, Perform, EntryOf, PlainAction, Kept, Clear, L.Forward, Trace, PerformAll;
      ClearCreated(first.tree, rest);
      var e, f := PerformAll(t, actions), PerformAll(first.tree, rest);
      forall c | c in e.created
        ensures c !in e.tree.dirs && forall p <- t.files :: L.Forward(p, e.moves) != c
      {
        if c in first.created {
          CreatedStays(t, actions, c);
        } else {
          assert c in f.created;
          forall p | p in t.files
            ensures L.Forward(p, e.moves) != c
          {
            ForwardConcat(p, first.moves, f.moves);
          }
        }
      }
    }
  }

  /** Rolling back a finished run of any actions gives back every original file at its own path, whenever the
      entries of the run do not disturb earlier ones and the modified files are still files at the end. */
  lemma ClearRunsRollBack(t: L.Tree<string>, actions: seq<Action>, archive: map<L.Path, string>)
    requires t.WellFormed() && Plain(actions) && PerformAll(t, actions).ok && Clear(Trace(t, actions))
    requires forall p <- PerformAll(t, actions).modified :: p !in PerformAll(t, actions).tree.dirs
    ensures var e := PerformAll(t, actions);
            var r := RolledBack(e.tree, e.moves, e.created, e.modified, archive);
            r.ok && forall p <- t.files :: p in r.tree.files && ComesBack(t, e, r.tree, p, archive)
  {
    hide L.Tree.WellFormed, PlainAction, Kept, Clear, L.Forward, Trace, PerformAll, RolledBack, Safe, Extras, Strays,
      Frees, Unmade;
    RunConserves(t, actions);
    ClearCreated(t, actions);
    ClearIsSafe(Trace(t, actions), PerformAll(t, actions).created);
    UnmadeRaisesNothing(PerformAll(t, actions), archive);
    SafeRunsFree(t, actions, archive);
    MigrateThenUndo(t, actions, archive);
  }

  // ---- A rollback that takes an original ------------------------------------------------------------

  /** An original file that a move put where a created file had been. */
  function Replacing(c: string, p: string, x: string, entry: string): seq<Action> {
    [Create([c], entry), MoveTo([c], [x], None), MoveTo([p], [c], None)]
  }

  /** A tree of top-level files. */
  ghost predicate Shallow(files: map<L.Path, string>) {
    forall k <- files :: |k| == 1
  }

  lemma ShallowFits(files: map<L.Path, string>)
    requires Shallow(files)
    ensures L.Tree(files, {[]}).WellFormed()
  {
    forall p, i | p in files && 0 <= i < |p|
      ensures p[..i] == []
    {
    }
  }

  lemma ShallowCreate(files: map<L.Path, string>, c: string, entry: string)
    requires Shallow(files) && [c] !in files
    ensures L.Tree(files, {[]}).WellFormed()
    ensures Perform(L.Tree(files, {[]}), Create([c], entry))
         == Skipped(L.Tree(files[[c] := entry], {[]})).(created := [[c]], steps := 1)
  {
    ShallowFits(files);
    hide L.Tree.WellFormed;
    AboveTop(c);
  }

  lemma AboveTop(c: string)
    ensures L.Above([c]) == {[]}
  {
    assert [c][..0] == [];
  }

  lemma ShallowMove(files: map<L.Path, string>, a: string, b: string)
    requires Shallow(files) && [a] in files && [b] !in files
    ensures L.Tree(files, {[]}).WellFormed()
    ensures Perform(L.Tree(files, {[]}), MoveTo([a], [b], None))
         == Skipped(L.Tree((files - {[a]})[[b] := files[[a]]], {[]})).(moves := [L.Move([a], [b])], steps := 1)
  {
    ShallowFits(files);
    AboveTop(b);
    var t := L.Tree(files, {[]});
    L.AbsentBelow(t, [b]);
    ShallowMoved(files, a, b);
    assert !L.Blocked(t, [b]) && !t.Exists([b]) && t.Exists([a]) by {
      assert [] !in files;
    }
    assert !([a] <= [b]) by {
      assert [a][0] == a && [b][0] == b;
    }
    hide L.Tree.WellFormed, L.Above, L.Moved, L.Blocked, L.NothingAt, L.Tree.Exists, Shallow;
  }

  lemma ShallowMoved(files: map<L.Path, string>, a: string, b: string)
    requires Shallow(files) && [a] in files && [b] !in files && L.NothingAt(L.Tree(files, {[]}), [b])
    ensures L.Moved(L.Tree(files, {[]}), [a], [b]) == L.Tree((files - {[a]})[[b] := files[[a]]], {[]})
  {
    AboveTop(b);
    forall k | k in files
      ensures L.Rebase(k, [a], [b]) == if k == [a] then [b] else k
    {
      assert [a] <= k ==> k == [a];
    }
    assert !([a] <= []) && L.Rebase([], [a], [b]) == [];
    hide L.Rebase, L.Above;
    assert L.RebaseFiles(files, [a], [b]) == (files - {[a]})[[b] := files[[a]]];
    assert L.RebaseDirs({[]} + {[]}, [a], [b]) == {[]};
  }

  lemma RunCons(t: L.Tree<string>, a: Action, rest: seq<Action>)
    requires t.WellFormed() && Plain([a] + rest) && Perform(t, a).ok
    ensures Perform(t, a).tree.WellFormed() && Plain(rest)
    ensures PerformAll(t, [a] + rest) == Then(Perform(t, a), PerformAll(Perform(t, a).tree, rest))
    ensures Trace(t, [a] + rest) == EntryOf(t, a) + Trace(Perform(t, a).tree, rest)
  {
    hide L.Tree.WellFormed, Perform, PlainAction, Conserved, EntryOf;
    var all := [a] + rest;
    assert all[0] == a && all[1..] == rest;
    forall b | b in rest
      ensures PlainAction(b)
    {
      assert b in all;
    }
    PerformConserves(t, a);
  }

  lemma ReplacingRuns(c: string, p: string, x: string, text: string, entry: string)
    requires c != p && c != x && p != x
    ensures var t, actions := L.Tree(map[[p] := text], {[]}), Replacing(c, p, x, entry);
            && t.WellFormed() && Plain(actions)
            && Trace(t, actions) == [Wrote([c]), Went(L.Move([c], [x])), Went(L.Move([p], [c]))]
            && var e := PerformAll(t, actions);
               && e.ok && e.tree.dirs == {[]} && e.moves == [L.Move([c], [x]), L.Move([p], [c])]
               && e.created == [[c]] && e.modified == []
  {
    var f0: map<L.Path, string> := map[[p] := text];
    var f1 := f0[[c] := entry];
    var f2 := (f1 - {[c]})[[x] := entry];
    var f3 := (f2 - {[p]})[[c] := text];
    var a1, a2, a3 := Create([c], entry), MoveTo([c], [x], None), MoveTo([p], [c], None);
    assert Replacing(c, p, x, entry) == [a1] + ([a2] + ([a3] + []));
    ShallowCreate(f0, c, entry);
    ShallowMove(f1, c, x);
    ShallowMove(f2, p, c);
    ShallowFits(f3);
    hide Perform, L.Tree.WellFormed;
    assert Plain([a3] + []) && Plain([a2] + ([a3] + [])) && Plain([a1] + ([a2] + ([a3] + [])));
    RunCons(L.Tree(f0, {[]}), a1, [a2] + ([a3] + []));
    RunCons(L.Tree(f1, {[]}), a2, [a3] + []);
    RunCons(L.Tree(f2, {[]}), a3, []);
  }

  lemma ReplacingIsSafe(c: string, p: string, x: string)
    requires c != p && c != x && p != x
    ensures Safe([Wrote([c]), Went(L.Move([c], [x])), Went(L.Move([p], [c]))], [[c]])
  {
    var e1, e2, e3 := Wrote([c]), Went(L.Move([c], [x])), Went(L.Move([p], [c]));
    var two, last := [e2, e3], [e3];
    assert last[1..] == [] && two[1..] == last && [e1, e2, e3][1..] == two;
    AboveTop(c);
    NothingTraced([[c]]);
    hide L.Above;
    assert Extras(last) == L.Above([c]) + L.RebaseDirs(Extras([]), [c], [p]);
    assert Strays(last, [[c]]) == L.RebaseDirs(Strays([], [[c]]), [c], [p]);
    assert L.RebaseDirs({}, [c], [p]) == {};
    assert Safe([], [[c]]);
    assert Safe(last, [[c]]);
    assert Safe(two, [[c]]);
  }

  /** The first step of the rollback can unlink an original file: here a created file is moved on, and an
      original is moved to where it had been.  Nothing raises, and the original is gone. */
  lemma OriginalIsUnlinked(c: string, p: string, x: string, text: string, entry: string, archive: map<L.Path, string>)
    requires c != p && c != x && p != x
    ensures var t, actions := L.Tree(map[[p] := text], {[]}), Replacing(c, p, x, entry);
            && t.WellFormed() && Plain(actions)
            && var e := PerformAll(t, actions);
               var r := RolledBack(e.tree, e.moves, e.created, e.modified, archive);
               e.ok && r.ok && [p] in t.files && [p] !in r.tree.files
  {
    var t, actions := L.Tree(map[[p] := text], {[]}), Replacing(c, p, x, entry);
    ReplacingRuns(c, p, x, text, entry);
    ReplacingIsSafe(c, p, x);
    hide PerformAll, RolledBack, Trace, Safe, Replacing, L.Tree.WellFormed, Kept, Strays, Extras, Frees, Unmade;
    RunConserves(t, actions);
    UnmadeRaisesNothing(PerformAll(t, actions), archive);
    SafeRunsFree(t, actions, archive);
    MigrateThenUndo(t, actions, archive);
    ReplacingLands(c, p, x);
  }

  lemma ReplacingLands(c: string, p: string, x: string)
    requires c != p && c != x && p != x
    ensures L.Forward([p], [L.Move([c], [x]), L.Move([p], [c])]) == [c]
  {
    var log := [L.Move([c], [x]), L.Move([p], [c])];
    assert log[1..] == [L.Move([p], [c])] && log[1..][1..] == [];
    assert [c][0] == c && [p][0] == p;
    assert !([c] <= [p]) && L.Rebase([p], [c], [x]) == [p];
    assert L.Rebase([p], [p], [c]) == [c];
    hide L.Rebase;
    assert L.Forward([p], log) == L.Forward([p], log[1..]);
    assert L.Forward([p], log[1..]) == L.Forward([c], []);
  }
}
