/** The memory-split migration over its three directories (scripts/migrate-memory-split.py,
    `detect_state`, `run_invariants`, `do_rollback`, `plan_and_execute`, `_main_impl`).

    A directory is a map from the stem of each `.md` file to its text.  Every change to a file goes
    through one of the primitive methods of `Pool`, which append it to a log, so that a crash is a
    prefix of the log.
 */
module MemorySplit {
  import opened Text
  import opened MemoryFront
  import opened MemoryLinks
  import opened LinkRewriting
  import opened Newlines

  type Dir = map<string, string>

  /** The adjudication of one memory. */
  datatype Final = Lives(layer: Layer) | Deleted

  type Tsv = map<string, Final>

  datatype Manifest = Manifest(owned: set<string>, foreign: set<string>, tsvHash: string)

  /** A backup directory; its manifest is absent while step 1 is unfinished. */
  datatype Backup = Backup(files: Dir, manifest: Option<Manifest>)

  datatype World = World(memory: Dir, user: Dir, backup: Option<Backup>)

  const MERGE_SOURCE := "wechat_mp_history_tracking_workaround"
  const MERGE_TARGET := "wechat_mp_draft_period_tracking"
  const DELETED_PLAIN := {"placeholder_check", "tmp_view_placeholder"}

  // ---- Single file operations -------------------------------------------------------------------

  datatype Op =
    | WriteFile(layer: Layer, name: string, text: string)
    | RemoveFile(layer: Layer, name: string)
    | DropBackup

  function Step(w: World, op: Op): World {
    match op
    case WriteFile(Agent, name, text) => w.(memory := w.memory[name := text])
    case WriteFile(User, name, text) => w.(user := w.user[name := text])
    case RemoveFile(Agent, name) => w.(memory := w.memory - {name})
    case RemoveFile(User, name) => w.(user := w.user - {name})
    case DropBackup => w.(backup := None)
  }

  function Replay(w: World, ops: seq<Op>): World {
    if ops == [] then w else Step(Replay(w, ops[..|ops| - 1]), ops[|ops| - 1])
  }

  /** The operation touches a file the migration owns, and not the backup. */
  predicate OnOwned(op: Op, owned: set<string>) {
    !op.DropBackup? && op.name in owned
  }

  // ---- Crash and rollback -------------------------------------------------------------------------

  /** `w` can still be rolled back to `start`: the backup is intact and only owned files differ. */
  ghost predicate Recoverable(w: World, start: World, owned: set<string>) {
    && start.memory.Keys == owned && start.user.Keys !! owned
    && w.backup.Some? && w.backup.value.files == start.memory
    && w.backup.value.manifest.Some? && w.backup.value.manifest.value.owned == owned
    && w.memory.Keys <= owned
    && w.user - owned == start.user
  }

  /** What `do_rollback` leaves when the backup is complete. */
  function RolledBack(w: World): World
    requires w.backup.Some? && w.backup.value.manifest.Some?
  {
    var owned := w.backup.value.manifest.value.owned;
    World((w.memory - owned) + w.backup.value.files, w.user - owned, None)
  }

  /** A write cut short leaves any text at all in the file it was writing. */
  ghost predicate TornFrom(torn: Op, op: Op) {
    torn == op || (op.WriteFile? && torn.WriteFile? && torn.layer == op.layer && torn.name == op.name)
  }

  lemma {:induction false} OwnedOpsRecoverable(start: World, w: World, ops: seq<Op>, owned: set<string>)
    requires Recoverable(w, start, owned)
    requires forall op <- ops :: OnOwned(op, owned)
    ensures Recoverable(Replay(w, ops), start, owned)
  {
    if ops != [] {
      var n := |ops| - 1;
      OwnedOpsRecoverable(start, w, ops[..n], owned);
      var before, after := Replay(w, ops[..n]), Replay(w, ops);
      assert OnOwned(ops[n], owned);
      assert after.user - owned == before.user - owned;
    }
  }

  /** A backup that rollback accepts: a manifest, and exactly the files it owns. */
  predicate Complete(backup: Backup) {
    backup.manifest.Some? && backup.files.Keys == backup.manifest.value.owned
  }

  /** The rollback is accepted and gives back the world before the run. */
  ghost predicate RolledBackFrom(w: World, start: World) {
    && w.backup.Some? && Complete(w.backup.value)
    && RolledBack(w) == World(start.memory, start.user, None)
  }

  lemma RecoverableRollsBack(w: World, start: World, owned: set<string>)
    requires Recoverable(w, start, owned)
    ensures RolledBackFrom(w, start)
  {
    assert w.memory - owned == map[];
    assert RolledBack(w).memory == start.memory;
  }

  // ---- The plan, from the pool alone ----------------------------------------------------------------

  function Surviving(tsv: Tsv): map<string, Layer> {
    map name | name in tsv && tsv[name].Lives? :: tsv[name].layer
  }

  /** The deletions this script implements. */
  predicate Adjudicated(tsv: Tsv) {
    && (forall name <- tsv | tsv[name].Deleted? :: name in DELETED_PLAIN || name == MERGE_SOURCE)
    && (MERGE_SOURCE in tsv && tsv[MERGE_SOURCE].Deleted? ==> MERGE_TARGET in tsv && tsv[MERGE_TARGET].Lives?)
  }

  predicate Merges(tsv: Tsv) {
    MERGE_SOURCE in tsv && tsv[MERGE_SOURCE].Deleted?
  }

  predicate HasFront(text: string) {
    SplitFront(text).Front?
  }

  /** Everything one run is told besides the files. */
  datatype Job = Job(tsv: Tsv, fqid: string, uuid: string, date: string)

  function NormalText(job: Job, pool: Dir, name: string): string
    requires name in pool && name in job.tsv && job.tsv[name].Lives?
  {
    match Normalized(pool[name], job.tsv[name].layer, job.fqid)
    case Some(text) => text
    case None => pool[name]
  }

  /** The texts after dispatch. */
  function Dispatched(job: Job, pool: Dir): Dir
    requires pool.Keys == job.tsv.Keys
  {
    map name | name in job.tsv && job.tsv[name].Lives? :: NormalText(job, pool, name)
  }

  /** The workaround's body under a dated heading. */
  function MergeSuffix(target: string, source: string, date: string): string {
    var heading := "## 历史：旧版 workaround（" + date + " 迁移并入）";
    (if EndsWith(target, "\n") then "" else "\n") + "\n" + heading + "\n\n" + Trim(BodyOf(source), IsNewline) + "\n"
  }

  /** The texts after the merge. */
  function AfterMerge(job: Job, pool: Dir): Dir
    requires pool.Keys == job.tsv.Keys && Adjudicated(job.tsv)
  {
    var content := Dispatched(job, pool);
    if Merges(job.tsv) then
      var target := content[MERGE_TARGET];
      content[MERGE_TARGET := target + MergeSuffix(target, pool[MERGE_SOURCE], job.date)]
    else content
  }

  function ViewOf(job: Job, name: string): View
    requires name in job.tsv && job.tsv[name].Lives?
  {
    View(job.tsv[name].layer, Surviving(job.tsv), job.date)
  }

  /** The final text of every survivor. */
  function Planned(job: Job, pool: Dir): Dir
    requires pool.Keys == job.tsv.Keys && Adjudicated(job.tsv)
  {
    var content := AfterMerge(job, pool);
    map name | name in content :: Rewritten(content[name], ViewOf(job, name))
  }

  function InLayer(tsv: Tsv, texts: Dir, layer: Layer): Dir {
    map name | name in texts && name in tsv && tsv[name] == Lives(layer) :: texts[name]
  }

  // ---- The report ---------------------------------------------------------------------------------

  datatype Entry = Entry(name: string, kind: string, detail: string)

  datatype Counts = Counts(
    agentStay: nat, userMove: nat, deletePlain: nat, merge: nat,
    fmNormalized: nat, linksRewritten: nat, deadDelinked: nat)

  datatype Report = Report(counts: Counts, dead: seq<(string, string)>, rewrites: seq<Entry>)

  const NO_REPORT := Report(Counts(0, 0, 0, 0, 0, 0, 0), [], [])

  /** What dispatching one name adds to the report. */
  function ReportDispatch(job: Job, pool: Dir, name: string, r: Report): Report
    requires pool.Keys == job.tsv.Keys && name in pool
  {
    match job.tsv[name]
    case Lives(Agent) =>
      var counts := r.counts.(agentStay := r.counts.agentStay + 1);
      if NormalText(job, pool, name) != pool[name] then
        r.(counts := counts.(fmNormalized := counts.fmNormalized + 1),
           rewrites := r.rewrites + [Entry(name, "frontmatter", "scope/user_id normalized")])
      else r.(counts := counts)
    case Lives(User) =>
      r.(counts := r.counts.(userMove := r.counts.userMove + 1, fmNormalized := r.counts.fmNormalized + 1),
         rewrites := r.rewrites + [Entry(name, "move", "memory/ -> users/" + job.uuid + "/memory/")])
    case Deleted =>
      if name == MERGE_SOURCE then r
      else
        r.(counts := r.counts.(deletePlain := r.counts.deletePlain + 1),
           rewrites := r.rewrites + [Entry(name, "delete", "plain")])
  }

  function ReportMerge(job: Job, r: Report): Report {
    if Merges(job.tsv) then
      r.(counts := r.counts.(merge := r.counts.merge + 1),
         rewrites := r.rewrites + [Entry(MERGE_SOURCE, "merge", "body appended to " + MERGE_TARGET + ".md")])
    else r
  }

  function LinkEntries(name: string, links: seq<(string, string)>): seq<Entry> {
    seq(|links|, i requires 0 <= i < |links| => Entry(name, "link", links[i].0 + " -> " + links[i].1))
  }

  function DeadEntries(name: string, dead: seq<string>): seq<(string, string)> {
    seq(|dead|, i requires 0 <= i < |dead| => (name, dead[i]))
  }

  function ReportLinks(name: string, links: seq<(string, string)>, dead: seq<string>, r: Report): Report {
    Report(
      r.counts.(linksRewritten := r.counts.linksRewritten + |links|, deadDelinked := r.counts.deadDelinked + |dead|),
      r.dead + DeadEntries(name, dead),
      r.rewrites + LinkEntries(name, links))
  }

  function DispatchReport(job: Job, pool: Dir, names: seq<string>): Report
    requires pool.Keys == job.tsv.Keys && forall name <- names :: name in pool
  {
    if names == [] then NO_REPORT
    else var n := |names| - 1; ReportDispatch(job, pool, names[n], DispatchReport(job, pool, names[..n]))
  }

  /** The link reports of the survivors among `names`, on top of `r`. */
  function LinkReport(job: Job, content: Dir, names: seq<string>, r: Report): Report
    requires content.Keys == Surviving(job.tsv).Keys
  {
    if names == [] then r
    else
      var n := |names| - 1;
      var before := LinkReport(job, content, names[..n], r);
      var name := names[n];
      if name in content then
        var ls := Lines(BodyOf(content[name]));
        var v := ViewOf(job, name);
        ReportLinks(name, LineRewrites(ls, v), LineDead(ls, v), before)
      else before
  }

  /** The whole report of a run over the names in the given order. */
  function PlannedReport(job: Job, pool: Dir, names: seq<string>): Report
    requires pool.Keys == job.tsv.Keys && Adjudicated(job.tsv) && forall name <- names :: name in pool
  {
    var dispatched := ReportMerge(job, DispatchReport(job, pool, names));
    LinkReport(job, AfterMerge(job, pool), names, dispatched)
  }

  // ---- The directories while a run goes on ------------------------------------------------------------

  ghost predicate Prechecked(w: World, job: Job) {
    w.memory.Keys == job.tsv.Keys && w.user.Keys !! job.tsv.Keys && Adjudicated(job.tsv)
  }

  /** `names` lists every adjudicated name once, as `sorted(final_by_name)` does. */
  ghost predicate Enumerates(names: seq<string>, tsv: Tsv) {
    && (forall i, j | 0 <= i < j < |names| :: names[i] != names[j])
    && (forall name :: name in names <==> name in tsv)
  }

  /** A name that dispatch takes out of memory/. */
  predicate LeavesMemory(tsv: Tsv, name: string) {
    name in tsv && (tsv[name] == Lives(User) || (tsv[name].Deleted? && name != MERGE_SOURCE))
  }

  /** memory/ once the names of `done` are dispatched. */
  ghost function MemoryAt(job: Job, pool: Dir, done: set<string>): Dir
    requires pool.Keys == job.tsv.Keys
  {
    map name | name in pool && !(name in done && LeavesMemory(job.tsv, name)) ::
      if name in done && job.tsv[name] == Lives(Agent) then NormalText(job, pool, name) else pool[name]
  }

  /** The user layer once the names of `done` are dispatched. */
  ghost function UserAt(job: Job, pool: Dir, user: Dir, done: set<string>): Dir
    requires pool.Keys == job.tsv.Keys
  {
    user + map name | name in done && name in job.tsv && job.tsv[name] == Lives(User) :: NormalText(job, pool, name)
  }

  ghost function ContentAt(job: Job, pool: Dir, done: set<string>): Dir
    requires pool.Keys == job.tsv.Keys
  {
    map name | name in done && name in job.tsv && job.tsv[name].Lives? :: NormalText(job, pool, name)
  }

  ghost function Done(names: seq<string>, i: nat): set<string>
    requires i <= |names|
  {
    set name | name in names[..i]
  }

  /** Every survivor is in at least one layer. */
  ghost predicate Held(w: World, tsv: Tsv) {
    forall name <- tsv | tsv[name].Lives? :: name in w.memory || name in w.user
  }

  /** The two layers holding `texts`, next to the foreign user files. */
  ghost function Placed(job: Job, was: World, texts: Dir): World {
    World(InLayer(job.tsv, texts, Agent), was.user + InLayer(job.tsv, texts, User), was.backup)
  }

  lemma PlacedWrite(job: Job, was: World, texts: Dir, name: string, text: string)
    requires name in texts && name in job.tsv && job.tsv[name].Lives?
    ensures Placed(job, was, texts[name := text])
            == Step(Placed(job, was, texts), WriteFile(job.tsv[name].layer, name, text))
    ensures var w := Placed(job, was, texts);
            var dir := if job.tsv[name].layer == Agent then w.memory else w.user;
            name in dir && dir[name] == texts[name]
  {
    InLayerWrite(job.tsv, texts, name, text, Agent);
    InLayerWrite(job.tsv, texts, name, text, User);
    hide InLayer;
    match job.tsv[name].layer
    case Agent =>
    case User => assert was.user + InLayer(job.tsv, texts, User)[name := text]
        == (was.user + InLayer(job.tsv, texts, User))[name := text];
  }

  lemma InLayerWrite(tsv: Tsv, texts: Dir, name: string, text: string, layer: Layer)
    requires name in texts && name in tsv && tsv[name].Lives?
    ensures InLayer(tsv, texts[name := text], layer) ==
              if tsv[name].layer == layer then InLayer(tsv, texts, layer)[name := text] else InLayer(tsv, texts, layer)
    ensures tsv[name].layer == layer ==>
            name in InLayer(tsv, texts, layer) && InLayer(tsv, texts, layer)[name] == texts[name]
  {
  }

  lemma UserDispatched(job: Job, pool: Dir, user: Dir)
    requires pool.Keys == job.tsv.Keys
    ensures UserAt(job, pool, user, job.tsv.Keys) == user + InLayer(job.tsv, Dispatched(job, pool), User)
  {
    hide NormalText;
    assert InLayer(job.tsv, Dispatched(job, pool), User)
        == map name | name in job.tsv.Keys && name in job.tsv && job.tsv[name] == Lives(User) ::
            NormalText(job, pool, name);
  }

  lemma MemoryDispatched(job: Job, pool: Dir)
    requires pool.Keys == job.tsv.Keys
    ensures var memory := MemoryAt(job, pool, job.tsv.Keys);
            && memory - {MERGE_SOURCE} == InLayer(job.tsv, Dispatched(job, pool), Agent) - {MERGE_SOURCE}
            && (MERGE_SOURCE in memory <==> MERGE_SOURCE in job.tsv && job.tsv[MERGE_SOURCE] != Lives(User))
            && (Merges(job.tsv) ==> memory[MERGE_SOURCE] == pool[MERGE_SOURCE])
            && (MERGE_SOURCE in memory && !Merges(job.tsv) ==>
                memory[MERGE_SOURCE] == NormalText(job, pool, MERGE_SOURCE))
  {
    hide NormalText;
    var memory := MemoryAt(job, pool, job.tsv.Keys);
    var placed := InLayer(job.tsv, Dispatched(job, pool), Agent);
    forall name | name in pool
      ensures LeavesMemory(job.tsv, name) || job.tsv[name] == Lives(Agent) || (name == MERGE_SOURCE && Merges(job.tsv))
    {
      match job.tsv[name]
      case Lives(Agent) =>
      case Lives(User) =>
      case Deleted =>
    }
  }

  /** When everything is dispatched, only the merge source is left over in memory/. */
  lemma AllDispatched(job: Job, was: World)
    requires was.memory.Keys == job.tsv.Keys && Adjudicated(job.tsv)
    ensures ContentAt(job, was.memory, job.tsv.Keys) == Dispatched(job, was.memory)
    ensures var w := WorldAt(job, was, job.tsv.Keys);
            var placed := Placed(job, was, Dispatched(job, was.memory));
            && w.user == placed.user && w.backup == placed.backup
            && (Merges(job.tsv) ==>
                  MERGE_SOURCE in w.memory && w.memory[MERGE_SOURCE] == was.memory[MERGE_SOURCE]
                  && w.memory - {MERGE_SOURCE} == placed.memory)
            && (!Merges(job.tsv) ==> w == placed)
  {
    hide NormalText, MemoryAt, UserAt;
    UserDispatched(job, was.memory, was.user);
    MemoryDispatched(job, was.memory);
    var memory := MemoryAt(job, was.memory, job.tsv.Keys);
    var placed := InLayer(job.tsv, Dispatched(job, was.memory), Agent);
    if Merges(job.tsv) {
      assert placed - {MERGE_SOURCE} == placed;
    } else {
      if MERGE_SOURCE in job.tsv {
        match job.tsv[MERGE_SOURCE]
        case Lives(Agent) =>
        case Lives(User) =>
        case Deleted =>
      }
      SameBut(memory, placed, MERGE_SOURCE);
    }
  }

  lemma SameBut(a: Dir, b: Dir, name: string)
    requires a - {name} == b - {name}
    requires name in a <==> name in b
    requires name in a ==> a[name] == b[name]
    ensures a == b
  {
    assert forall n :: n in a <==> n in a - {name} || (n == name && name in a);
    assert forall n :: n in b <==> n in b - {name} || (n == name && name in b);
    forall n | n in a
      ensures n in b && a[n] == b[n]
    {
      if n != name {
        assert (a - {name})[n] == a[n] && (b - {name})[n] == b[n];
      }
    }
  }

  /** The texts once the links of `done` are rewritten. */
  ghost function LinkedAt(job: Job, texts: Dir, done: set<string>): Dir
    requires texts.Keys == Surviving(job.tsv).Keys
  {
    map name | name in texts :: if name in done then Rewritten(texts[name], ViewOf(job, name)) else texts[name]
  }

  /** Every survivor has a front matter block, so that normalising it does not abort. */
  predicate Runnable(job: Job, pool: Dir)
    requires pool.Keys == job.tsv.Keys
  {
    forall name <- job.tsv | job.tsv[name].Lives? :: HasFront(pool[name])
  }

  lemma DoneStep(names: seq<string>, i: nat, tsv: Tsv)
    requires Enumerates(names, tsv) && i < |names|
    ensures Done(names, i + 1) == Done(names, i) + {names[i]}
    ensures names[i] !in Done(names, i) && names[i] in tsv
    ensures names[..i + 1][..i] == names[..i] && names[..i + 1][i] == names[i]
  {
    assert names[i] in names;
    assert names[..i + 1] == names[..i] + [names[i]];
  }

  lemma DoneAll(names: seq<string>, tsv: Tsv)
    requires Enumerates(names, tsv)
    ensures Done(names, 0) == {} && Done(names, |names|) == tsv.Keys && names[..|names|] == names
  {
    assert names[..|names|] == names;
  }

  lemma LinkedStep(job: Job, texts: Dir, done: set<string>, name: string)
    requires texts.Keys == Surviving(job.tsv).Keys && name !in done
    ensures name in texts ==>
      LinkedAt(job, texts, done)[name] == texts[name]
      && LinkedAt(job, texts, done + {name})
          == LinkedAt(job, texts, done)[name := Rewritten(texts[name], ViewOf(job, name))]
    ensures name !in texts ==> LinkedAt(job, texts, done + {name}) == LinkedAt(job, texts, done)
    ensures LinkedAt(job, texts, done).Keys == texts.Keys
  {
    hide Rewritten;
  }

  lemma LinkedEnds(job: Job, pool: Dir)
    requires pool.Keys == job.tsv.Keys && Adjudicated(job.tsv)
    ensures AfterMerge(job, pool).Keys == Surviving(job.tsv).Keys
    ensures LinkedAt(job, AfterMerge(job, pool), {}) == AfterMerge(job, pool)
    ensures LinkedAt(job, AfterMerge(job, pool), job.tsv.Keys) == Planned(job, pool)
  {
    hide Rewritten, NormalText, MergeSuffix;
  }

  // ---- State detection and invariants -------------------------------------------------------------

  datatype Detected = Fresh | Migrated | Partial

  function NamesIn(tsv: Tsv, final: Final): set<string> {
    set name | name in tsv && tsv[name] == final
  }

  /** `detect_state`; the TSV hash is checked only when it is given. */
  function DetectState(tsv: Tsv, w: World, hash: Option<string>): Detected {
    match w.backup
    case None => Fresh
    case Some(backup) =>
      match backup.manifest
      case None => Partial
      case Some(manifest) =>
        if && manifest.owned == tsv.Keys
           && (hash.Some? ==> manifest.tsvHash == hash.value)
           && w.memory.Keys == NamesIn(tsv, Lives(Agent))
           && w.user.Keys == NamesIn(tsv, Lives(User)) + manifest.foreign
           && NamesIn(tsv, Deleted) !! w.memory.Keys + w.user.Keys
        then Migrated else Partial
  }

  /** Every file on disk with its layer; a user file hides an agent file of the same name. */
  function Inventory(w: World): map<string, Layer> {
    (map name | name in w.memory :: Agent) + (map name | name in w.user :: User)
  }

  predicate CountsConserved(tsv: Tsv, w: World, preCount: nat, manifest: Manifest) {
    && |tsv| == preCount
    && w.memory.Keys == NamesIn(tsv, Lives(Agent))
    && NamesIn(tsv, Lives(User)) <= w.user.Keys
    && NamesIn(tsv, Deleted) !! w.memory.Keys + w.user.Keys
    && w.user.Keys - NamesIn(tsv, Lives(User)) == manifest.foreign
  }

  predicate FilesResolve(tsv: Tsv, files: Dir, layer: Layer, inventory: map<string, Layer>) {
    forall name <- files | name in tsv :: DanglingHrefs(Scan(BodyOf(files[name])), layer, inventory) == []
  }

  predicate AllAttributed(tsv: Tsv, w: World, fqid: string) {
    && (forall name <- w.memory :: Attributed(FieldsOf(w.memory[name]), Agent, fqid))
    && (forall name <- w.user | name in tsv :: Attributed(FieldsOf(w.user[name]), User, fqid))
  }

  /** `run_invariants`: the four absolute invariants. */
  predicate InvariantsHold(tsv: Tsv, w: World, preCount: nat, fqid: string) {
    && w.backup.Some? && w.backup.value.manifest.Some?
    && CountsConserved(tsv, w, preCount, w.backup.value.manifest.value)
    && FilesResolve(tsv, w.memory, Agent, Inventory(w)) && FilesResolve(tsv, w.user, User, Inventory(w))
    && AllAttributed(tsv, w, fqid)
    && DetectState(tsv, w, None) == Migrated
  }

  // ---- When a completed run passes -----------------------------------------------------------------

  /** What a survivor's final text is made of: its own text, and for the merge target what is appended. */
  function Origin(job: Job, pool: Dir, name: string): string
    requires pool.Keys == job.tsv.Keys && Adjudicated(job.tsv) && name in job.tsv && job.tsv[name].Lives?
  {
    if Merges(job.tsv) && name == MERGE_TARGET then
      pool[name] + MergeSuffix(NormalText(job, pool, name), pool[MERGE_SOURCE], job.date)
    else pool[name]
  }

  /** Where the names will be: the survivors in their layers, next to the foreign user files. */
  function FinalInventory(job: Job, was: World): map<string, Layer> {
    (map name | name in was.user :: User) + Surviving(job.tsv)
  }

  /** What the pool must satisfy, for one survivor, for the checks after the run to pass: its source can
      be attributed, and the links that only its rewritten text makes resolve. */
  predicate Sound(job: Job, was: World, name: string)
    requires was.memory.Keys == job.tsv.Keys && Adjudicated(job.tsv) && name in job.tsv && job.tsv[name].Lives?
    requires HasFront(Origin(job, was.memory, name))
  {
    var layer := job.tsv[name].layer;
    var body := BodyOf(AfterMerge(job, was.memory)[name]);
    && Attributable(SplitFront(Origin(job, was.memory, name)), layer, job.fqid)
    && forall t <- LooseLinks(RewrittenTokens(body, ViewOf(job, name))) ::
        !Dangles(t.href, layer, FinalInventory(job, was))
  }

  ghost predicate AllSound(job: Job, was: World)
    requires was.memory.Keys == job.tsv.Keys && Adjudicated(job.tsv)
  {
    forall name <- job.tsv | job.tsv[name].Lives? :: HasFront(Origin(job, was.memory, name)) && Sound(job, was, name)
  }

  /** What is known of the arguments of a run: the operator id is canonical and the date an ISO date.
      The names of the survivors are trimmed, and no href gives them a layer. */
  ghost predicate WellNamed(job: Job) {
    OperatorId(job.fqid) && IsoDate(job.date) && LinkNames(Surviving(job.tsv))
  }

  lemma InLayerNames(tsv: Tsv, texts: Dir, layer: Layer)
    requires texts.Keys == Surviving(tsv).Keys
    ensures InLayer(tsv, texts, layer).Keys == NamesIn(tsv, Lives(layer))
  {
    assert forall name :: name in Surviving(tsv).Keys <==> name in tsv && tsv[name].Lives?;
    assert forall name :: name in InLayer(tsv, texts, layer).Keys <==>
        name in texts.Keys && name in tsv && tsv[name] == Lives(layer);
  }

  lemma FinalsApart(tsv: Tsv)
    ensures NamesIn(tsv, Deleted) !! NamesIn(tsv, Lives(Agent)) + NamesIn(tsv, Lives(User))
    ensures NamesIn(tsv, Lives(Agent)) !! NamesIn(tsv, Lives(User))
    ensures NamesIn(tsv, Deleted) <= tsv.Keys && NamesIn(tsv, Lives(User)) <= tsv.Keys &&
            NamesIn(tsv, Lives(Agent)) <= tsv.Keys
    ensures Surviving(tsv).Keys <= tsv.Keys
    ensures forall name :: name in Surviving(tsv).Keys ==> name in NamesIn(tsv, Lives(tsv[name].layer))
  {
  }

  lemma InventoryIs(w: World, agent: set<string>, user: set<string>)
    requires w.memory.Keys == agent && user <= w.user.Keys && agent !! w.user.Keys
    ensures forall name <- agent :: name in Inventory(w) && Inventory(w)[name] == Agent
    ensures forall name <- user :: name in Inventory(w) && Inventory(w)[name] == User
  {
  }

  lemma NamesAfterRun(job: Job, was: World)
    requires Prechecked(was, job)
    ensures var w := Placed(job, was, Planned(job, was.memory));
            && w.memory.Keys == NamesIn(job.tsv, Lives(Agent))
            && w.user.Keys == NamesIn(job.tsv, Lives(User)) + was.user.Keys
            && NamesIn(job.tsv, Deleted) !! w.memory.Keys + w.user.Keys
            && w.user.Keys - NamesIn(job.tsv, Lives(User)) == was.user.Keys
            && (forall name <- Surviving(job.tsv) :: name in Inventory(w) && Inventory(w)[name] == job.tsv[name].layer)
  {
    hide Planned, AfterMerge, Adjudicated, InLayer, Inventory, NamesIn, Placed, Surviving, LinkedAt;
    LinkedEnds(job, was.memory);
    PlannedNames(job, was.memory);
    PlacedNames(job, was, Planned(job, was.memory));
    FinalsApart(job.tsv);
    var agent, user := NamesIn(job.tsv, Lives(Agent)), NamesIn(job.tsv, Lives(User));
    SurvivorsListed(job.tsv, Placed(job, was, Planned(job, was.memory)));
  }

  /** `copied` holds the files of `dir` but for those still to do. */
  ghost predicate Copied(dir: Dir, copied: Dir, todo: set<string>) {
    copied.Keys == dir.Keys - todo && forall name <- copied :: copied[name] == dir[name]
  }

  lemma NoneCopied(dir: Dir)
    ensures Copied(dir, map[], dir.Keys)
  {
  }

  lemma CopiedOne(dir: Dir, copied: Dir, todo: set<string>, name: string)
    requires Copied(dir, copied, todo) && todo <= dir.Keys && name in todo
    ensures Copied(dir, copied[name := dir[name]], todo - {name})
  {
  }

  lemma AllCopied(dir: Dir, copied: Dir)
    requires Copied(dir, copied, {})
    ensures copied == dir
  {
  }

  lemma ApartDifference(a: set<string>, b: set<string>)
    requires a !! b
    ensures a - b == a
  {
  }

  lemma SurvivorsListed(tsv: Tsv, w: World)
    requires w.memory.Keys == NamesIn(tsv, Lives(Agent)) && NamesIn(tsv, Lives(User)) <= w.user.Keys
    requires NamesIn(tsv, Lives(Agent)) !! w.user.Keys
    ensures forall name <- Surviving(tsv) :: name in Inventory(w) && Inventory(w)[name] == tsv[name].layer
  {
    hide Inventory;
    InventoryIs(w, NamesIn(tsv, Lives(Agent)), NamesIn(tsv, Lives(User)));
    forall name | name in Surviving(tsv)
      ensures name in Inventory(w) && Inventory(w)[name] == tsv[name].layer
    {
      assert name in Surviving(tsv).Keys && tsv[name].Lives?;
      match tsv[name].layer {
        case Agent => assert name in NamesIn(tsv, Lives(Agent));
        case User => assert name in NamesIn(tsv, Lives(User));
      }
    }
  }

  lemma PlacedNames(job: Job, was: World, texts: Dir)
    requires texts.Keys == Surviving(job.tsv).Keys
    ensures Placed(job, was, texts).memory.Keys == NamesIn(job.tsv, Lives(Agent))
    ensures Placed(job, was, texts).user.Keys == NamesIn(job.tsv, Lives(User)) + was.user.Keys
  {
    InLayerNames(job.tsv, texts, Agent);
    InLayerNames(job.tsv, texts, User);
    hide InLayer, NamesIn, Surviving;
  }

  lemma PlannedNames(job: Job, pool: Dir)
    requires pool.Keys == job.tsv.Keys && Adjudicated(job.tsv)
    ensures Planned(job, pool).Keys == AfterMerge(job, pool).Keys
  {
    hide Rewritten, AfterMerge, Adjudicated;
  }

  /** Merging is normalising the longer source. */
  lemma MergedIsNormalized(job: Job, pool: Dir, name: string)
    requires pool.Keys == job.tsv.Keys && Adjudicated(job.tsv) && Runnable(job, pool)
    requires name in job.tsv && job.tsv[name].Lives?
    ensures HasFront(Origin(job, pool, name)) && name in AfterMerge(job, pool)
    ensures Normalized(Origin(job, pool, name), job.tsv[name].layer, job.fqid) == Some(AfterMerge(job, pool)[name])
  {
    hide Normalized, SplitFront, NormalText, MergeSuffix;
    assert HasFront(pool[name]);
    NormalizedNeedsFront(pool[name], job.tsv[name].layer, job.fqid);
    NormalTextIs(job, pool, name);
    if Merges(job.tsv) && name == MERGE_TARGET {
      var normal := NormalText(job, pool, name);
      MergeStartsLine(normal, pool[MERGE_SOURCE], job.date);
      NormalizedAppend(pool[name], MergeSuffix(normal, pool[MERGE_SOURCE], job.date), job.tsv[name].layer, job.fqid);
    }
  }

  /** What a survivor ends with, whatever merging and link rewriting did to its body: the normalised
      fields, which attribute it exactly when its source is attributable, and the rewritten body. */
  lemma FieldsAfterRun(job: Job, pool: Dir, name: string)
    requires pool.Keys == job.tsv.Keys && Adjudicated(job.tsv) && Runnable(job, pool)
    requires OperatorId(job.fqid) && IsoDate(job.date) && name in job.tsv && job.tsv[name].Lives?
    ensures name in AfterMerge(job, pool) && name in Planned(job, pool) && HasFront(Origin(job, pool, name))
    ensures var text, merged := Planned(job, pool)[name], AfterMerge(job, pool)[name];
            && FieldsOf(text) == FieldsOf(merged) && BodyOf(text) == RewriteBody(BodyOf(merged), ViewOf(job, name))
            && (Attributed(FieldsOf(text), job.tsv[name].layer, job.fqid)
                <==> Attributable(SplitFront(Origin(job, pool, name)), job.tsv[name].layer, job.fqid))
  {
    hide AfterMerge, Origin, Attributed, Attributable, Normalized, OperatorId, IsoDate, RewriteBody, Rewritten,
      SplitFront, Adjudicated, FieldsOf, BodyOf;
    MergedIsNormalized(job, pool, name);
    AttributedIff(Origin(job, pool, name), job.tsv[name].layer, job.fqid);
    RewrittenFields(AfterMerge(job, pool)[name], ViewOf(job, name));
  }

  /** A survivor keeps every other field it had, in order, and its body but for the links, when its
      attribution lines end in newlines. */
  lemma OtherFieldsAfterRun(job: Job, pool: Dir, name: string)
    requires pool.Keys == job.tsv.Keys && Adjudicated(job.tsv) && Runnable(job, pool)
    requires OperatorId(job.fqid) && IsoDate(job.date) && name in job.tsv && job.tsv[name].Lives?
    requires PlainEnds(FieldsOf(pool[name]))
    ensures name in Planned(job, pool) && Others(FieldsOf(Planned(job, pool)[name])) == Others(FieldsOf(pool[name]))
    ensures BodyOf(Planned(job, pool)[name]) == RewriteBody(BodyOf(Origin(job, pool, name)), ViewOf(job, name))
  {
    hide AfterMerge, Attributed, Attributable, Normalized, OperatorId, IsoDate, RewriteBody, Rewritten, SplitFront,
      Adjudicated, PlainEnds, Others, MergeSuffix, NormalText, Planned;
    MergedIsNormalized(job, pool, name);
    FieldsAfterRun(job, pool, name);
    OriginKeepsFields(job, pool, name);
    NormalizedTextKeepsOthers(Origin(job, pool, name), job.tsv[name].layer, job.fqid);
  }

  lemma OriginKeepsFields(job: Job, pool: Dir, name: string)
    requires pool.Keys == job.tsv.Keys && Adjudicated(job.tsv) && Runnable(job, pool)
    requires name in job.tsv && job.tsv[name].Lives?
    ensures HasFront(Origin(job, pool, name)) && FieldsOf(Origin(job, pool, name)) == FieldsOf(pool[name])
  {
    hide Normalized, SplitFront, NormalText, MergeSuffix, Adjudicated;
    MergedIsNormalized(job, pool, name);
    if Merges(job.tsv) && name == MERGE_TARGET {
      var normal := NormalText(job, pool, name);
      MergeStartsLine(normal, pool[MERGE_SOURCE], job.date);
      assert HasFront(pool[name]);
      AppendKeepsFields(pool[name], MergeSuffix(normal, pool[MERGE_SOURCE], job.date));
    }
  }

  lemma NormalTextIs(job: Job, pool: Dir, name: string)
    requires name in pool && name in job.tsv && job.tsv[name].Lives?
    requires Normalized(pool[name], job.tsv[name].layer, job.fqid).Some?
    ensures Normalized(pool[name], job.tsv[name].layer, job.fqid) == Some(NormalText(job, pool, name))
  {
    hide Normalized;
  }

  lemma MergeStartsLine(target: string, source: string, date: string)
    ensures MergeSuffix(target, source, date) != "" && MergeSuffix(target, source, date)[0] == '\n'
  {
    hide BodyOf, Trim;
  }

  // ---- What the merge keeps -----------------------------------------------------------------------

  /** The target with a newline behind it, when it had none. */
  function Ended(text: string): string {
    if text != "" && text[|text| - 1] == '\n' then text else text + "\n"
  }

  const HEADING := "## 历史：旧版 workaround（"
  const HEADING_END := " 迁移并入）"

  /** The merged text: the target, an empty line, the dated heading, an empty line, and the whole body of
      the deleted file without the newlines around it. */
  ghost predicate MergedFrom(merged: string, target: string, body: string, date: string) {
    exists core :: Stripped(body, core, IsNewline) && merged == Ended(target) + Section(core, date)
  }

  function Section(core: string, date: string): string {
    "\n" + (HEADING + date + HEADING_END + "\n") + "\n" + (core + "\n")
  }

  lemma MergedKeepsBody(target: string, source: string, date: string)
    ensures MergedFrom(target + MergeSuffix(target, source, date), target, BodyOf(source), date)
  {
    hide BodyOf;
    var core := Trim(BodyOf(source), IsNewline);
    StrippedIff(BodyOf(source), core, IsNewline);
    SuffixIsSection(target, source, date, core);
  }

  lemma SuffixIsSection(target: string, source: string, date: string, core: string)
    requires Trim(BodyOf(source), IsNewline) == core
    ensures target + MergeSuffix(target, source, date) == Ended(target) + Section(core, date)
  {
    hide BodyOf, Trim, EndsWith, Ended;
    var heading := HEADING + date + HEADING_END;
    SectionParts(if EndsWith(target, "\n") then "" else "\n", heading, core);
    EndedIs(target, "\n" + (heading + "\n") + "\n" + (core + "\n"));
  }

  lemma SectionParts(gap: string, heading: string, core: string)
    ensures gap + "\n" + heading + "\n\n" + core + "\n" == gap + ("\n" + (heading + "\n") + "\n" + (core + "\n"))
  {
    assert "\n\n" == "\n" + "\n";
  }

  lemma EndedIs(target: string, section: string)
    ensures target + ((if EndsWith(target, "\n") then "" else "\n") + section) == Ended(target) + section
    ensures Ended(Ended(target)) == Ended(target)
  {
    if target != "" {
      assert target[|target| - 1..] == [target[|target| - 1]];
    }
  }

  /** Nothing of a deleted file is lost: after the merge the target holds its own text and the body of
      the deleted file under the dated heading, and both links and front matter of the target are
      rewritten as if the section were not there. */
  lemma MergeKeepsBody(job: Job, pool: Dir)
    requires pool.Keys == job.tsv.Keys && Adjudicated(job.tsv) && Merges(job.tsv)
    ensures var target, body := NormalText(job, pool, MERGE_TARGET), BodyOf(pool[MERGE_SOURCE]);
            && MERGE_TARGET in AfterMerge(job, pool) && MERGE_TARGET in Planned(job, pool)
            && MergedFrom(AfterMerge(job, pool)[MERGE_TARGET], target, body, job.date)
            && Planned(job, pool)[MERGE_TARGET]
               == Rewritten(AfterMerge(job, pool)[MERGE_TARGET], ViewOf(job, MERGE_TARGET))
    ensures forall core | Stripped(BodyOf(pool[MERGE_SOURCE]), core, IsNewline) ::
              var target, v := Ended(NormalText(job, pool, MERGE_TARGET)), ViewOf(job, MERGE_TARGET);
              && AfterMerge(job, pool)[MERGE_TARGET] == target + Section(core, job.date)
              && (SplitFront(target).Front? && IsoDate(job.date) ==>
                    Planned(job, pool)[MERGE_TARGET]
                    == Rewritten(target, v)
                       + ("\n" + (HEADING + job.date + HEADING_END + "\n") + "\n" + RewriteBody(core + "\n", v)))
  {
    hide NormalText, MergeSuffix, Rewritten, BodyOf, SplitFront, Section, Ended, IsoDate, RewriteBody, Stripped;
    var normal := NormalText(job, pool, MERGE_TARGET);
    var source := pool[MERGE_SOURCE];
    MergedKeepsBody(normal, source, job.date);
    forall core | Stripped(BodyOf(source), core, IsNewline)
      ensures AfterMerge(job, pool)[MERGE_TARGET] == Ended(normal) + Section(core, job.date)
      ensures SplitFront(Ended(normal)).Front? && IsoDate(job.date) ==>
                Rewritten(Ended(normal) + Section(core, job.date), ViewOf(job, MERGE_TARGET))
                == Rewritten(Ended(normal), ViewOf(job, MERGE_TARGET))
                   + ("\n" + (HEADING + job.date + HEADING_END + "\n") + "\n"
                      + RewriteBody(core + "\n", ViewOf(job, MERGE_TARGET)))
    {
      StrippedIff(BodyOf(source), core, IsNewline);
      SuffixIsSection(normal, source, job.date, core);
      if SplitFront(Ended(normal)).Front? && IsoDate(job.date) {
        EndedIs(normal, "");
        SectionRewritten(Ended(normal), core, job.date, ViewOf(job, MERGE_TARGET));
      }
    }
  }

  lemma SectionRewritten(target: string, core: string, date: string, v: View)
    requires SplitFront(target).Front? && IsoDate(date) && target == Ended(target)
    ensures Rewritten(target + Section(core, date), v)
            == Rewritten(target, v)
               + ("\n" + (HEADING + date + HEADING_END + "\n") + "\n" + RewriteBody(core + "\n", v))
  {
    assert IsBreak('\n');
    RewrittenAppend(target, Section(core, date), v);
    hide Rewritten, SplitFront, RewriteBody, IsBreak, AnyLine, IsoDate;
    var heading := HEADING + date + HEADING_END + "\n";
    HeadingIsLine(date);
    NewlineIsLine();
    BodyAppend("\n", heading + "\n" + (core + "\n"), v);
    BodyAppend(heading, "\n" + (core + "\n"), v);
    BodyAppend("\n", core + "\n", v);
    PlainBody("\n", v);
    PlainBody(heading, v);
    FourBodies(heading, core + "\n", RewriteBody(core + "\n", v), date);
  }

  lemma FourBodies(heading: string, tail: string, written: string, date: string)
    ensures "\n" + heading + "\n" + tail == "\n" + (heading + "\n" + tail)
    ensures heading + "\n" + tail == heading + ("\n" + tail)
    ensures "\n" + (heading + ("\n" + written)) == "\n" + heading + "\n" + written
  {
  }

  lemma NewlineIsLine()
    ensures AnyLine("\n") && Free("\n", IsOpening) && IsBreak("\n"[0])
  {
  }

  lemma HeadingIsLine(date: string)
    requires IsoDate(date)
    ensures var heading := HEADING + date + HEADING_END + "\n";
            AnyLine(heading) && Free(heading, IsOpening) && IsBreak(heading[|heading| - 1])
  {
    assert Free(HEADING, IsBreak) && Free(HEADING_END, IsBreak) && Free(date, IsBreak);
    assert Free(HEADING, IsOpening) && Free(HEADING_END, IsOpening) && Free(date, IsOpening);
    FreeConcat(HEADING, date, IsBreak);
    FreeConcat(HEADING + date, HEADING_END, IsBreak);
    FreeConcat(HEADING, date, IsOpening);
    FreeConcat(HEADING + date, HEADING_END, IsOpening);
    var core := HEADING + date + HEADING_END;
    FreeConcat(core, "\n", IsOpening);
    EndedIsFull(core, "\n");
  }

  /** The backup that step 1 leaves: every pool file, and a manifest for this run. */
  ghost predicate BackedUp(w: World, tsv: Tsv, hash: string) {
    w.backup == Some(Backup(w.memory, Some(Manifest(tsv.Keys, w.user.Keys, hash))))
  }

  lemma PlacedText(job: Job, was: World, texts: Dir, name: string)
    requires was.user.Keys !! job.tsv.Keys
    ensures var w := Placed(job, was, texts);
            && (name in w.memory ==>
                  name in texts && name in job.tsv && job.tsv[name] == Lives(Agent) && w.memory[name] == texts[name])
            && (name in w.user && name in job.tsv ==>
                name in texts && job.tsv[name] == Lives(User) && w.user[name] == texts[name])
  {
  }

  lemma InventoryAfterRun(job: Job, was: World)
    requires Prechecked(was, job)
    ensures Inventory(Placed(job, was, Planned(job, was.memory))) == FinalInventory(job, was)
    ensures forall name <- Surviving(job.tsv) ::
              name in FinalInventory(job, was) && FinalInventory(job, was)[name] == Surviving(job.tsv)[name]
  {
    var w := Placed(job, was, Planned(job, was.memory));
    NamesAfterRun(job, was);
    hide Planned, Adjudicated, Placed, Inventory, NamesIn, FinalInventory;
    FinalNames(job, was, w);
  }

  lemma FinalNames(job: Job, was: World, w: World)
    requires was.user.Keys !! job.tsv.Keys
    requires w.memory.Keys == NamesIn(job.tsv, Lives(Agent))
    requires w.user.Keys == NamesIn(job.tsv, Lives(User)) + was.user.Keys
    ensures Inventory(w) == FinalInventory(job, was)
    ensures forall name <- Surviving(job.tsv) ::
              name in FinalInventory(job, was) && FinalInventory(job, was)[name] == Surviving(job.tsv)[name]
  {
    forall name
      ensures name in Inventory(w) <==> name in FinalInventory(job, was)
      ensures name in Inventory(w) ==> Inventory(w)[name] == FinalInventory(job, was)[name]
    {
      assert name in w.memory.Keys <==> name in job.tsv && job.tsv[name] == Lives(Agent);
      assert name in w.user.Keys <==> name in was.user.Keys || (name in job.tsv && job.tsv[name] == Lives(User));
      if name in job.tsv && job.tsv[name].Lives? {
        match job.tsv[name].layer
        case Agent => assert job.tsv[name] == Lives(Agent);
        case User => assert job.tsv[name] == Lives(User);
      }
    }
  }

  lemma SurvivorPassesIff(job: Job, was: World, name: string)
    requires Prechecked(was, job) && Runnable(job, was.memory) && WellNamed(job)
    requires name in job.tsv && job.tsv[name].Lives?
    ensures name in Planned(job, was.memory) && HasFront(Origin(job, was.memory, name))
    ensures var text := Planned(job, was.memory)[name];
            && DanglingHrefs(Scan(BodyOf(text)), job.tsv[name].layer, FinalInventory(job, was)) == []
            && Attributed(FieldsOf(text), job.tsv[name].layer, job.fqid)
            <==> Sound(job, was, name)
  {
    hide OperatorId, IsoDate, RewriteBody, Scan, Attributed, Adjudicated, Placed, FieldsOf, BodyOf, Attributable,
      LooseLinks, RewrittenTokens, DanglingHrefs, Inventory, FinalInventory, HasFront, AfterMerge, Planned, LinkNames,
      Rewritten, Origin, SplitFront;
    FieldsAfterRun(job, was.memory, name);
    InventoryAfterRun(job, was);
    ResolvesIff(BodyOf(AfterMerge(job, was.memory)[name]), ViewOf(job, name), FinalInventory(job, was));
  }

  /** After a completed run every file resolves and is attributed exactly when every survivor is sound. */
  lemma CompletedFilesPass(job: Job, was: World)
    requires Prechecked(was, job) && Runnable(job, was.memory) && WellNamed(job)
    ensures var w := Placed(job, was, Planned(job, was.memory));
            && FilesResolve(job.tsv, w.memory, Agent, Inventory(w)) && FilesResolve(job.tsv, w.user, User, Inventory(w))
            && AllAttributed(job.tsv, w, job.fqid)
            <==> AllSound(job, was)
  {
    hide Placed, Planned, WellNamed, Runnable, DanglingHrefs, Scan, BodyOf, FieldsOf, Attributed, Inventory,
      Adjudicated, FinalInventory, Origin, Sound, HasFront;
    var texts := Planned(job, was.memory);
    var w := Placed(job, was, texts);
    InventoryAfterRun(job, was);
    forall name | name in job.tsv && job.tsv[name].Lives?
      ensures HasFront(Origin(job, was.memory, name))
      ensures var dir := if job.tsv[name].layer == Agent then w.memory else w.user;
              name in dir && (Passes(job, was, dir[name], job.tsv[name].layer) <==> Sound(job, was, name))
    {
      SurvivorPassesIff(job, was, name);
      PlacedSurvivor(job, was, texts, name);
    }
    forall name
      ensures name in w.memory ==> name in job.tsv && job.tsv[name] == Lives(Agent)
      ensures name in w.user && name in job.tsv ==> job.tsv[name] == Lives(User)
    {
      PlacedText(job, was, texts, name);
    }
  }

  predicate Passes(job: Job, was: World, text: string, layer: Layer) {
    DanglingHrefs(Scan(BodyOf(text)), layer, FinalInventory(job, was)) == []
    && Attributed(FieldsOf(text), layer, job.fqid)
  }

  lemma PlacedSurvivor(job: Job, was: World, texts: Dir, name: string)
    requires name in texts && name in job.tsv && job.tsv[name].Lives?
    ensures var w := Placed(job, was, texts);
            var dir := if job.tsv[name].layer == Agent then w.memory else w.user;
            name in dir && dir[name] == texts[name]
  {
  }

  /** Whatever the texts hold, a completed run leaves the expected names, so a re-run is a no-op. */
  lemma CompletedRunIsMigrated(job: Job, was: World, hash: string)
    requires Prechecked(was, job) && BackedUp(was, job.tsv, hash)
    ensures var w := Placed(job, was, Planned(job, was.memory));
            && DetectState(job.tsv, w, Some(hash)) == DetectState(job.tsv, w, None) == Migrated
            && CountsConserved(job.tsv, w, |was.memory.Keys|, was.backup.value.manifest.value)
  {
    NamesAfterRun(job, was);
    hide Planned, NamesIn, Adjudicated, Inventory;
    assert |job.tsv| == |job.tsv.Keys|;
  }

  /** A completed run from a prechecked, backed-up pool passes all four invariants, with names conserved,
      no dangling link, every file attributed to its layer and a re-run detected as a no-op, if and only if
      every survivor is sound. */
  lemma CompletedRunPasses(job: Job, was: World, hash: string)
    requires Prechecked(was, job) && BackedUp(was, job.tsv, hash) && Runnable(job, was.memory) && WellNamed(job)
    ensures InvariantsHold(job.tsv, Placed(job, was, Planned(job, was.memory)), |was.memory.Keys|, job.fqid)
            <==> AllSound(job, was)
  {
    hide Planned, FilesResolve, AllAttributed, CountsConserved, DetectState, Adjudicated, AllSound, Runnable, WellNamed;
    CompletedFilesPass(job, was);
    CompletedRunIsMigrated(job, was, hash);
  }

  /** Attribution lines that end in newlines, and no bracket outside a link that a `](` outside a link
      closes once the dead links are plain text, are always enough. */
  lemma PlainIsSound(job: Job, was: World, name: string)
    requires Prechecked(was, job) && Runnable(job, was.memory) && WellNamed(job)
    requires name in job.tsv && job.tsv[name].Lives? && name in AfterMerge(job, was.memory)
    requires PlainEnds(FieldsOf(was.memory[name]))
    requires GapFree(RewrittenTokens(BodyOf(AfterMerge(job, was.memory)[name]), ViewOf(job, name)))
    ensures HasFront(Origin(job, was.memory, name)) && Sound(job, was, name)
  {
    hide Adjudicated, AfterMerge, Attributable, FinalInventory, GapFree, RewrittenTokens, LooseLinks, BodyOf,
      OperatorId, MergeSuffix, SplitFront, PlainEnds, NormalText, Normalized;
    MergedIsNormalized(job, was.memory, name);
    BodyPrints(BodyOf(AfterMerge(job, was.memory)[name]), ViewOf(job, name));
    GapFreeNoneLoose(RewrittenTokens(BodyOf(AfterMerge(job, was.memory)[name]), ViewOf(job, name)));
    if Merges(job.tsv) && name == MERGE_TARGET {
      var normal := NormalText(job, was.memory, name);
      MergeStartsLine(normal, was.memory[MERGE_SOURCE], job.date);
      assert HasFront(was.memory[name]);
      AppendKeepsFields(was.memory[name], MergeSuffix(normal, was.memory[MERGE_SOURCE], job.date));
    }
    WholeOfSplit(Origin(job, was.memory, name));
    PlainIsAttributable(SplitFront(Origin(job, was.memory, name)), job.tsv[name].layer, job.fqid);
  }

  lemma SoundIgnoresBackup(job: Job, a: World, b: World)
    requires a.memory == b.memory && a.user == b.user && a.memory.Keys == job.tsv.Keys && Adjudicated(job.tsv)
    ensures AllSound(job, a) <==> AllSound(job, b)
  {
    hide Attributable, LooseLinks, AfterMerge, Adjudicated, Origin, HasFront;
    assert FinalInventory(job, a) == FinalInventory(job, b);
  }

  // ---- What the report counts -----------------------------------------------------------------------

  ghost predicate Distinct(names: seq<string>) {
    forall i, j | 0 <= i < j < |names| :: names[i] != names[j]
  }

  /** The listed names with this adjudication, but for those of `except`. */
  function Listed(tsv: Tsv, names: seq<string>, final: Final, except: set<string>): set<string> {
    set name | name in names && name in tsv && tsv[name] == final && name !in except
  }

  lemma LastListed(names: seq<string>)
    requires Distinct(names) && names != []
    ensures var n := |names| - 1;
            names[n] !in names[..n] && forall name :: name in names <==> name in names[..n] || name == names[n]
  {
    var n := |names| - 1;
    assert names == names[..n] + [names[n]];
  }

  lemma ListedMore(tsv: Tsv, names: seq<string>, final: Final, except: set<string>)
    requires Distinct(names) && names != []
    ensures var n := |names| - 1;
            |Listed(tsv, names, final, except)|
            == |Listed(tsv, names[..n], final, except)|
               + if names[n] in tsv && tsv[names[n]] == final && names[n] !in except then 1 else 0
  {
    var n := |names| - 1;
    LastListed(names);
    OneListed(tsv, names, names[..n], names[n], final, except);
  }

  lemma OneListed(tsv: Tsv, names: seq<string>, front: seq<string>, last: string, final: Final, except: set<string>)
    requires last !in front && forall name :: name in names <==> name in front || name == last
    ensures |Listed(tsv, names, final, except)|
            == |Listed(tsv, front, final, except)|
               + if last in tsv && tsv[last] == final && last !in except then 1 else 0
  {
    var before := Listed(tsv, front, final, except);
    if last in tsv && tsv[last] == final && last !in except {
      assert Listed(tsv, names, final, except) == before + {last};
    } else {
      assert Listed(tsv, names, final, except) == before;
    }
  }

  /** One kind of entry for each thing counted. */
  ghost predicate Tallied(r: Report) {
    && |r.rewrites| == r.counts.fmNormalized + r.counts.deletePlain + r.counts.merge + r.counts.linksRewritten
    && |r.dead| == r.counts.deadDelinked
  }

  ghost predicate Dispatching(c: Counts, agents: nat, users: nat, plain: nat) {
    && c.agentStay == agents && c.userMove == users && c.deletePlain == plain
    && c.userMove <= c.fmNormalized <= c.userMove + c.agentStay && c.merge == 0
  }

  lemma {:induction false} DispatchCounts(job: Job, pool: Dir, names: seq<string>)
    requires pool.Keys == job.tsv.Keys && Distinct(names) && forall name <- names :: name in pool
    ensures var r := DispatchReport(job, pool, names);
            && Tallied(r)
            && Dispatching(r.counts, |Listed(job.tsv, names, Lives(Agent), {})|,
                |Listed(job.tsv, names, Lives(User), {})|, |Listed(job.tsv, names, Deleted, {MERGE_SOURCE})|)
  {
    if names != [] {
      var n := |names| - 1;
      assert Distinct(names[..n]) && names[n] in names && forall name <- names[..n] :: name in names;
      hide Dispatching, Tallied, ReportDispatch, Listed;
      DispatchCounts(job, pool, names[..n]);
      ListedMore(job.tsv, names, Lives(Agent), {});
      ListedMore(job.tsv, names, Lives(User), {});
      ListedMore(job.tsv, names, Deleted, {MERGE_SOURCE});
      hide Distinct;
      CountOne(job, pool, names[n], DispatchReport(job, pool, names[..n]),
        |Listed(job.tsv, names[..n], Lives(Agent), {})|, |Listed(job.tsv, names[..n], Lives(User), {})|,
        |Listed(job.tsv, names[..n], Deleted, {MERGE_SOURCE})|);
    } else {
      assert Listed(job.tsv, names, Deleted, {MERGE_SOURCE}) == {} && Listed(job.tsv, names, Lives(Agent), {}) == {}
             && Listed(job.tsv, names, Lives(User), {}) == {};
    }
  }

  lemma CountOne(job: Job, pool: Dir, name: string, r: Report, agents: nat, users: nat, plain: nat)
    requires pool.Keys == job.tsv.Keys && name in pool && Tallied(r)
    requires Dispatching(r.counts, agents, users, plain)
    ensures var s, final := ReportDispatch(job, pool, name, r), job.tsv[name];
            && Tallied(s)
            && Dispatching(s.counts, agents + (if final == Lives(Agent) then 1 else 0),
                users + (if final == Lives(User) then 1 else 0),
                plain + (if final == Deleted && name != MERGE_SOURCE then 1 else 0))
  {
    hide NormalText;
  }

  lemma {:induction false} LinkCounts(job: Job, content: Dir, names: seq<string>, r: Report)
    requires content.Keys == Surviving(job.tsv).Keys && Tallied(r)
    ensures var s := LinkReport(job, content, names, r);
            && Tallied(s)
            && s.counts == r.counts.(linksRewritten := s.counts.linksRewritten,
                deadDelinked := s.counts.deadDelinked)
  {
    hide LineRewrites, LineDead, Lines, BodyOf;
    if names != [] {
      LinkCounts(job, content, names[..|names| - 1], r);
    }
  }

  lemma EnumeratedAre(names: seq<string>, tsv: Tsv, final: Final, except: set<string>)
    requires Enumerates(names, tsv)
    ensures Listed(tsv, names, final, except) == NamesIn(tsv, final) - except
  {
  }

  lemma NamesPartition(tsv: Tsv)
    ensures |NamesIn(tsv, Lives(Agent))| + |NamesIn(tsv, Lives(User))| + |NamesIn(tsv, Deleted)| == |tsv|
  {
    var a, u, d := NamesIn(tsv, Lives(Agent)), NamesIn(tsv, Lives(User)), NamesIn(tsv, Deleted);
    forall name | name in tsv
      ensures name in a + u + d
    {
      match tsv[name]
      case Lives(Agent) =>
      case Lives(User) =>
      case Deleted =>
    }
    assert a + u + d == tsv.Keys && |a + u| == |a| + |u| && |(a + u) + d| == |a + u| + |d|;
    assert |tsv| == |tsv.Keys|;
  }

  /** The report counts every adjudicated name once, under what became of it, and lists one entry for each
      thing it counts. */
  lemma ReportAddsUp(job: Job, pool: Dir, names: seq<string>)
    requires pool.Keys == job.tsv.Keys && Adjudicated(job.tsv) && Enumerates(names, job.tsv)
    ensures var r := PlannedReport(job, pool, names); var c := r.counts;
            && c.agentStay == |NamesIn(job.tsv, Lives(Agent))| && c.userMove == |NamesIn(job.tsv, Lives(User))|
            && c.deletePlain == |NamesIn(job.tsv, Deleted) - {MERGE_SOURCE}|
            && c.merge == (if Merges(job.tsv) then 1 else 0)
            && c.agentStay + c.userMove + c.deletePlain + c.merge == |job.tsv|
            && Tallied(r)
  {
    hide AfterMerge, LinkReport, DispatchReport, Adjudicated, NamesIn, Listed;
    assert Distinct(names) && forall name <- names :: name in pool;
    DispatchCounts(job, pool, names);
    EnumeratedAre(names, job.tsv, Lives(Agent), {});
    EnumeratedAre(names, job.tsv, Lives(User), {});
    EnumeratedAre(names, job.tsv, Deleted, {MERGE_SOURCE});
    hide Enumerates;
    assert NamesIn(job.tsv, Lives(Agent)) - {} == NamesIn(job.tsv, Lives(Agent));
    assert NamesIn(job.tsv, Lives(User)) - {} == NamesIn(job.tsv, Lives(User));
    NamesPartition(job.tsv);
    var dispatched := ReportMerge(job, DispatchReport(job, pool, names));
    MergedKeys(job, pool);
    LinkCounts(job, AfterMerge(job, pool), names, dispatched);
    SourceCounted(job.tsv);
  }

  lemma SourceCounted(tsv: Tsv)
    ensures |NamesIn(tsv, Deleted)| == |NamesIn(tsv, Deleted) - {MERGE_SOURCE}| + if Merges(tsv) then 1 else 0
  {
    var deleted := NamesIn(tsv, Deleted);
    assert Merges(tsv) <==> MERGE_SOURCE in deleted;
    if !Merges(tsv) {
      assert deleted - {MERGE_SOURCE} == deleted;
    }
  }

  lemma MergedKeys(job: Job, pool: Dir)
    requires pool.Keys == job.tsv.Keys && Adjudicated(job.tsv)
    ensures AfterMerge(job, pool).Keys == Surviving(job.tsv).Keys
  {
    LinkedEnds(job, pool);
  }

  // ---- The ownership precheck -----------------------------------------------------------------------

  predicate OwnerLineStart(line: string) { "user_id:" <= line }

  predicate IsApostrophe(c: char) { c == '\'' }

  /** The owner a text declares, anywhere in it. */
  function DeclaredOwner(text: string): Option<string> {
    var ls := Lines(text);
    var n := FindFirst(ls, OwnerLineStart, 0);
    if n == |ls| then None
    else Some(Trim(Trim(Trim(ls[n][8..], PySpace), IsQuote), IsApostrophe))
  }

  /** Every memory bound for the user layer declares this operator, or declares nobody and that is
      acknowledged; a dry run only reports the latter. */
  predicate OwnersAccepted(job: Job, pool: Dir, ackSingleOwner: bool, dryRun: bool)
    requires pool.Keys == job.tsv.Keys
  {
    forall name <- job.tsv | job.tsv[name] == Lives(User) ::
      match DeclaredOwner(pool[name])
      case Some(owner) => owner == job.fqid
      case None => ackSingleOwner || dryRun
  }

  ghost predicate FirstOwnerLine(ls: seq<string>, n: nat) {
    n < |ls| && "user_id:" <= ls[n] && forall i | 0 <= i < n :: !("user_id:" <= ls[i])
  }

  /** `owner` is what is left of `value` without white space, then double quotes, then apostrophes. */
  ghost predicate Unwrapped(value: string, owner: string) {
    exists x, y :: Stripped(value, x, PySpace) && Stripped(x, y, IsQuote) && Stripped(y, owner, IsApostrophe)
  }

  /** The first line of the text that starts with the owner's key names `owner`. */
  ghost predicate NamesOwner(text: string, owner: string) {
    exists n: nat :: FirstOwnerLine(Lines(text), n) && Unwrapped(Lines(text)[n][8..], owner)
  }

  lemma FirstOwnerLineIs(ls: seq<string>)
    ensures var n := FindFirst(ls, OwnerLineStart, 0); n < |ls| ==> FirstOwnerLine(ls, n) && "user_id:" <= ls[n]
    ensures forall n: nat | FirstOwnerLine(ls, n) :: n < |ls| && n == FindFirst(ls, OwnerLineStart, 0)
  {
    var n := FindFirst(ls, OwnerLineStart, 0);
    assert forall i | 0 <= i < n :: !OwnerLineStart(ls[i]);
    assert n < |ls| ==> OwnerLineStart(ls[n]) && ls[n] in ls;
  }

  lemma DeclaredIff(text: string, owner: string)
    ensures DeclaredOwner(text) == Some(owner) <==> NamesOwner(text, owner)
  {
    hide Lines, Trim, Unwrapped, FindFirst, NamesOwner, OwnerLineStart;
    var ls := Lines(text);
    NamesOwnerAt(text, owner);
    var n := FindFirst(ls, OwnerLineStart, 0);
    if n < |ls| {
      OwnerUnwrapped(ls[n][8..], owner);
    }
  }

  lemma NamesOwnerAt(text: string, owner: string)
    ensures var ls := Lines(text); var n := FindFirst(ls, OwnerLineStart, 0);
            && (n < |ls| ==> "user_id:" <= ls[n])
            && (NamesOwner(text, owner) <==> n < |ls| && Unwrapped(ls[n][8..], owner))
  {
    hide Lines, Unwrapped, FindFirst, FirstOwnerLine;
    FirstOwnerLineIs(Lines(text));
  }

  lemma OwnerUnwrapped(value: string, owner: string)
    ensures Trim(Trim(Trim(value, PySpace), IsQuote), IsApostrophe) == owner <==> Unwrapped(value, owner)
  {
    hide Trim, Stripped;
    var x := Trim(value, PySpace);
    var y := Trim(x, IsQuote);
    StrippedIff(value, x, PySpace);
    StrippedIff(x, y, IsQuote);
    StrippedIff(y, owner, IsApostrophe);
    forall x', y' | Stripped(value, x', PySpace) && Stripped(x', y', IsQuote) && Stripped(y', owner, IsApostrophe)
      ensures x' == x && y' == y
    {
      StrippedIff(value, x', PySpace);
      StrippedIff(x', y', IsQuote);
    }
  }

  /** The precheck passes exactly when no memory bound for the user layer names another owner, and each
      names one unless that is acknowledged or the run is dry. */
  lemma OwnersIff(job: Job, pool: Dir, ackSingleOwner: bool, dryRun: bool)
    requires pool.Keys == job.tsv.Keys
    ensures OwnersAccepted(job, pool, ackSingleOwner, dryRun)
            <==>
            && (forall name, owner | name in job.tsv && job.tsv[name] == Lives(User) && NamesOwner(pool[name], owner) ::
                  owner == job.fqid)
            && (ackSingleOwner || dryRun || forall name <- job.tsv | job.tsv[name] == Lives(User) ::
                  NamesOwner(pool[name], job.fqid))
  {
    hide NamesOwner, DeclaredOwner;
    if OwnersAccepted(job, pool, ackSingleOwner, dryRun) {
      forall name | name in job.tsv && job.tsv[name] == Lives(User)
        ensures forall owner | NamesOwner(pool[name], owner) :: owner == job.fqid
        ensures ackSingleOwner || dryRun || NamesOwner(pool[name], job.fqid)
      {
        OwnerIsOne(pool[name]);
      }
    } else {
      var name :| name in job.tsv && job.tsv[name] == Lives(User)
        && match DeclaredOwner(pool[name])
           case Some(owner) => owner != job.fqid
           case None => !(ackSingleOwner || dryRun);
      OwnerIsOne(pool[name]);
      if DeclaredOwner(pool[name]).Some? {
        assert NamesOwner(pool[name], DeclaredOwner(pool[name]).value);
      } else {
        assert !NamesOwner(pool[name], job.fqid);
      }
    }
  }

  lemma OwnerIsOne(text: string)
    ensures match DeclaredOwner(text)
            case None => forall owner :: !NamesOwner(text, owner)
            case Some(o) => forall owner :: NamesOwner(text, owner) <==> owner == o
  {
    hide NamesOwner, DeclaredOwner;
    forall owner: string
      ensures DeclaredOwner(text) == Some(owner) <==> NamesOwner(text, owner)
    {
      DeclaredIff(text, owner);
    }
  }

  /** Every operation is on an owned file, and every intermediate world holds every survivor. */
  ghost predicate Careful(start: World, ops: seq<Op>, tsv: Tsv) {
    && (forall op <- ops :: OnOwned(op, tsv.Keys))
    && (forall k | 0 <= k <= |ops| :: Held(Replay(start, ops[..k]), tsv))
  }

  lemma CarefulStep(start: World, ops: seq<Op>, op: Op, tsv: Tsv)
    requires Careful(start, ops, tsv) && OnOwned(op, tsv.Keys)
    requires Held(Step(Replay(start, ops), op), tsv)
    ensures Careful(start, ops + [op], tsv)
    ensures Replay(start, ops + [op]) == Step(Replay(start, ops), op)
  {
    hide Step, Held;
    var longer := ops + [op];
    assert longer[..|ops|] == ops;
    forall k | 0 <= k <= |longer|
      ensures Held(Replay(start, longer[..k]), tsv)
    {
      if k <= |ops| {
        assert longer[..k] == ops[..k];
      } else {
        assert longer[..k] == longer;
      }
    }
  }

  lemma NormalizedNeedsFront(text: string, layer: Layer, fqid: string)
    ensures Normalized(text, layer, fqid).Some? <==> HasFront(text)
  {
    hide SplitFront;
  }

  ghost function WorldAt(job: Job, was: World, done: set<string>): World
    requires was.memory.Keys == job.tsv.Keys
  {
    World(MemoryAt(job, was.memory, done), UserAt(job, was.memory, was.user, done), was.backup)
  }

  lemma MemoryAtStep(job: Job, pool: Dir, done: set<string>, name: string)
    requires pool.Keys == job.tsv.Keys && name in pool && name !in done
    ensures name in MemoryAt(job, pool, done) && MemoryAt(job, pool, done)[name] == pool[name]
    ensures LeavesMemory(job.tsv, name) ==> MemoryAt(job, pool, done + {name}) == MemoryAt(job, pool, done) - {name}
    ensures job.tsv[name] == Lives(Agent) ==>
              MemoryAt(job, pool, done + {name}) == MemoryAt(job, pool, done)[name := NormalText(job, pool, name)]
    ensures job.tsv[name].Deleted? && name == MERGE_SOURCE ==>
            MemoryAt(job, pool, done + {name}) == MemoryAt(job, pool, done)
  {
    hide NormalText;
  }

  lemma UserAtStep(job: Job, pool: Dir, user: Dir, done: set<string>, name: string)
    requires pool.Keys == job.tsv.Keys && name in pool && name !in done
    ensures UserAt(job, pool, user, done + {name}) ==
              if job.tsv[name] == Lives(User) then UserAt(job, pool, user, done)[name := NormalText(job, pool, name)]
              else UserAt(job, pool, user, done)
  {
    hide NormalText;
  }

  lemma ContentAtStep(job: Job, pool: Dir, done: set<string>, name: string)
    requires pool.Keys == job.tsv.Keys && name in pool && name !in done
    ensures ContentAt(job, pool, done + {name}) ==
              if job.tsv[name].Lives? then ContentAt(job, pool, done)[name := NormalText(job, pool, name)]
              else ContentAt(job, pool, done)
  {
    hide NormalText;
  }

  /** Dispatching one more name, as the operations that do it. */
  lemma WorldAtStep(job: Job, was: World, done: set<string>, name: string)
    requires was.memory.Keys == job.tsv.Keys && name in job.tsv && name !in done
    ensures name in MemoryAt(job, was.memory, done) && MemoryAt(job, was.memory, done)[name] == was.memory[name]
    ensures var w, next := WorldAt(job, was, done), WorldAt(job, was, done + {name});
            match job.tsv[name]
            case Lives(Agent) =>
              var text := NormalText(job, was.memory, name);
              next == Step(w, WriteFile(Agent, name, text)) && (text == was.memory[name] ==> next == w)
            case Lives(User) =>
              var text := NormalText(job, was.memory, name);
              next == Step(Step(w, WriteFile(User, name, text)), RemoveFile(Agent, name))
            case Deleted =>
              next == if name == MERGE_SOURCE then w else Step(w, RemoveFile(Agent, name))
  {
    hide NormalText, MemoryAt, UserAt;
    MemoryAtStep(job, was.memory, done, name);
    UserAtStep(job, was.memory, was.user, done, name);
  }

  lemma WorldAtNone(job: Job, was: World)
    requires was.memory.Keys == job.tsv.Keys
    ensures WorldAt(job, was, {}) == was && ContentAt(job, was.memory, {}) == map[]
  {
    hide NormalText;
    assert MemoryAt(job, was.memory, {}) == was.memory;
    assert UserAt(job, was.memory, was.user, {}) == was.user;
  }

  lemma CarefulNow(start: World, ops: seq<Op>, tsv: Tsv)
    requires Careful(start, ops, tsv)
    ensures Held(Replay(start, ops), tsv)
  {
    assert ops[..|ops|] == ops;
  }

  class Pool {
    var memory: Dir
    var user: Dir
    var backup: Option<Backup>
    /** The world when logging began, and the operations since. */
    ghost var start: World
    ghost var log: seq<Op>

    ghost function Now(): World
      reads this
    {
      World(memory, user, backup)
    }

    ghost predicate Logged()
      reads this
    {
      Now() == Replay(start, log)
    }

    // Each primitive is one change to the disk.

    method Write(layer: Layer, name: string, text: string)
      requires Logged()
      modifies this
      ensures Logged() && start == old(start) && log == old(log) + [WriteFile(layer, name, text)]
      ensures Now() == Step(old(Now()), WriteFile(layer, name, text))
    {
      match layer {
        case Agent => memory := memory[name := text];
        case User => user := user[name := text];
      }
      log := log + [WriteFile(layer, name, text)];
    }

    method Remove(layer: Layer, name: string)
      requires Logged()
      requires name in if layer == Agent then memory else user
      modifies this
      ensures Logged() && start == old(start) && log == old(log) + [RemoveFile(layer, name)]
      ensures Now() == Step(old(Now()), RemoveFile(layer, name))
    {
      match layer {
        case Agent => memory := memory - {name};
        case User => user := user - {name};
      }
      log := log + [RemoveFile(layer, name)];
    }

    method DeleteBackup()
      requires Logged()
      modifies this
      ensures Logged() && start == old(start) && log == old(log) + [DropBackup]
      ensures Now() == Step(old(Now()), DropBackup)
    {
      backup := None;
      log := log + [DropBackup];
    }

    /** Forget the past: crashes from here on are prefixes of what follows. */
    ghost method Begin()
      modifies this`start, this`log
      ensures Logged() && start == Now() && log == []
    {
      start, log := Now(), [];
    }

    /** A primitive on an owned file that leaves every survivor held. */
    method WriteOwned(layer: Layer, name: string, text: string, ghost tsv: Tsv)
      requires Logged() && Careful(start, log, tsv) && name in tsv
      modifies this
      ensures Logged() && start == old(start) && Careful(start, log, tsv)
      ensures log == old(log) + [WriteFile(layer, name, text)]
      ensures Now() == Step(old(Now()), WriteFile(layer, name, text))
    {
      CarefulNow(start, log, tsv);
      CarefulStep(start, log, WriteFile(layer, name, text), tsv);
      Write(layer, name, text);
    }

    method RemoveOwned(name: string, ghost tsv: Tsv)
      requires Logged() && Careful(start, log, tsv) && name in tsv && name in memory
      requires tsv[name].Lives? ==> name in user
      modifies this
      ensures Logged() && start == old(start) && Careful(start, log, tsv)
      ensures log == old(log) + [RemoveFile(Agent, name)]
      ensures Now() == Step(old(Now()), RemoveFile(Agent, name))
    {
      CarefulNow(start, log, tsv);
      CarefulStep(start, log, RemoveFile(Agent, name), tsv);
      Remove(Agent, name);
    }

    // ---- Step 2 ----------------------------------------------------------------------------------

    /** Dispatch one name: normalise in place, move to the user layer, or delete. */
    method DispatchOne(job: Job, name: string, dryRun: bool, content: Dir, report: Report, ghost done: set<string>,
        ghost was: World)
      returns (ok: bool, content': Dir, report': Report)
      requires Logged() && Careful(start, log, job.tsv)
      requires was.memory.Keys == job.tsv.Keys && name in job.tsv && name !in done
      requires Now() == WorldAt(job, was, if dryRun then {} else done)
      requires content == ContentAt(job, was.memory, done)
      modifies this
      ensures Logged() && start == old(start) && Careful(start, log, job.tsv)
      ensures dryRun ==> Now() == old(Now())
      ensures ok <==> (job.tsv[name].Lives? ==> HasFront(was.memory[name]))
      ensures ok ==> Now() == WorldAt(job, was, if dryRun then {} else done + {name})
      ensures ok ==> content' == ContentAt(job, was.memory, done + {name})
      ensures ok ==> report' == ReportDispatch(job, was.memory, name, report)
    {
      hide Normalized, HasFront, MemoryAt, UserAt, ContentAt, Careful, Replay;
      WorldAtStep(job, was, done, name);
      ContentAtStep(job, was.memory, done, name);
      if dryRun {
        WorldAtNone(job, was);
      }
      ok, content', report' := true, content, report;
      var text := memory[name];
      match job.tsv[name] {
        case Lives(Agent) =>
          var r := NormalizeFrontmatter(text, Agent, job.fqid);
          NormalizedNeedsFront(text, Agent, job.fqid);
          if r.None? {
            return false, content, report;
          }
          content' := content[name := r.value];
          report' := report.(counts := report.counts.(agentStay := report.counts.agentStay + 1));
          if r.value != text {
            report' := report'.(
              counts := report'.counts.(fmNormalized := report'.counts.fmNormalized + 1),
              rewrites := report'.rewrites + [Entry(name, "frontmatter", "scope/user_id normalized")]);
            if !dryRun {
              WriteOwned(Agent, name, r.value, job.tsv);
            }
          }
        case Lives(User) =>
          var r := NormalizeFrontmatter(text, User, job.fqid);
          NormalizedNeedsFront(text, User, job.fqid);
          if r.None? {
            return false, content, report;
          }
          content' := content[name := r.value];
          report' := report.(
            counts := report.counts.(userMove := report.counts.userMove + 1,
                fmNormalized := report.counts.fmNormalized + 1),
            rewrites := report.rewrites + [Entry(name, "move", "memory/ -> users/" + job.uuid + "/memory/")]);
          if !dryRun {
            WriteOwned(User, name, r.value, job.tsv);
            RemoveOwned(name, job.tsv);
          }
        case Deleted =>
          if name != MERGE_SOURCE {
            report' := report.(
              counts := report.counts.(deletePlain := report.counts.deletePlain + 1),
              rewrites := report.rewrites + [Entry(name, "delete", "plain")]);
            if !dryRun {
              RemoveOwned(name, job.tsv);
            }
          }
      }
    }

    // ---- The merge -------------------------------------------------------------------------------

    /** Append the workaround's body to its target, wherever that lives now, and delete the source. */
    method Merge(job: Job, dryRun: bool, content: Dir, report: Report, ghost was: World)
      returns (content': Dir, report': Report)
      requires Logged() && Careful(start, log, job.tsv)
      requires was.memory.Keys == job.tsv.Keys && Adjudicated(job.tsv)
      requires Now() == if dryRun then was else WorldAt(job, was, job.tsv.Keys)
      requires content == Dispatched(job, was.memory)
      modifies this
      ensures Logged() && start == old(start) && Careful(start, log, job.tsv)
      ensures Now() == if dryRun then was else Placed(job, was, AfterMerge(job, was.memory))
      ensures content' == AfterMerge(job, was.memory)
      ensures report' == ReportMerge(job, report)
      ensures Merges(job.tsv) ==> MergedFrom(content'[MERGE_TARGET], content[MERGE_TARGET],
                  BodyOf(was.memory[MERGE_SOURCE]), job.date)
      // The source goes only once the target holds its body.
      ensures log == old(log) + if dryRun || !Merges(job.tsv) then [] else
                [WriteFile(job.tsv[MERGE_TARGET].layer, MERGE_TARGET, content'[MERGE_TARGET]),
                    RemoveFile(Agent, MERGE_SOURCE)]
    {
      hide Careful, Replay, MergeSuffix, MemoryAt, UserAt, NormalText, InLayer, MergedFrom, BodyOf;
      AllDispatched(job, was);
      content', report' := content, report;
      if Merges(job.tsv) {
        report' := report.(
          counts := report.counts.(merge := report.counts.merge + 1),
          rewrites := report.rewrites + [Entry(MERGE_SOURCE, "merge", "body appended to " + MERGE_TARGET + ".md")]);
        var source := memory[MERGE_SOURCE];
        var merged := content[MERGE_TARGET] + MergeSuffix(content[MERGE_TARGET], source, job.date);
        content' := content[MERGE_TARGET := merged];
        MergedKeepsBody(content[MERGE_TARGET], source, job.date);
        PlacedWrite(job, was, content, MERGE_TARGET, merged);
        if !dryRun {
          SourceIsNotTarget();
          WriteOwned(job.tsv[MERGE_TARGET].layer, MERGE_TARGET, merged, job.tsv);
          RemoveOwned(MERGE_SOURCE, job.tsv);
        }
      }
    }

    // ---- Step 3 ----------------------------------------------------------------------------------

    /** Rewrite the links of one survivor, writing it only when it changed. */
    method LinkOne(job: Job, name: string, dryRun: bool, content: Dir, report: Report, ghost was: World)
      returns (content': Dir, report': Report)
      requires Logged() && Careful(start, log, job.tsv)
      requires Now() == if dryRun then was else Placed(job, was, content)
      requires content.Keys == Surviving(job.tsv).Keys && name in content
      modifies this
      ensures Logged() && start == old(start) && Careful(start, log, job.tsv)
      ensures content' == content[name := Rewritten(content[name], ViewOf(job, name))]
      ensures Now() == if dryRun then was else Placed(job, was, content')
      ensures var ls, v := Lines(BodyOf(content[name])), ViewOf(job, name);
              report' == ReportLinks(name, LineRewrites(ls, v), LineDead(ls, v), report)
    {
      hide Careful, Replay, Rewritten, Placed, LineRewrites, LineDead, Lines, BodyOf;
      var layer := job.tsv[name].layer;
      var text, links, dead := RewriteLinks(content[name], ViewOf(job, name));
      content' := content[name := text];
      report' := ReportLinks(name, links, dead, report);
      PlacedWrite(job, was, content, name, text);
      if !dryRun {
        var onDisk := if layer == Agent then memory[name] else user[name];
        if text != onDisk {
          WriteOwned(layer, name, text, job.tsv);
        } else {
          assert content' == content;
        }
      }
    }

    // ---- Steps 2 and 3 ---------------------------------------------------------------------------

    method DispatchAll(job: Job, names: seq<string>, dryRun: bool) returns (ok: bool, content: Dir, report: Report)
      requires Logged() && Careful(start, log, job.tsv)
      requires Prechecked(Now(), job) && Enumerates(names, job.tsv)
      modifies this
      ensures Logged() && start == old(start) && Careful(start, log, job.tsv)
      ensures dryRun ==> Now() == old(Now())
      ensures ok <==> Runnable(job, old(memory))
      ensures ok ==> content == Dispatched(job, old(memory)) && report == DispatchReport(job, old(memory), names)
      ensures ok && !dryRun ==> Now() == WorldAt(job, old(Now()), job.tsv.Keys)
    {
      ghost var was := Now();
      hide Careful, Replay, Placed, NormalText, MemoryAt, UserAt, ContentAt, HasFront, ReportDispatch, Dispatched,
           WorldAt, Adjudicated;
      report, content := NO_REPORT, map[];
      WorldAtNone(job, was);
      DoneAll(names, job.tsv);
      var i := 0;
      while i < |names|
        invariant 0 <= i <= |names|
        invariant Logged() && start == old(start) && Careful(start, log, job.tsv)
        invariant Now() == WorldAt(job, was, if dryRun then {} else Done(names, i))
        invariant content == ContentAt(job, was.memory, Done(names, i))
        invariant report == DispatchReport(job, was.memory, names[..i])
        invariant forall name <- Done(names, i) | job.tsv[name].Lives? :: HasFront(was.memory[name])
      {
        DoneStep(names, i, job.tsv);
        ok, content, report := DispatchOne(job, names[i], dryRun, content, report, Done(names, i), was);
        if !ok {
          return;
        }
        i := i + 1;
      }
      AllDispatched(job, was);
      ok := true;
    }

    method LinkAll(job: Job, names: seq<string>, dryRun: bool, merged: Dir, before: Report, ghost was: World)
      returns (report: Report)
      requires Logged() && Careful(start, log, job.tsv) && Enumerates(names, job.tsv)
      requires was.memory.Keys == job.tsv.Keys && Adjudicated(job.tsv) && merged == AfterMerge(job, was.memory)
      requires Now() == if dryRun then was else Placed(job, was, merged)
      modifies this
      ensures Logged() && start == old(start) && Careful(start, log, job.tsv)
      ensures Now() == if dryRun then was else Placed(job, was, Planned(job, was.memory))
      ensures merged.Keys == Surviving(job.tsv).Keys && report == LinkReport(job, merged, names, before)
    {
      hide Careful, Replay, Placed, AfterMerge, LinkedAt, Rewritten, ReportLinks, Planned, Adjudicated, Lines, BodyOf,
        Surviving, Enumerates;
      LinkedEnds(job, was.memory);
      DoneAll(names, job.tsv);
      var content, i := merged, 0;
      report := before;
      while i < |names|
        invariant 0 <= i <= |names|
        invariant Logged() && start == old(start) && Careful(start, log, job.tsv)
        invariant content == LinkedAt(job, merged, Done(names, i))
        invariant Now() == if dryRun then was else Placed(job, was, content)
        invariant report == LinkReport(job, merged, names[..i], before)
      {
        DoneStep(names, i, job.tsv);
        LinkedStep(job, merged, Done(names, i), names[i]);
        if names[i] in content {
          content, report := LinkOne(job, names[i], dryRun, content, report, was);
        }
        i := i + 1;
      }
    }

    /** `plan_and_execute`: a dry run and a real run return the same report, and a real run leaves the
        planned texts in their layers. */
    method PlanAndExecute(job: Job, names: seq<string>, dryRun: bool) returns (report: Option<Report>)
      requires Logged() && Careful(start, log, job.tsv)
      requires Prechecked(Now(), job) && Enumerates(names, job.tsv)
      modifies this
      ensures Logged() && start == old(start) && Careful(start, log, job.tsv)
      ensures dryRun ==> Now() == old(Now())
      ensures report.Some? <==> Runnable(job, old(memory))
      ensures report.Some? ==> report.value == PlannedReport(job, old(memory), names)
      ensures report.Some? && !dryRun ==> Now() == Placed(job, old(Now()), Planned(job, old(memory)))
    {
      hide Careful, Replay, Placed, AfterMerge, Dispatched, DispatchReport, LinkReport, ReportMerge, Planned, Runnable;
      ghost var was := Now();
      var ok, content, r := DispatchAll(job, names, dryRun);
      if !ok {
        return None;
      }
      content, r := Merge(job, dryRun, content, r, was);
      r := LinkAll(job, names, dryRun, content, r, was);
      report := Some(r);
    }

    // ---- Step 1 ----------------------------------------------------------------------------------

    /** Copy the pool and write the manifest; neither layer is touched, wherever this is cut short. */
    method TakeBackup(tsv: Tsv, hash: string)
      requires memory.Keys == tsv.Keys && user.Keys !! tsv.Keys
      modifies this`backup
      ensures BackedUp(Now(), tsv, hash)
    {
      hide Copied;
      var copied, todo := map[], memory.Keys;
      NoneCopied(memory);
      backup := Some(Backup(copied, None));
      while todo != {}
        invariant todo <= memory.Keys && Copied(memory, copied, todo)
        invariant backup == Some(Backup(copied, None))
        decreases |todo|
      {
        var name :| name in todo;
        CopiedOne(memory, copied, todo, name);
        copied, todo := copied[name := memory[name]], todo - {name};
        backup := Some(Backup(copied, None));
      }
      backup := Some(Backup(copied, Some(Manifest(tsv.Keys, user.Keys - tsv.Keys, hash))));
      ApartDifference(user.Keys, tsv.Keys);
      AllCopied(memory, copied);
    }

    // ---- Rollback --------------------------------------------------------------------------------

    /** `do_rollback`: restores exactly the owned files, and only when the backup is complete. */
    method DoRollback() returns (code: nat)
      requires Logged()
      modifies this
      ensures Logged() && start == old(start)
      ensures old(backup).None? ==> Now() == old(Now()) && code == 0
      ensures old(backup).Some? && !Complete(old(backup).value) ==> Now() == old(Now()) && code == 1
      ensures old(backup).Some? && Complete(old(backup).value) ==>
                && Now() == RolledBack(old(Now()))
                && (code == 0 <==> old(backup).value.manifest.value.foreign <= user.Keys)
                && exists ops :: log == old(log) + ops + [DropBackup]
                              && forall op <- ops :: OnOwned(op, old(backup).value.manifest.value.owned)
    {
      if backup.None? {
        return 0;
      }
      if !Complete(backup.value) {
        return 1;
      }
      var files, manifest := backup.value.files, backup.value.manifest.value;
      ghost var was := Now();
      hide Replay, OnOwned;
      ClearOwned(Agent, manifest.owned);
      RestoreOwned(files, manifest.owned);
      ClearOwned(User, manifest.owned);
      ghost var ops := log[|old(log)|..];
      assert log == old(log) + ops;
      DeleteBackup();
      code := if manifest.foreign <= user.Keys then 0 else 1;
    }

    /** Remove the owned files a layer holds. */
    method ClearOwned(layer: Layer, owned: set<string>)
      requires Logged()
      modifies this
      ensures Logged() && start == old(start)
      ensures OwnedSince(old(log), log, owned)
      ensures Now() == Without(old(Now()), layer, owned)
    {
      hide Replay, OwnedSince, Without;
      OwnedSame(log, owned);
      var todo := owned * (if layer == Agent then memory else user).Keys;
      WithoutNothing(Now(), layer, owned, todo);
      while todo != {}
        invariant Logged() && start == old(start)
        invariant todo <= owned
        invariant todo <= (if layer == Agent then memory else user).Keys
        invariant OwnedSince(old(log), log, owned)
        invariant Without(Now(), layer, todo) == Without(old(Now()), layer, owned)
        decreases |todo|
      {
        var name :| name in todo;
        WithoutOne(Now(), layer, todo, name);
        OwnedMore(old(log), log, RemoveFile(layer, name), owned);
        Remove(layer, name);
        todo := todo - {name};
      }
      WithoutNone(Now(), layer);
    }

    /** Copy the backup over memory/. */
    method RestoreOwned(files: Dir, owned: set<string>)
      requires Logged() && files.Keys == owned
      modifies this
      ensures Logged() && start == old(start) && backup == old(backup) && user == old(user)
      ensures OwnedSince(old(log), log, owned)
      ensures memory == old(memory) + files
    {
      var todo := owned;
      while todo != {}
        invariant Logged() && start == old(start) && backup == old(backup) && user == old(user)
        invariant todo <= owned
        invariant OwnedSince(old(log), log, owned)
        invariant memory == old(memory) + (files - todo)
        decreases |todo|
      {
        var name :| name in todo;
        Write(Agent, name, files[name]);
        todo := todo - {name};
      }
    }

    // ---- The whole command -----------------------------------------------------------------------

    /** Steps 1 to 4 of an accepted run: back up, dispatch and merge, rewrite, check. */
    method RunSteps(job: Job, names: seq<string>, hash: string) returns (code: nat)
      requires Enumerates(names, job.tsv) && Prechecked(Now(), job)
      modifies this
      ensures code <= 1 && start.memory == old(memory) && start.user == old(user)
      ensures BackedUp(start, job.tsv, hash) && Logged() && Careful(start, log, job.tsv)
      ensures Runnable(job, old(memory)) ==> Now() == Placed(job, start, Planned(job, old(memory)))
      ensures code == 0 <==> Runnable(job, old(memory)) && InvariantsHold(job.tsv, Now(), |job.tsv|, job.fqid)
      ensures Runnable(job, old(memory)) ==> DetectState(job.tsv, Now(), Some(hash)) == Migrated
      ensures Runnable(job, old(memory)) && WellNamed(job) ==> (code == 0 <==> AllSound(job, old(Now())))
    {
      hide DetectState, InvariantsHold, Placed, Planned, Runnable, AllSound, WellNamed, Careful, Replay, Adjudicated;
      TakeBackup(job.tsv, hash);
      Begin();
      CarefulStart(Now(), job.tsv);
      var done := PlanAndExecute(job, names, false);
      if done.None? {
        return 1;
      }
      CompletedRunIsMigrated(job, start, hash);
      if WellNamed(job) {
        CompletedRunPasses(job, start, hash);
        SoundIgnoresBackup(job, start, old(Now()));
      }
      code := if InvariantsHold(job.tsv, World(memory, user, backup), |job.tsv|, job.fqid) then 0 else 1;
    }

    /** `_main_impl` without `--rollback`: the exit code of a forward run. */
    method Migrate(job: Job, names: seq<string>, hash: string, ackSingleOwner: bool, dryRun: bool) returns (code: nat)
      requires Enumerates(names, job.tsv)
      modifies this
      ensures code <= 1
      // A refused run, a dry run and a re-run of a finished one write nothing.
      ensures dryRun || !Accepted(old(Now()), job, ackSingleOwner) ==> Now() == old(Now())
      ensures DetectState(job.tsv, old(Now()), Some(hash)) == Migrated && Adjudicated(job.tsv) ==>
                (code == 0 <==> InvariantsHold(job.tsv, old(Now()), |job.tsv|, job.fqid))
      ensures DetectState(job.tsv, old(Now()), Some(hash)) == Partial ==> code == 1
      // An accepted run backs the pool up and then only touches owned files, holding every survivor.
      ensures !dryRun && Accepted(old(Now()), job, ackSingleOwner) ==>
                && BackedUp(start, job.tsv, hash) && start.memory == old(memory) && start.user == old(user)
                && Logged() && Careful(start, log, job.tsv)
                && (Runnable(job, old(memory)) ==> Now() == Placed(job, start, Planned(job, old(memory))))
                && (code == 0 <==> Runnable(job, old(memory)) && InvariantsHold(job.tsv, Now(), |job.tsv|, job.fqid))
      // When it runs to the end a re-run is a no-op, and it succeeds exactly on a sound pool.
      ensures !dryRun && Accepted(old(Now()), job, ackSingleOwner) && Runnable(job, old(memory)) ==>
                && DetectState(job.tsv, Now(), Some(hash)) == Migrated
                && (WellNamed(job) ==> (code == 0 <==> AllSound(job, old(Now()))))
    {
      hide DetectState, InvariantsHold, Placed, Planned, Runnable, AllSound, WellNamed, Careful, Replay, Adjudicated,
        BackedUp, OwnersAccepted;
      FreshIffNoBackup(job.tsv, Now(), hash);
      if !Adjudicated(job.tsv) {
        return 1;
      }
      var state := DetectState(job.tsv, World(memory, user, backup), Some(hash));
      if state == Migrated {
        return if InvariantsHold(job.tsv, World(memory, user, backup), |job.tsv|, job.fqid) then 0 else 1;
      }
      if state == Partial {
        return 1;
      }
      if memory.Keys != job.tsv.Keys {
        return 1;
      }
      if !OwnersAccepted(job, memory, ackSingleOwner, dryRun) {
        return 1;
      }
      if job.tsv.Keys * user.Keys != {} {
        return 1;
      }
      NothingShared(job.tsv.Keys, user.Keys);
      if dryRun {
        Begin();
        CarefulStart(Now(), job.tsv);
        var plan := PlanAndExecute(job, names, true);
        return if plan.Some? then 0 else 1;
      }
      code := RunSteps(job, names, hash);
    }
  }

  lemma NothingShared(a: set<string>, b: set<string>)
    requires a * b == {}
    ensures b !! a
  {
    assert forall x :: x in a && x in b ==> x in a * b;
  }

  /** The pool passes every precheck of a mutating run. */
  predicate Accepted(w: World, job: Job, ackSingleOwner: bool) {
    && Adjudicated(job.tsv)
    && w.backup.None?
    && w.memory.Keys == job.tsv.Keys
    && OwnersAccepted(job, w.memory, ackSingleOwner, false)
    && job.tsv.Keys * w.user.Keys == {}
  }

  /** While dispatch goes on, a run is seen as finished exactly when every name that leaves memory/ has been
      dispatched and there is nothing to merge. */
  lemma StateDuringDispatch(job: Job, was: World, hash: string, done: set<string>)
    requires Prechecked(was, job) && BackedUp(was, job.tsv, hash)
    ensures DetectState(job.tsv, WorldAt(job, was, done), Some(hash))
            == if (forall name | LeavesMemory(job.tsv, name) :: name in done) && !Merges(job.tsv) then Migrated
               else Partial
  {
    hide NormalText, Adjudicated, NamesIn, LeavesMemory;
    var w := WorldAt(job, was, done);
    DispatchedMemory(job, was, done);
    if (forall name | LeavesMemory(job.tsv, name) :: name in done) && !Merges(job.tsv) {
      DispatchedUser(job, was, done);
      FinalsApart(job.tsv);
      DeletedAreForeign(job, was);
    }
  }

  lemma DispatchedMemory(job: Job, was: World, done: set<string>)
    requires Prechecked(was, job)
    ensures MemoryAt(job, was.memory, done).Keys == NamesIn(job.tsv, Lives(Agent))
            <==> (forall name | LeavesMemory(job.tsv, name) :: name in done) && !Merges(job.tsv)
  {
    hide NormalText, Adjudicated;
    var memory := MemoryAt(job, was.memory, done);
    forall name | name in job.tsv
      ensures name in memory <==> !(name in done && LeavesMemory(job.tsv, name))
      ensures job.tsv[name] == Lives(Agent)
              <==> !LeavesMemory(job.tsv, name) && !(job.tsv[name].Deleted? && name == MERGE_SOURCE)
    {
      match job.tsv[name]
      case Lives(Agent) =>
      case Lives(User) =>
      case Deleted =>
    }
    if memory.Keys == NamesIn(job.tsv, Lives(Agent)) {
      forall name | LeavesMemory(job.tsv, name)
        ensures name in done
      {
        assert name !in NamesIn(job.tsv, Lives(Agent)) && name !in memory.Keys;
      }
      assert Merges(job.tsv) ==> MERGE_SOURCE in memory.Keys;
    }
  }

  lemma DispatchedUser(job: Job, was: World, done: set<string>)
    requires Prechecked(was, job) && forall name | LeavesMemory(job.tsv, name) :: name in done
    ensures UserAt(job, was.memory, was.user, done).Keys == NamesIn(job.tsv, Lives(User)) + was.user.Keys
  {
    hide NormalText, Adjudicated;
    forall name | name in NamesIn(job.tsv, Lives(User))
      ensures name in done
    {
      assert LeavesMemory(job.tsv, name);
    }
  }

  lemma DeletedAreForeign(job: Job, was: World)
    requires Prechecked(was, job)
    ensures NamesIn(job.tsv, Deleted) !! was.user.Keys
  {
    hide Adjudicated;
  }

  /** From the merge on the names are those of a finished run, whatever the texts hold: a run cut while its
      links are rewritten is not told from a finished one. */
  lemma StateAfterDispatch(job: Job, was: World, hash: string, texts: Dir)
    requires Prechecked(was, job) && BackedUp(was, job.tsv, hash) && texts.Keys == Surviving(job.tsv).Keys
    ensures DetectState(job.tsv, Placed(job, was, texts), Some(hash)) == Migrated
  {
    PlacedNames(job, was, texts);
    FinalsApart(job.tsv);
    DeletedAreForeign(job, was);
    hide NamesIn, InLayer, Adjudicated, Surviving;
  }

  lemma FreshIffNoBackup(tsv: Tsv, w: World, hash: string)
    ensures DetectState(tsv, w, Some(hash)) == Fresh <==> w.backup.None?
  {
  }

  lemma CarefulStart(w: World, tsv: Tsv)
    requires tsv.Keys <= w.memory.Keys
    ensures Careful(w, [], tsv)
  {
    var none: seq<Op> := [];
    assert forall k | 0 <= k <= |none| :: none[..k] == [];
  }

  /** A forward run cut anywhere, even inside a write, and then any rollbacks that were themselves cut
      before the backup goes (`retries`): the next rollback gives back the world the run started from. */
  lemma ForwardRunRollsBack(start: World, ops: seq<Op>, tsv: Tsv, hash: string, k: nat, torn: Op, retries: seq<Op>)
    requires start.memory.Keys == tsv.Keys && start.user.Keys !! tsv.Keys && BackedUp(start, tsv, hash)
    requires Careful(start, ops, tsv) && k < |ops| && TornFrom(torn, ops[k])
    requires forall op <- retries :: OnOwned(op, tsv.Keys)
    ensures RolledBackFrom(Replay(Replay(start, ops[..k]), retries), start)
    ensures RolledBackFrom(Replay(Step(Replay(start, ops[..k]), torn), retries), start)
  {
    hide Held;
    assert start.user - tsv.Keys == start.user;
    OwnedOpsRecoverable(start, start, ops[..k], tsv.Keys);
    var cut := ops[..k] + [torn];
    assert cut[..k] == ops[..k] && OnOwned(ops[k], tsv.Keys);
    OwnedOpsRecoverable(start, start, cut, tsv.Keys);
    OwnedOpsRecoverable(start, Replay(start, ops[..k]), retries, tsv.Keys);
    OwnedOpsRecoverable(start, Replay(start, cut), retries, tsv.Keys);
    RecoverableRollsBack(Replay(Replay(start, ops[..k]), retries), start, tsv.Keys);
    RecoverableRollsBack(Replay(Replay(start, cut), retries), start, tsv.Keys);
  }

  /** The world with the files of `names` gone from one layer. */
  function Without(w: World, layer: Layer, names: set<string>): World {
    match layer
    case Agent => w.(memory := w.memory - names)
    case User => w.(user := w.user - names)
  }

  lemma WithoutNothing(w: World, layer: Layer, owned: set<string>, todo: set<string>)
    requires todo == owned * (if layer == Agent then w.memory else w.user).Keys
    ensures Without(w, layer, todo) == Without(w, layer, owned)
  {
    assert layer == Agent ==> w.memory - todo == w.memory - owned;
    assert layer == User ==> w.user - todo == w.user - owned;
  }

  lemma WithoutOne(w: World, layer: Layer, todo: set<string>, name: string)
    requires name in todo
    ensures Without(Step(w, RemoveFile(layer, name)), layer, todo - {name}) == Without(w, layer, todo)
  {
    assert w.memory - {name} - (todo - {name}) == w.memory - todo;
    assert w.user - {name} - (todo - {name}) == w.user - todo;
  }

  lemma WithoutNone(w: World, layer: Layer)
    ensures Without(w, layer, {}) == w
  {
    assert w.memory - {} == w.memory && w.user - {} == w.user;
  }

  /** `after` extends `before` by operations on owned files. */
  ghost predicate OwnedSince(before: seq<Op>, after: seq<Op>, owned: set<string>) {
    before <= after && forall i | |before| <= i < |after| :: OnOwned(after[i], owned)
  }

  lemma OwnedSame(log: seq<Op>, owned: set<string>)
    ensures OwnedSince(log, log, owned)
  {
  }

  lemma OwnedMore(before: seq<Op>, after: seq<Op>, op: Op, owned: set<string>)
    requires OwnedSince(before, after, owned) && OnOwned(op, owned)
    ensures OwnedSince(before, after + [op], owned)
  {
  }

  lemma SourceIsNotTarget()
    ensures MERGE_SOURCE != MERGE_TARGET
  {
    assert |MERGE_SOURCE| != |MERGE_TARGET|;
  }
}
