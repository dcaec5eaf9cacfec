/** The writer thread, readers building the vector cache, and whoever clears it, in any
    interleaving. */
module CacheProtocol {
  import opened Wrappers
  import opened Knowledge
  import opened Invariants
  import opened Runs
  import opened Vectors
  import opened Coherence

  /** The cache behind its lock: free (built or not), or held by a reader that builds it. */
  datatype Slot = Free(cache: Option<View>) | Building(read: Option<View>)

  /** The committed tables, the changes of the last commit while they wait to be applied, and
      the cache. There is one writer thread: at most one batch waits. */
  datatype World = World(db: Db, pending: Option<seq<Change>>, slot: Slot)

  datatype Step =
    | Commit(command: Command)
    | ApplyPending
    | BeginBuild
    | ReadRows
    | FinishBuild
    | FailBuild
    | Clear

  ghost predicate Enabled(outside: Outside, w: World, step: Step) {
    match step
    case Commit(command) => w.pending.None? && Honest(outside, command)
    case ApplyPending => w.pending.Some? && (w.pending.value == [] || w.slot.Free?)
    case BeginBuild => w.slot == Free(None)
    case ReadRows => w.slot == Building(None)
    case FinishBuild => w.slot.Building? && w.slot.read.Some?
    case FailBuild => w.slot.Building?
    case Clear => w.slot.Free?
  }

  /** Nothing to apply takes no lock; an unbuilt cache has nothing to apply to. */
  function Applied(slot: Slot, changes: seq<Change>): Slot
    requires changes == [] || slot.Free?
  {
    if changes == [] || slot.cache.None? then slot else Free(Some(ApplyAll(slot.cache.value, changes)))
  }

  ghost function Next(outside: Outside, w: World, step: Step): World
    requires Valid(outside, w.db) && Enabled(outside, w, step)
  {
    match step
    case Commit(command) =>
      var written := Exec(outside, w.db, command);
      World(written.db, if written.value then Some(written.changes) else None, w.slot)
    case ApplyPending => w.(pending := None, slot := Applied(w.slot, w.pending.value))
    case BeginBuild => w.(slot := Building(None))
    case ReadRows => w.(slot := Building(Some(ViewOf(w.db.nodes))))
    case FinishBuild => w.(slot := Free(w.slot.read))
    case FailBuild => w.(slot := Free(None))
    case Clear => w.(slot := Free(None))
  }

  function Waiting(w: World): seq<Change> {
    if w.pending.Some? then w.pending.value else []
  }

  function Held(w: World): Option<View> {
    match w.slot
    case Free(cache) => cache
    case Building(read) => read
  }

  /** Applying the waiting batch makes the cache the database's vectors; and applying it to the
      database's own vectors changes nothing. */
  ghost predicate Coherent(w: World) {
    && (Held(w).Some? ==> ApplyAll(Held(w).value, Waiting(w)) == ViewOf(w.db.nodes))
    && ApplyAll(ViewOf(w.db.nodes), Waiting(w)) == ViewOf(w.db.nodes)
  }

  ghost predicate Good(outside: Outside, w: World) {
    Valid(outside, w.db) && Coherent(w)
  }

  /** Any tables that keep the invariants, nothing pending and the cache not built. */
  ghost predicate Starts(outside: Outside, w: World) {
    Valid(outside, w.db) && w.pending.None? && w.slot == Free(None)
  }

  lemma StartIsGood(outside: Outside, w: World)
    requires Starts(outside, w)
    ensures Good(outside, w)
  {
    assert ApplyAll(ViewOf(w.db.nodes), []) == ViewOf(w.db.nodes);
  }

  lemma StepKeeps(outside: Outside, w: World, step: Step)
    requires Good(outside, w) && Enabled(outside, w, step)
    ensures Good(outside, Next(outside, w, step))
  {
    hide Valid;
    if step.Commit? {
      CommitKeeps(outside, w, step.command);
    }
  }

  lemma CommitKeeps(outside: Outside, w: World, command: Command)
    requires Good(outside, w) && w.pending.None? && Honest(outside, command)
    ensures Good(outside, Next(outside, w, Commit(command)))
  {
    hide Valid;
    var written := Exec(outside, w.db, command);
    ExecKeeps(outside, w.db, command);
    ExecComplete(outside, w.db, command);
    AppliedTwice(ViewOf(w.db.nodes), written.changes);
    hide ViewOf;
    assert Waiting(w) == [];
    assert Waiting(Next(outside, w, Commit(command))) == written.changes;
  }

  ghost predicate StepsTo(outside: Outside, w: World, step: Step, next: World) {
    Valid(outside, w.db) ==> Enabled(outside, w, step) && next == Next(outside, w, step)
  }

  /** A run of the protocol from any Brain that is opened, an empty or a migrated one. */
  ghost predicate IsRun(outside: Outside, worlds: seq<World>, steps: seq<Step>) {
    && |worlds| == |steps| + 1 && Starts(outside, worlds[0])
    && forall i :: 0 <= i < |steps| ==> StepsTo(outside, worlds[i], steps[i], worlds[i + 1])
  }

  /** In every interleaving, the cache with the waiting batch is the database's vectors. */
  lemma {:induction false} AlwaysCoherent(outside: Outside, worlds: seq<World>, steps: seq<Step>, i: nat)
    requires IsRun(outside, worlds, steps) && i < |worlds|
    ensures Good(outside, worlds[i])
    decreases i
  {
    hide Valid, Coherent, Next, Enabled;
    if i == 0 {
      StartIsGood(outside, worlds[0]);
    } else {
      AlwaysCoherent(outside, worlds, steps, i - 1);
      assert StepsTo(outside, worlds[i - 1], steps[i - 1], worlds[i]);
      StepKeeps(outside, worlds[i - 1], steps[i - 1]);
    }
  }

  /** So a built cache with nothing waiting holds exactly the database's vectors. */
  lemma SettledCacheIsExact(outside: Outside, worlds: seq<World>, steps: seq<Step>, i: nat)
    requires IsRun(outside, worlds, steps) && i < |worlds|
    requires worlds[i].slot.Free? && worlds[i].slot.cache.Some? && Waiting(worlds[i]) == []
    ensures worlds[i].slot.cache.value == ViewOf(worlds[i].db.nodes)
  {
    AlwaysCoherent(outside, worlds, steps, i);
  }

  /** What is left to do until the cache is built and nothing waits. */
  function Rest(w: World): seq<Step> {
    var apply := if w.pending.Some? then [ApplyPending] else [];
    match w.slot
    case Free(None) => [BeginBuild, ReadRows, FinishBuild] + apply
    case Free(Some(_)) => apply
    case Building(None) => [ReadRows, FinishBuild] + apply
    case Building(Some(_)) => [FinishBuild] + apply
  }

  ghost predicate Takes(outside: Outside, w: World, steps: seq<Step>, after: World)
    decreases |steps|
  {
    if steps == [] then after == w
    else Valid(outside, w.db) && Enabled(outside, w, steps[0]) && Takes(outside, Next(outside, w, steps[0]), steps[1..], after)
  }

  /** Wherever a run stands, nothing stands in the way of what is left to do, and it ends with a built
      cache that is exactly the database's vectors. */
  lemma {:induction false} NeverStuck(outside: Outside, w: World)
    requires Good(outside, w)
    ensures Takes(outside, w, Rest(w), World(w.db, None, Free(Some(ViewOf(w.db.nodes)))))
    decreases |Rest(w)|
  {
    hide Valid, ViewOf;
    if Rest(w) != [] {
      var step := Rest(w)[0];
      assert Enabled(outside, w, step);
      StepKeeps(outside, w, step);
      var next := Next(outside, w, step);
      assert Rest(next) == Rest(w)[1..] && next.db == w.db;
      hide Good;
      NeverStuck(outside, next);
    }
  }

  /** A build ends with what it read, and only once it has read; a batch without changes waits for no one. */
  lemma BuildsFromRead(outside: Outside, w: World)
    requires Valid(outside, w.db)
    ensures Enabled(outside, w, FinishBuild) ==>
      w.slot.Building? && Held(w).Some? && Next(outside, w, FinishBuild).slot == Free(Held(w))
    ensures w.pending == Some([]) ==>
      Enabled(outside, w, ApplyPending) && Next(outside, w, ApplyPending) == w.(pending := None)
  {
    hide Valid;
  }
}
