/** The ledger run call by call: loading the stream, recording, removing and disposing. */
module Cleanup {
  import opened Ledger

  const PAGE: nat := 1_000

  type Artifacts = map<Owner, seq<Artifact>>

  ghost function Holdings(artifacts: Artifacts): set<Held> {
    set owner, i | owner in artifacts && 0 <= i < |artifacts[owner]| :: Held(owner, artifacts[owner][i])
  }

  lemma HoldingsAre(artifacts: Artifacts, h: Held)
    ensures h in Holdings(artifacts) <==> h.owner in artifacts && h.artifact in artifacts[h.owner]
  {
    if h.owner in artifacts && h.artifact in artifacts[h.owner] {
      var i :| 0 <= i < |artifacts[h.owner]| && artifacts[h.owner][i] == h.artifact;
      assert Held(h.owner, artifacts[h.owner][i]) in Holdings(artifacts);
    }
  }

  function ListOf(artifacts: Artifacts, owner: Owner): seq<Artifact> {
    if owner in artifacts then artifacts[owner] else []
  }

  function Kept(list: seq<Artifact>, removed: seq<Artifact>): seq<Artifact> {
    if list == [] then []
    else
      var last := list[|list| - 1];
      Kept(list[..|list| - 1], removed) + if last in removed then [] else [last]
  }

  lemma {:induction false} KeptIs(list: seq<Artifact>, removed: seq<Artifact>)
    ensures forall a :: a in Kept(list, removed) <==> a in list && a !in removed
  {
    if list != [] {
      KeptIs(list[..|list| - 1], removed);
    }
  }

  lemma Pushed(artifacts: Artifacts, owner: Owner, artifact: Artifact)
    ensures Holdings(artifacts[owner := ListOf(artifacts, owner) + [artifact]]) == Holdings(artifacts) + {Held(owner, artifact)}
  {
    var after := artifacts[owner := ListOf(artifacts, owner) + [artifact]];
    forall h ensures h in Holdings(after) <==> h in Holdings(artifacts) + {Held(owner, artifact)} {
      HoldingsAre(artifacts, h);
      HoldingsAre(after, h);
    }
  }

  lemma Retained(artifacts: Artifacts, after: Artifacts, owner: Owner, removed: seq<Artifact>)
    requires owner in artifacts
    requires after == artifacts[owner := Kept(artifacts[owner], removed)]
      || (Kept(artifacts[owner], removed) == [] && after == artifacts - {owner})
    ensures Holdings(after) == Holdings(artifacts) - HeldOf(owner, removed)
  {
    KeptIs(artifacts[owner], removed);
    forall h ensures h in Holdings(after) <==> h in Holdings(artifacts) - HeldOf(owner, removed) {
      HoldingsAre(artifacts, h);
      HoldingsAre(after, h);
      assert h in HeldOf(owner, removed) <==> h.owner == owner && h.artifact in removed;
    }
  }

  lemma NothingRetained(artifacts: Artifacts, owner: Owner, removed: seq<Artifact>)
    requires owner !in artifacts
    ensures Holdings(artifacts) == Holdings(artifacts) - HeldOf(owner, removed)
  {
  }

  lemma OwnerDropped(artifacts: Artifacts, owner: Owner)
    ensures Holdings(artifacts - {owner}) == set h | h in Holdings(artifacts) && h.owner != owner
  {
    forall h ensures h in Holdings(artifacts - {owner}) <==> h in Holdings(artifacts) && h.owner != owner {
      HoldingsAre(artifacts, h);
      HoldingsAre(artifacts - {owner}, h);
    }
  }

  predicate IsProcess(artifact: Artifact) {
    artifact.Process? || artifact.ProcessesIn?
  }

  /** Folds the stream, page by page. */
  method Load(log: Log) returns (artifacts: Artifacts, disposing: set<Owner>)
    ensures Reloaded(log) == Known(Holdings(artifacts), disposing)
    ensures forall owner :: owner in artifacts ==> artifacts[owner] != []
  {
    artifacts, disposing := map[], {};
    var after := 0;
    while true
      invariant after <= |log| && Reloaded(log[..after]) == Known(Holdings(artifacts), disposing)
      decreases |log| - after
    {
      var page := log[after..if after + PAGE < |log| then after + PAGE else |log|];
      for i := 0 to |page|
        invariant after + |page| <= |log|
        invariant Reloaded(log[..after + i]) == Known(Holdings(artifacts), disposing)
      {
        assert log[..after + i + 1][..after + i] == log[..after + i] && page[i] == log[after + i];
        artifacts, disposing := Read(artifacts, disposing, page[i]);
      }
      after := after + |page|;
      if |page| < PAGE {
        break;
      }
    }
    assert log[..after] == log;
    ghost var before := artifacts;
    artifacts := map owner | owner in artifacts && artifacts[owner] != [] :: artifacts[owner];
    forall h ensures h in Holdings(artifacts) <==> h in Holdings(before) {
      HoldingsAre(artifacts, h);
      HoldingsAre(before, h);
    }
  }

  method Read(known: Artifacts, marked: set<Owner>, e: Event) returns (artifacts: Artifacts, disposing: set<Owner>)
    ensures Known(Holdings(artifacts), disposing) == Noted(Known(Holdings(known), marked), e)
  {
    artifacts, disposing := known, marked;
    match e {
      case Recorded(owner, artifact) =>
        HoldingsAre(known, Held(owner, artifact));
        if artifact !in ListOf(known, owner) {
          artifacts := known[owner := ListOf(known, owner) + [artifact]];
          Pushed(known, owner, artifact);
        }
      case Removed(owner, removed) =>
        NothingRetainedOr(known, owner, removed);
        if owner in known {
          artifacts := known[owner := Kept(known[owner], removed)];
          Retained(known, artifacts, owner, removed);
        }
      case Requested(owner) => disposing := marked + {owner};
      case Completed(owner) =>
        OwnerDropped(known, owner);
        artifacts, disposing := known - {owner}, marked - {owner};
    }
  }

  lemma NothingRetainedOr(artifacts: Artifacts, owner: Owner, removed: seq<Artifact>)
    ensures owner !in artifacts ==> Holdings(artifacts) == Holdings(artifacts) - HeldOf(owner, removed)
  {
    if owner !in artifacts {
      NothingRetained(artifacts, owner, removed);
    }
  }

  predicate Distinct(list: seq<Artifact>) {
    forall i, j :: 0 <= i < j < |list| ==> list[i] != list[j]
  }

  /** A provider removes these together. */
  predicate Batched(artifact: Artifact) {
    artifact.Files? && (artifact.store == Claude || artifact.store == Codex)
  }

  predicate OneProvider(a: Artifact, b: Artifact) {
    Batched(a) && Batched(b) && a.store == b.store
  }

  /** The entry that strikes artifacts, if there are any. */
  function Struck(owner: Owner, removed: seq<Artifact>): Log {
    if removed == [] then [] else [Removed(owner, removed)]
  }

  class CleanupLedger {
    /** The stored stream, and the world: what exists. */
    var log: Log
    var present: set<Held>

    var artifacts: Artifacts
    var disposing: set<Owner>

    /** Memory is what loading would give, but that a disposal that ended is only marked in the
        log; and whatever exists, processes aside, is held. */
    ghost predicate Valid()
      reads this
    {
      && Holdings(artifacts) == Reloaded(log).held
      && disposing <= Reloaded(log).disposing
      && forall h :: h in present && !h.artifact.Process? ==> h in Holdings(artifacts)
    }

    constructor (log: Log, present: set<Held>)
      requires forall h :: h in present && !h.artifact.Process? ==> h in Reloaded(log).held
      ensures Valid() && this.log == log && this.present == present
      ensures Known(Holdings(artifacts), disposing) == Reloaded(log)
    {
      this.log, this.present := log, present;
      artifacts, disposing := map[], {};
      new;
      var a, d := Load(log);
      artifacts, disposing := a, d;
    }

    /** Afterwards the log and memory both hold the artifact; the log first, and each once. */
    method Record(owner: Owner, artifact: Artifact)
      requires Valid()
      modifies this`log, this`artifacts
      ensures Valid() && Holdings(artifacts) == old(Holdings(artifacts)) + {Held(owner, artifact)}
      ensures old(Held(owner, artifact) in Holdings(artifacts)) ==> log == old(log)
    {
      HoldingsAre(artifacts, Held(owner, artifact));
      if artifact in ListOf(artifacts, owner) {
        return;
      }
      OneMore(log, Recorded(owner, artifact));
      Pushed(artifacts, owner, artifact);
      log, artifacts := log + [Recorded(owner, artifact)], artifacts[owner := ListOf(artifacts, owner) + [artifact]];
    }

    /** Tries to remove one artifact; ending a process counts whether or not it succeeds. */
    method RemoveOne(h: Held) returns (gone: bool, ghost succeeds: bool)
      modifies this`present
      ensures present == if succeeds then old(present) - {h} else old(present)
      ensures gone <==> succeeds || h.artifact.Process?
    {
      var ends: bool := *;
      if ends {
        present := present - {h};
      }
      gone, succeeds := ends || h.artifact.Process?, ends;
    }

    /** A provider removes its files together: if any fails, none is acknowledged. */
    method RemoveFiles(owner: Owner, batch: seq<Artifact>) returns (gone: bool, ghost succeed: seq<bool>)
      requires forall a :: a in batch ==> a.Files?
      modifies this`present
      ensures present <= old(present) && old(present) <= present + HeldOf(owner, batch)
      ensures |succeed| == |batch| && (gone <==> forall k :: 0 <= k < |batch| ==> succeed[k])
      ensures gone ==> forall h :: h in HeldOf(owner, batch) ==> h !in present
    {
      gone, succeed := true, [];
      for i := 0 to |batch|
        invariant present <= old(present) && old(present) <= present + HeldOf(owner, batch)
        invariant |succeed| == i && (gone <==> forall k :: 0 <= k < i ==> succeed[k])
        invariant gone ==> forall k :: 0 <= k < i ==> Held(owner, batch[k]) !in present
      {
        assert batch[i] in batch;
        ghost var succeeds: bool;
        var one: bool;
        one, succeeds := RemoveOne(Held(owner, batch[i]));
        assert one == succeeds;
        ghost var more := succeed + [succeeds];
        assert forall k :: 0 <= k < i ==> more[k] == succeed[k];
        assert more[i] == succeeds;
        gone, succeed := gone && one, more;
      }
    }

    /** What is gone is struck from the log and memory, `removed` in one entry if there is any; what is
        not is kept in both. Processes always count as gone, and one provider's files go together. */
    method Remove(owner: Owner, asked: seq<Artifact>) returns (failures: nat, ghost removed: seq<Artifact>)
      requires Valid()
      modifies this`log, this`artifacts, this`present
      ensures Valid() && disposing == old(disposing)
      ensures present <= old(present) && old(present) <= present + HeldOf(owner, asked)
      ensures Holdings(artifacts) == old(Holdings(artifacts)) - HeldOf(owner, removed)
      ensures log == old(log) + Struck(owner, removed)
      ensures forall a :: a in removed ==> a in asked && (!a.Process? ==> Held(owner, a) !in present)
      ensures forall a :: a in asked && a.Process? ==> a in removed
      ensures forall a, b :: a in asked && b in asked && OneProvider(a, b) ==> (a in removed <==> b in removed)
      ensures failures == 0 ==> forall a :: a in asked ==> a in removed
      ensures Distinct(asked) && (forall a :: a in asked ==> a in removed) ==> failures == 0
      ensures forall o :: o in Reloaded(log).disposing <==> o in Reloaded(old(log)).disposing
    {
      hide Holdings, Reloaded;
      ghost var failed: int;
      var gone: seq<Artifact>, claude: seq<Artifact>, codex: seq<Artifact>;
      failures, gone, claude, codex, failed := RemoveEach(owner, asked);
      var claudeGone, _ := RemoveFiles(owner, claude);
      if claudeGone {
        gone := gone + claude;
      } else {
        assert claude[0] in claude && claude[0] in asked && claude[0] !in gone + codex;
        failures := failures + 1;
      }
      var codexGone, _ := RemoveFiles(owner, codex);
      if codexGone {
        gone := gone + codex;
      } else {
        assert codex[0] in codex && codex[0] in asked && codex[0] !in gone;
        failures := failures + 1;
      }
      removed := gone;
      if gone != [] {
        Acknowledge(owner, gone);
      }
    }

    /** Removes one by one what no provider removes, and sorts out what Claude's and Codex's do. */
    method RemoveEach(owner: Owner, asked: seq<Artifact>)
      returns (failures: nat, gone: seq<Artifact>, claude: seq<Artifact>, codex: seq<Artifact>, ghost failed: int)
      modifies this`present
      ensures present <= old(present) && old(present) <= present + HeldOf(owner, asked)
      ensures forall a :: a in claude <==> a in asked && a.Files? && a.store == Claude
      ensures forall a :: a in codex <==> a in asked && a.Files? && a.store == Codex
      ensures forall a :: a in gone ==> a in asked && !Batched(a) && (!a.Process? ==> Held(owner, a) !in present)
      ensures forall a :: a in asked && a.Process? ==> a in gone
      ensures failures == 0 ==> forall a :: a in asked && !Batched(a) ==> a in gone
      ensures failures > 0 ==>
        0 <= failed < |asked| && !Batched(asked[failed]) && (Distinct(asked) ==> asked[failed] !in gone)
    {
      failures, failed := 0, -1;
      gone, claude, codex := [], [], [];
      for i := 0 to |asked|
        invariant present <= old(present) && old(present) <= present + HeldOf(owner, asked)
        invariant forall a :: a in claude <==> a in asked[..i] && a.Files? && a.store == Claude
        invariant forall a :: a in codex <==> a in asked[..i] && a.Files? && a.store == Codex
        invariant forall a :: a in gone ==> a in asked[..i] && !Batched(a) && (!a.Process? ==> Held(owner, a) !in present)
        invariant forall a :: a in asked[..i] && a.Process? ==> a in gone
        invariant failures == 0 ==> forall a :: a in asked[..i] && !Batched(a) ==> a in gone
        invariant failures > 0 ==> 0 <= failed < i && !Batched(asked[failed]) && (Distinct(asked) ==> asked[failed] !in gone)
      {
        var artifact := asked[i];
        assert asked[..i + 1] == asked[..i] + [artifact];
        if artifact.Files? && artifact.store == Claude {
          claude := claude + [artifact];
        } else if artifact.Files? && artifact.store == Codex {
          codex := codex + [artifact];
        } else {
          var one, _ := RemoveOne(Held(owner, artifact));
          if one {
            gone := gone + [artifact];
          } else {
            failures, failed := failures + 1, i;
          }
        }
      }
      assert asked[..|asked|] == asked;
    }

    method Acknowledge(owner: Owner, removed: seq<Artifact>)
      requires Holdings(artifacts) == Reloaded(log).held && disposing <= Reloaded(log).disposing
      modifies this`log, this`artifacts
      ensures log == old(log) + [Removed(owner, removed)]
      ensures Holdings(artifacts) == old(Holdings(artifacts)) - HeldOf(owner, removed) == Reloaded(log).held
      ensures Reloaded(log).disposing == Reloaded(old(log)).disposing
    {
      OneMore(log, Removed(owner, removed));
      log := log + [Removed(owner, removed)];
      if owner in artifacts {
        var kept := Kept(artifacts[owner], removed);
        Retained(artifacts, if kept == [] then artifacts - {owner} else artifacts[owner := kept], owner, removed);
        artifacts := if kept == [] then artifacts - {owner} else artifacts[owner := kept];
      } else {
        NothingRetained(artifacts, owner, removed);
      }
    }

    /** Marks the owner and removes what it holds, processes before files; the mark goes when
        nothing is left. */
    method Dispose(owner: Owner) returns (failures: nat, ghost first: seq<Artifact>, ghost second: seq<Artifact>)
      requires Valid()
      modifies this
      ensures Valid() && owner in Reloaded(log).disposing
      ensures disposing == if exists h :: h in Holdings(artifacts) && h.owner == owner then old(disposing) + {owner} else old(disposing) - {owner}
      ensures log == old(log) + (if owner in old(disposing) then [] else [Requested(owner)]) + Struck(owner, first) + Struck(owner, second)
      ensures (forall a :: a in first ==> a.Process? || a.ProcessesIn?) && forall a :: a in second ==> a.Files?
      ensures failures == 0 ==> forall h :: h in Holdings(artifacts) ==> h.owner != owner
      ensures failures == 0 ==> forall h :: h in present && h.owner == owner ==> h.artifact.Process?
      ensures forall h: Held :: h.owner != owner ==> (h in Holdings(artifacts) <==> h in old(Holdings(artifacts))) && (h in present <==> h in old(present))
    {
      hide Holdings, Reloaded;
      if owner !in disposing {
        OneMore(log, Requested(owner));
        log, disposing := log + [Requested(owner)], disposing + {owner};
      }
      ghost var before := artifacts;
      var list := ListOf(artifacts, owner);
      var processes := Processes(list, true);
      var files := Processes(list, false);
      failures, first := Remove(owner, processes);
      var more: nat;
      more, second := Remove(owner, files);
      failures := failures + more;
      ProcessesAre(list);
      forall h ensures h in Holdings(before) <==> h.owner in before && h.artifact in before[h.owner] {
        HoldingsAre(before, h);
      }
      forall h ensures h in Holdings(artifacts) <==> h.owner in artifacts && h.artifact in artifacts[h.owner] {
        HoldingsAre(artifacts, h);
      }
      if ListOf(artifacts, owner) == [] {
        disposing := disposing - {owner};
      } else {
        assert artifacts[owner][0] in artifacts[owner] && Held(owner, artifacts[owner][0]) in Holdings(artifacts);
      }
    }
  }

  /** The processes of a list, or the others. */
  function Processes(list: seq<Artifact>, are: bool): seq<Artifact> {
    if list == [] then []
    else
      var last := list[|list| - 1];
      Processes(list[..|list| - 1], are) + if IsProcess(last) == are then [last] else []
  }

  lemma {:induction false} ProcessesAre(list: seq<Artifact>)
    ensures forall a :: a in Processes(list, true) <==> a in list && !a.Files?
    ensures forall a :: a in Processes(list, false) <==> a in list && a.Files?
  {
    if list != [] {
      ProcessesAre(list[..|list| - 1]);
    }
  }
}
