// Crash-safe publication of an artifact directory
// (contextual_orchestrator/nim_evidence.py, publish_artifact_set, _recover_publication, _remove_staging).
//
// Every filesystem primitive may complete, fail, or be the point where the process dies. A
// process that dies simply stops, leaving the disk as it is; the next publisher starts over.

module ArtifactPublication {
  import opened Prelude

  type Payload = seq<bv8>
  type Directory = map<string, Payload>

  // A step that raises had no effect yet, whether it failed or was interrupted; an interrupt may
  // also fall right after a step. A publication ends as Interrupted where that makes it raise
  // although its set is already committed.
  datatype Outcome = Returned | Raised | Interrupted | Crashed

  const ARTIFACT_NAMES: set<string> :=
    {"benchmark_report.json", "benchmark_cells.csv", "benchmark_summary.md", "run_provenance.json"}

  // The final directory and its private siblings. Residue names carry a unique number.
  datatype Disk = Disk(final: Option<Directory>, staging: map<nat, Directory>, backups: map<nat, Directory>)

  // The last committed set is in the final directory, or the final directory is missing and
  // the set is whole in some backup. Before any commit there is neither.
  ghost predicate Preserves(disk: Disk, committed: Option<Directory>) {
    match committed
    case None => disk.final == None && disk.backups == map[]
    case Some(dir) =>
      if disk.final.Some? then disk.final.value == dir
      else exists b :: b in disk.backups && disk.backups[b] == dir
  }

  // So a lone backup without a final directory can only be the committed set.
  lemma LoneBackupIsCommitted(disk: Disk, committed: Option<Directory>, b: nat)
    requires Preserves(disk, committed) && disk.final == None && disk.backups.Keys == {b}
    ensures committed == Some(disk.backups[b])
  {
    if committed.Some? {
      var c :| c in disk.backups && disk.backups[c] == committed.value;
      assert c in disk.backups.Keys;
    }
  }

  predicate ValidArtifacts(artifacts: Directory, validProvenance: Payload -> bool) {
    && artifacts.Keys == ARTIFACT_NAMES
    && (forall name :: name in artifacts ==> artifacts[name] != [])
    && validProvenance(artifacts["run_provenance.json"])
  }

  // Every step numbered in a stretch went through.
  ghost predicate Calm(fate: nat -> Outcome, from: nat, to: nat) {
    forall k :: from <= k < to ==> fate(k) == Returned
  }

  // Exactly one step of the stretch failed, and the process went on.
  ghost predicate OneFailure(fate: nat -> Outcome, from: nat, to: nat) {
    exists f :: from <= f < to && fate(f) == Raised && Calm(fate, from, f) && Calm(fate, f + 1, to)
  }

  // It lies in the first part or in the second; and nothing else than it went wrong.
  lemma OneFailureOn(fate: nat -> Outcome, from: nat, to: nat, next: nat)
    requires from <= to <= next
    ensures OneFailure(fate, from, next) ==>
      (OneFailure(fate, from, to) && Calm(fate, to, next)) || (Calm(fate, from, to) && OneFailure(fate, to, next))
    ensures OneFailure(fate, from, next) ==> forall k :: from <= k < next ==> fate(k) == Returned || fate(k) == Raised
  {
    if OneFailure(fate, from, next) {
      var f :| from <= f < next && fate(f) == Raised && Calm(fate, from, f) && Calm(fate, f + 1, next);
      forall k | from <= k < next ensures fate(k) == Returned || fate(k) == Raised {
        if k < f { assert Calm(fate, from, f); }
      }
    }
  }

  lemma CalmOn(fate: nat -> Outcome, from: nat, to: nat, next: nat)
    requires from <= to <= next
    ensures Calm(fate, from, next) <==> Calm(fate, from, to) && Calm(fate, to, next)
    ensures Calm(fate, from, from) && (Calm(fate, to, to + 1) <==> fate(to) == Returned)
  {
  }

  // `fate` says what becomes of each step, in the order the steps are taken: it goes through, or
  // it is where something fails, interrupts, or ends the process.
  class FileSystem {
    const fate: nat -> Outcome
    var disk: Disk
    var steps: nat
    // History: the set most recently made visible by an atomic rename into place.
    ghost var committed: Option<Directory>

    ghost predicate Safe()
      reads this
    {
      Preserves(disk, committed)
    }

    constructor (initial: Option<Directory>, fate: nat -> Outcome)
      ensures disk == Disk(initial, map[], map[]) && committed == initial && Safe()
      ensures this.fate == fate && steps == 0
    {
      this.fate, steps := fate, 0;
      disk := Disk(initial, map[], map[]);
      committed := initial;
    }

    // The next step's fate, told apart as far as its callers do.
    method Next() returns (out: Outcome)
      modifies this`steps
      ensures out == fate(old(steps)) && steps == old(steps) + 1
    {
      out := fate(steps);
      steps := steps + 1;
    }

    // One step that raises where it is interrupted.
    method Step() returns (out: Outcome)
      modifies this`steps
      ensures steps == old(steps) + 1 && out != Interrupted
      ensures out == Returned <==> fate(old(steps)) == Returned
      ensures out == Crashed <==> fate(old(steps)) == Crashed
    {
      out := Next();
      if out == Interrupted { out := Raised; }
    }

    // An instant between two steps, where only an interrupt or the end of the process can fall.
    method Pause() returns (out: Outcome)
      modifies this`steps
      ensures steps == old(steps) + 1 && out != Interrupted
      ensures out == Raised <==> fate(old(steps)) == Interrupted
      ensures out == Crashed <==> fate(old(steps)) == Crashed
    {
      out := Next();
      out := match out case Interrupted => Raised case Crashed => Crashed case _ => Returned;
    }

    // ----- primitives: one atomic filesystem step each ----------------------------

    method MakeStaging(s: nat) returns (out: Outcome)
      requires s !in disk.staging
      modifies this`disk, this`steps
      ensures disk == if out == Returned then old(disk).(staging := old(disk).staging[s := map[]]) else old(disk)
      ensures out != Interrupted
      ensures steps >= old(steps)
      ensures out == Returned <==> Calm(fate, old(steps), steps)
    {
      out := Step();
      if out != Returned { return; }
      disk := disk.(staging := disk.staging[s := map[]]);
      return Returned;
    }

    // Writing is not atomic: a failed or interrupted write may leave part of the payload.
    method WriteStaged(s: nat, name: string, payload: Payload) returns (out: Outcome)
      requires s in disk.staging
      modifies this`disk, this`steps
      ensures disk.final == old(disk).final && disk.backups == old(disk).backups
      ensures disk.staging.Keys == old(disk).staging.Keys
      ensures out == Returned ==> disk.staging == old(disk).staging[s := old(disk).staging[s][name := payload]]
      ensures out != Interrupted
      ensures steps >= old(steps)
      ensures out == Returned <==> Calm(fate, old(steps), steps)
    {
      out := Step();
      if out != Returned { return; }
      var written :| 0 <= written <= |payload|;
      disk := disk.(staging := disk.staging[s := disk.staging[s][name := payload[..written]]]);
      out := Step();
      if out != Returned { return; }
      disk := disk.(staging := disk.staging[s := disk.staging[s][name := payload]]);
      assert disk.staging[s] == old(disk).staging[s][name := payload];
      return Returned;
    }

    method RenameFinalToBackup(b: nat) returns (out: Outcome)
      requires b !in disk.backups
      modifies this`disk, this`steps
      ensures out == Returned ==> old(disk).final.Some?
      ensures out == Returned ==>
        disk == old(disk).(final := None, backups := old(disk).backups[b := old(disk).final.value])
      ensures out != Returned ==> disk == old(disk)
      ensures out != Interrupted
      ensures steps >= old(steps)
      ensures out == Returned <==> Calm(fate, old(steps), steps) && old(disk).final.Some?
    {
      out := Step();
      if out != Returned { return; }
      if disk.final == None { return Raised; }
      disk := disk.(final := None, backups := disk.backups[b := disk.final.value]);
      return Returned;
    }

    // Renaming onto an existing directory fails; onto a free name it is atomic.
    method RenameStagingToFinal(s: nat) returns (out: Outcome)
      requires s in disk.staging
      modifies this`disk, this`committed, this`steps
      ensures out == Returned ==> old(disk).final == None && committed == Some(old(disk).staging[s])
      ensures out == Returned ==>
        disk == old(disk).(final := Some(old(disk).staging[s]), staging := old(disk).staging - {s})
      ensures out != Returned ==> disk == old(disk) && committed == old(committed)
      ensures out != Interrupted
      ensures steps >= old(steps)
      ensures out == Returned <==> Calm(fate, old(steps), steps) && old(disk).final == None
    {
      out := Step();
      if out != Returned { return; }
      if disk.final.Some? { return Raised; }
      committed := Some(disk.staging[s]);
      disk := disk.(final := Some(disk.staging[s]), staging := disk.staging - {s});
      return Returned;
    }

    method RenameBackupToFinal(b: nat) returns (out: Outcome)
      requires b in disk.backups
      modifies this`disk, this`steps
      ensures out == Returned ==> old(disk).final == None
      ensures out == Returned ==>
        disk == old(disk).(final := Some(old(disk).backups[b]), backups := old(disk).backups - {b})
      ensures out != Returned ==> disk == old(disk)
      ensures out != Interrupted
      ensures steps >= old(steps)
      ensures out == Returned <==> Calm(fate, old(steps), steps) && old(disk).final == None
    {
      out := Step();
      if out != Returned { return; }
      if disk.final.Some? { return Raised; }
      disk := disk.(final := Some(disk.backups[b]), backups := disk.backups - {b});
      return Returned;
    }

    method UnlinkStaged(s: nat, name: string) returns (out: Outcome)
      requires s in disk.staging && name in disk.staging[s]
      modifies this`disk, this`steps
      ensures steps == old(steps) + 1 && out != Interrupted && (out == Returned <==> fate(old(steps)) == Returned)
      ensures disk.final == old(disk).final && disk.backups == old(disk).backups
      ensures disk.staging.Keys == old(disk).staging.Keys && disk.staging - {s} == old(disk).staging - {s}
      ensures disk.staging[s] == if out == Returned then old(disk).staging[s] - {name} else old(disk).staging[s]
    {
      out := Step();
      if out == Returned { disk := disk.(staging := disk.staging[s := disk.staging[s] - {name}]); }
    }

    method EmptyStaging(s: nat) returns (out: Outcome)
      requires s in disk.staging
      modifies this`disk, this`steps
      ensures disk.final == old(disk).final && disk.backups == old(disk).backups
      ensures disk.staging.Keys == old(disk).staging.Keys && disk.staging - {s} == old(disk).staging - {s}
      ensures out != Interrupted
      ensures steps >= old(steps) && (out == Returned <==> Calm(fate, old(steps), steps))
    {
      hide Calm;
      ghost var first := steps;
      CalmOn(fate, first, first, first);
      while disk.staging[s] != map[]
        invariant disk.staging.Keys == old(disk).staging.Keys && disk.staging - {s} == old(disk).staging - {s}
        invariant disk.final == old(disk).final && disk.backups == old(disk).backups
        invariant steps >= first && Calm(fate, first, steps)
        decreases |disk.staging[s]|
      {
        var name :| name in disk.staging[s];
        SmallerWithout(disk.staging[s], name);
        CalmOn(fate, first, steps, steps + 1);
        out := UnlinkStaged(s, name);
        if out != Returned { return; }
      }
      return Returned;
    }

    // Removing a tree deletes file after file, so it can stop half way.
    method RemoveStaging(s: nat) returns (out: Outcome)
      requires s in disk.staging
      modifies this`disk, this`steps
      ensures disk.final == old(disk).final && disk.backups == old(disk).backups
      ensures out == Returned ==> disk.staging == old(disk).staging - {s}
      ensures out != Returned ==> disk.staging.Keys == old(disk).staging.Keys
      ensures out != Interrupted
      ensures steps >= old(steps) && (out == Returned <==> Calm(fate, old(steps), steps))
    {
      hide Calm;
      ghost var first := steps;
      out := EmptyStaging(s);
      if out != Returned { return; }
      CalmOn(fate, first, steps, steps + 1);
      out := Step();
      if out == Returned { disk := disk.(staging := disk.staging - {s}); }
    }

    method UnlinkBackup(b: nat, name: string) returns (out: Outcome)
      requires b in disk.backups && name in disk.backups[b]
      modifies this`disk, this`steps
      ensures steps == old(steps) + 1 && out == fate(old(steps))
      ensures disk.final == old(disk).final && disk.staging == old(disk).staging
      ensures disk.backups.Keys == old(disk).backups.Keys && disk.backups - {b} == old(disk).backups - {b}
      ensures disk.backups[b] == if out == Returned then old(disk).backups[b] - {name} else old(disk).backups[b]
    {
      out := Next();
      if out == Returned { disk := disk.(backups := disk.backups[b := disk.backups[b] - {name}]); }
    }

    method EmptyBackup(b: nat) returns (out: Outcome)
      requires b in disk.backups
      modifies this`disk, this`steps
      ensures disk.final == old(disk).final && disk.staging == old(disk).staging
      ensures disk.backups.Keys == old(disk).backups.Keys && disk.backups - {b} == old(disk).backups - {b}
      ensures steps >= old(steps) && (out == Returned <==> Calm(fate, old(steps), steps))
    {
      hide Calm;
      ghost var first := steps;
      CalmOn(fate, first, first, first);
      while disk.backups[b] != map[]
        invariant disk.backups.Keys == old(disk).backups.Keys && disk.backups - {b} == old(disk).backups - {b}
        invariant disk.final == old(disk).final && disk.staging == old(disk).staging
        invariant steps >= first && Calm(fate, first, steps)
        decreases |disk.backups[b]|
      {
        var name :| name in disk.backups[b];
        SmallerWithout(disk.backups[b], name);
        CalmOn(fate, first, steps, steps + 1);
        out := UnlinkBackup(b, name);
        if out != Returned { return; }
      }
      return Returned;
    }

    method RemoveBackup(b: nat) returns (out: Outcome)
      requires b in disk.backups
      modifies this`disk, this`steps
      ensures disk.final == old(disk).final && disk.staging == old(disk).staging
      ensures out == Returned ==> disk.backups == old(disk).backups - {b}
      ensures out != Returned ==> disk.backups.Keys == old(disk).backups.Keys
      ensures steps >= old(steps) && (out == Returned <==> Calm(fate, old(steps), steps))
    {
      hide Calm;
      ghost var first := steps;
      out := EmptyBackup(b);
      if out != Returned { return; }
      CalmOn(fate, first, steps, steps + 1);
      out := Next();
      if out == Returned { disk := disk.(backups := disk.backups - {b}); }
    }

    // ----- recovery -----------------------------------------------------------------

    method RecoverPublication() returns (out: Outcome)
      requires Safe()
      modifies this`disk, this`steps
      ensures Safe()
      ensures out == Returned ==> disk.final == committed && disk.staging == map[]
      ensures old(disk).final.Some? ==> disk.final == old(disk).final
      ensures disk.backups.Keys <= old(disk).backups.Keys
      ensures out == Raised ==> disk.final == old(disk).final || disk.final == committed
      ensures out != Interrupted
      ensures steps >= old(steps)
      ensures Calm(fate, old(steps), steps) ==> out == if |old(disk).backups| <= 1 then Returned else Raised
      ensures Calm(fate, old(steps), steps) && out == Returned ==> disk.backups == map[]
    {
      while disk.staging != map[]
        invariant disk.final == old(disk).final && disk.backups == old(disk).backups
        invariant steps >= old(steps) && Calm(fate, old(steps), steps)
        decreases |disk.staging|
      {
        var s :| s in disk.staging;
        ghost var before := disk.staging;
        SmallerWithout(before, s);
        out := RemoveStaging(s);
        if out != Returned { return; }
      }
      if |disk.backups| > 1 { return Raised; }
      if disk.backups != map[] {
        var b :| b in disk.backups;
        OnlyKey(disk.backups, b);
        if disk.final.Some? {
          out := RemoveBackup(b);
          if out == Crashed { return; }
          if out == Interrupted { return Raised; }
        } else {
          LoneBackupIsCommitted(disk, committed, b);
          out := RenameBackupToFinal(b);
          if out != Returned { return; }
          out := Pause();
          if out != Returned { return; }
        }
      }
      return Returned;
    }

    // ----- publication ----------------------------------------------------------------

    // `s` and `b` are the unique numbers of this publication's staging and backup names. Where
    // no step fails, it publishes exactly valid artifacts over at most one backup, and leaves
    // nothing but the final directory behind.
    method PublishArtifactSet(artifacts: Directory, validProvenance: Payload -> bool, s: nat, b: nat)
        returns (out: Outcome)
      requires Safe() && s !in disk.staging && b !in disk.backups
      modifies this`disk, this`steps, this`committed
      ensures Safe()
      ensures out == Returned ==> ValidArtifacts(artifacts, validProvenance) && disk.final == Some(artifacts)
      ensures out == Raised ==> committed == old(committed)
      ensures out == Interrupted ==> committed == Some(artifacts) && disk.final == committed
      ensures committed == old(committed) || committed == Some(artifacts)
      ensures steps >= old(steps)
      ensures Calm(fate, old(steps), steps) ==>
        out == if ValidArtifacts(artifacts, validProvenance) && |old(disk).backups| <= 1 then Returned else Raised
      ensures Calm(fate, old(steps), steps) && out == Returned ==> disk == Disk(Some(artifacts), map[], map[])
      // a single failure that makes it raise leaves the set that was there in place
      ensures old(disk).final.Some? && out == Raised && OneFailure(fate, old(steps), steps) ==> disk.final == old(disk).final
    {
      hide Calm, OneFailure, ValidArtifacts, Preserves;
      ghost var first := steps;
      if !ValidArtifacts(artifacts, validProvenance) { return Raised; }
      out := RecoverPublication();
      if out != Returned { return; }
      ghost var recovered := steps;
      out := StageArtifacts(artifacts, s);
      CalmOn(fate, first, recovered, steps);
      if out != Returned { return; }
      OnlyOneGoes(disk.staging, s);
      ghost var staged := steps;
      out := CommitStaged(s, b);
      CalmOn(fate, recovered, staged, steps);
      CalmOn(fate, first, recovered, steps);
      OneFailureOn(fate, first, recovered, steps);
      OneFailureOn(fate, recovered, staged, steps);
    }

    // A complete private copy, or an exception after which the copy is removed if possible.
    method StageArtifacts(artifacts: Directory, s: nat) returns (out: Outcome)
      requires Safe() && s !in disk.staging
      modifies this`disk, this`steps
      ensures Safe()
      ensures disk.final == old(disk).final && disk.backups == old(disk).backups
      ensures out == Returned ==> disk.staging.Keys == old(disk).staging.Keys + {s} && disk.staging[s] == artifacts
      ensures out != Interrupted
      ensures steps >= old(steps) && (out == Returned <==> Calm(fate, old(steps), steps))
    {
      hide Calm;
      ghost var first := steps;
      out := MakeStaging(s);
      if out != Returned { return; }
      CalmOn(fate, first, steps, steps + 1);
      out := Step();
      if out != Returned { return; }
      ghost var made := steps;
      out := FillStaging(s, artifacts);
      CalmOn(fate, first, made, steps);
      if out == Raised {
        ghost var filled := steps;
        out := CleanUp(s);
        CalmOn(fate, made, filled, steps);
        CalmOn(fate, first, made, steps);
      }
    }

    // The rename into place, with the old set moved aside and back again if it fails.
    method CommitStaged(s: nat, b: nat) returns (out: Outcome)
      requires Safe() && disk.final == committed && s in disk.staging && b !in disk.backups
      modifies this`disk, this`steps, this`committed
      ensures Safe()
      ensures out == Returned ==> disk.final == Some(old(disk).staging[s])
      ensures out == Raised ==> committed == old(committed)
      ensures out == Interrupted ==> committed == Some(old(disk).staging[s]) && disk.final == committed
      ensures committed == old(committed) || committed == Some(old(disk).staging[s])
      ensures steps >= old(steps)
      ensures Calm(fate, old(steps), steps) ==>
        out == Returned && disk.staging == old(disk).staging - {s} && disk.backups == old(disk).backups
      // a single failure leaves the set that was there in place
      ensures out == Raised && OneFailure(fate, old(steps), steps) ==> disk.final == old(disk).final
    {
      hide Calm, OneFailure;
      ghost var first := steps;
      CalmOn(fate, first, first, first);
      var backup: Option<nat> := None;
      if disk.final.Some? {
        out := MoveAside(b);
        assert disk.final == None ==> b in disk.backups && disk.backups[b] == committed.value;
        if out == Crashed { return; }
        if out == Raised {
          ghost var failed := steps;
          out := CleanUp(s);
          CalmOn(fate, first, failed, steps);
          OneFailureOn(fate, first, failed, steps);
          return;
        }
        backup := Some(b);
      }
      ghost var aside := steps;
      out := RenameStagingToFinal(s);
      CalmOn(fate, first, aside, steps);
      if out == Crashed { return; }
      ghost var renamed := steps;
      if out == Raised {
        out := PutBack(backup);
        CalmOn(fate, first, renamed, steps);
        if out == Crashed { return; }
        ghost var back := steps;
        out := CleanUp(s);
        CalmOn(fate, first, renamed, steps);
        CalmOn(fate, renamed, back, steps);
        OneFailureOn(fate, first, renamed, steps);
        return;
      }
      out := FinishPublication(backup);
      CalmOn(fate, first, renamed, steps);
    }

    method MoveAside(b: nat) returns (out: Outcome)
      requires disk.final.Some? && b !in disk.backups
      modifies this`disk, this`steps
      ensures disk == old(disk) || disk == old(disk).(final := None, backups := old(disk).backups[b := old(disk).final.value])
      ensures out == Returned ==> disk != old(disk)
      ensures out != Interrupted
      ensures steps >= old(steps) && (Calm(fate, old(steps), steps) ==> out == Returned)
      ensures out == Raised && OneFailure(fate, old(steps), steps) ==> disk == old(disk)
    {
      hide Calm, OneFailure;
      ghost var first := steps;
      out := RenameFinalToBackup(b);
      CalmOn(fate, first, steps, steps + 1);
      OneFailureOn(fate, first, steps, steps + 1);
      if out == Returned { out := Pause(); }
    }

    // The handler that restores the backup, if one was made and is there.
    method PutBack(backup: Option<nat>) returns (out: Outcome)
      requires backup.Some? ==> backup.value in disk.backups
      modifies this`disk, this`steps
      ensures out == Crashed || out == Raised
      ensures disk == old(disk)
        || (backup.Some? && old(disk).final == None
            && disk == old(disk).(final := Some(old(disk).backups[backup.value]), backups := old(disk).backups - {backup.value}))
      ensures steps >= old(steps)
      ensures Calm(fate, old(steps), steps) && backup.Some? ==> disk.final.Some?
    {
      if backup.Some? {
        out := RenameBackupToFinal(backup.value);
        if out == Crashed { return; }
      }
      return Raised;
    }

    // After the commit: the backup goes, and an exception no longer undoes anything.
    method FinishPublication(backup: Option<nat>) returns (out: Outcome)
      requires disk.final.Some? && (backup.Some? ==> backup.value in disk.backups)
      modifies this`disk, this`steps
      ensures disk.final == old(disk).final && disk.staging == old(disk).staging
      ensures out != Raised && steps >= old(steps)
      ensures Calm(fate, old(steps), steps) ==>
        out == Returned && disk.backups == if backup.Some? then old(disk).backups - {backup.value} else old(disk).backups
    {
      hide Calm;
      ghost var first := steps;
      CalmOn(fate, first, first, first + 1);
      out := Pause();
      if out == Crashed { return; }
      if out == Raised {
        // Still inside the handler that restores the backup; the new set is in its way.
        out := PutBack(backup);
        CalmOn(fate, first, first + 1, steps);
        return if out == Crashed then Crashed else Interrupted;
      }
      if backup.Some? {
        var removal := RemoveBackup(backup.value);
        CalmOn(fate, first, first + 1, steps);
        if removal == Crashed || removal == Interrupted { return removal; }
      }
      CalmOn(fate, first, steps, steps + 1);
      out := Pause();
      return if out == Raised then Interrupted else out;
    }

    method FillStaging(s: nat, artifacts: Directory) returns (out: Outcome)
      requires s in disk.staging && disk.staging[s] == map[]
      modifies this`disk, this`steps
      ensures disk.final == old(disk).final && disk.backups == old(disk).backups && s in disk.staging
      ensures out == Returned ==> disk.staging[s] == artifacts
      ensures out != Interrupted
      ensures steps >= old(steps)
      ensures out == Returned <==> Calm(fate, old(steps), steps)
      ensures disk.staging.Keys == old(disk).staging.Keys
    {
      var names := artifacts.Keys;
      while names != {}
        invariant names <= artifacts.Keys
        invariant disk.final == old(disk).final && disk.backups == old(disk).backups && s in disk.staging
        invariant disk.staging[s] == map name | name in artifacts && name !in names :: artifacts[name]
        invariant disk.staging.Keys == old(disk).staging.Keys
        invariant steps >= old(steps) && Calm(fate, old(steps), steps)
      {
        var name :| name in names;
        out := WriteStaged(s, name, artifacts[name]);
        if out != Returned { return; }
        names := names - {name};
      }
      // Copying the mode of the final directory onto the staging directory may fail too.
      out := Step();
      if out != Returned { return; }
      return Returned;
    }

    // The `finally` clause of a publication that is already failing.
    method CleanUp(s: nat) returns (out: Outcome)
      modifies this`disk, this`steps
      ensures disk.final == old(disk).final && disk.backups == old(disk).backups
      ensures out == Raised || out == Crashed
      ensures steps >= old(steps)
    {
      if s in disk.staging {
        var removal := RemoveStaging(s);
        if removal == Crashed { return Crashed; }
      }
      return Raised;
    }
  }

  // Any number of publications, each running to the end, failing, or dying at any step: the
  // final directory is absent or holds, whole, the initial set or one that was being published.
  method Lifetime(fs: FileSystem, attempts: seq<Directory>, validProvenance: Payload -> bool)
    requires fs.Safe()
    modifies fs
    ensures fs.Safe()
    ensures fs.committed == old(fs.committed) || (fs.committed.Some? && fs.committed.value in attempts)
    ensures fs.disk.final.Some? ==> fs.disk.final == fs.committed
    ensures old(fs.committed).Some? ==> fs.committed.Some?
  {
    for i := 0 to |attempts|
      invariant fs.Safe()
      invariant fs.committed == old(fs.committed) || (fs.committed.Some? && fs.committed.value in attempts[..i])
      invariant old(fs.committed).Some? ==> fs.committed.Some?
    {
      var s := UnusedNumber(fs.disk.staging.Keys);
      var b := UnusedNumber(fs.disk.backups.Keys);
      assert attempts[i] in attempts[..i + 1];
      var out := fs.PublishArtifactSet(attempts[i], validProvenance, s, b);
    }
  }

  method UnusedNumber(used: set<nat>) returns (n: nat)
    ensures n !in used
  {
    n := 0;
    var left := used;
    while left != {}
      invariant forall u :: u in used && u !in left ==> u < n
    {
      var u :| u in left;
      if u >= n { n := u + 1; }
      left := left - {u};
    }
  }

  lemma SmallerWithout<K, V>(m: map<K, V>, k: K)
    requires k in m
    ensures |m - {k}| < |m|
  {
    assert (m - {k}).Keys == m.Keys - {k};
    assert |m.Keys - {k}| == |m.Keys| - 1;
  }

  lemma OnlyOneGoes<K, V>(m: map<K, V>, k: K)
    ensures m.Keys == {k} ==> m - {k} == map[]
  {
  }

  lemma OnlyKey<K, V>(m: map<K, V>, k: K)
    requires k in m && |m| <= 1
    ensures m.Keys == {k}
  {
    assert |m.Keys - {k}| == |m.Keys| - 1;
    assert m.Keys - {k} == {};
  }
}
