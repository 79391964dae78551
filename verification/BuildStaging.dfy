/** Staging of a build artifact and its receipt. Any step may fail; what was created is
    remembered in flags, and the cleanup, however often it is cut short and repeated, gives
    back the file map it started from. */
module BuildStaging {
  import opened Wrappers

  datatype Target = ArtifactTarget | ReceiptTarget

  datatype Path =
    | DynamicsDir | ArtifactDir | ArtifactFile | ReceiptFile
    | Temporary(target: Target, id: nat)
    | Other(name: string, inside: Option<Path>)

  datatype Entry = Directory | File(bytes: seq<int>, readonly: bool) | Link

  type Disk = map<Path, Entry>

  /** The directory a path lies in, as far as staging looks into it. */
  function Parent(p: Path): Option<Path> {
    match p
    case DynamicsDir => None
    case ArtifactDir => Some(DynamicsDir)
    case ArtifactFile => Some(ArtifactDir)
    case ReceiptFile => Some(DynamicsDir)
    case Temporary(t, _) => Some(if t.ArtifactTarget? then ArtifactDir else DynamicsDir)
    case Other(_, inside) => inside
  }

  predicate Tree(d: Disk) { forall p :: p in d && Parent(p).Some? ==> Parent(p).value in d }

  ghost predicate NoTemporaries(d: Disk) { forall t, id: nat :: Temporary(t, id) !in d }

  function FileOf(t: Target): Path { if t.ArtifactTarget? then ArtifactFile else ReceiptFile }

  /** Every entry of the first map is in the second, unchanged. */
  predicate Preserves(initial: Disk, d: Disk) { forall p :: p in initial ==> p in d && d[p] == initial[p] }

  predicate Empty(d: Disk, dir: Path) { forall p :: p in d ==> Parent(p) != Some(dir) }

  datatype Flags = Flags(dynamics: bool, artifactDir: bool, artifact: bool, receipt: bool)

  predicate Owned(f: Flags, p: Path) {
    match p
    case DynamicsDir => f.dynamics
    case ArtifactDir => f.artifactDir
    case ArtifactFile => f.artifact
    case ReceiptFile => f.receipt
    case _ => false
  }

  function Content(p: Path, artifact: seq<int>, receipt: seq<int>): Entry {
    match p
    case ArtifactFile => File(artifact, true)
    case ReceiptFile => File(receipt, true)
    case _ => Directory
  }

  const TARGETS: set<Path> := {DynamicsDir, ArtifactDir, ArtifactFile, ReceiptFile}

  /** The initial map with what the flags say was created. */
  function Staged(initial: Disk, f: Flags, artifact: seq<int>, receipt: seq<int>): Disk {
    map p | p in initial.Keys + TARGETS && (p in initial || Owned(f, p)) ::
      if Owned(f, p) then Content(p, artifact, receipt) else initial[p]
  }

  /** What stands in the way of a staging from the start. */
  predicate Blocked(d: Disk) {
    || (DynamicsDir in d && d[DynamicsDir] != Directory)
    || ArtifactDir in d || ReceiptFile in d
  }

  /** Nothing that a flag claims was there before, and a created directory was needed by
      nothing that was. */
  predicate Fair(initial: Disk, f: Flags) {
    && (f.dynamics ==> DynamicsDir !in initial) && (f.artifactDir ==> ArtifactDir !in initial)
    && (f.artifact ==> ArtifactFile !in initial && f.artifactDir) && (f.receipt ==> ReceiptFile !in initial)
  }

  class StagedPair {
    /** Whether the operation at a step fails, and whether a removal at a step does. */
    const faults: nat -> bool
    const stuck: nat -> bool
    const artifactBytes: seq<int>
    const receiptBytes: seq<int>

    var disk: Disk
    var step: nat
    var flags: Flags
    var completed: bool
    ghost const initial: Disk
    /** No state so far lacked an initial entry. */
    ghost var kept: bool
    /** A removal that failed silently inside a publication left an entry behind. */
    ghost var leaked: bool

    ghost predicate Valid()
      reads this
    {
      && Tree(initial) && NoTemporaries(initial) && Fair(initial, flags)
      && Preserves(initial, disk) && kept
      && (!leaked ==> disk == Staged(initial, flags, artifactBytes, receiptBytes))
      && (completed ==> flags == Flags(false, false, false, false))
      && Spent()
    }

    constructor (disk: Disk, faults: nat -> bool, stuck: nat -> bool, artifactBytes: seq<int>, receiptBytes: seq<int>)
      requires Tree(disk) && NoTemporaries(disk)
      ensures Valid() && this.disk == disk && initial == disk && !leaked && !completed
      ensures flags == Flags(false, false, false, false)
      ensures this.artifactBytes == artifactBytes && this.receiptBytes == receiptBytes
    {
      this.disk, this.faults, this.stuck := disk, faults, stuck;
      this.artifactBytes, this.receiptBytes := artifactBytes, receiptBytes;
      step, flags, completed, initial, kept, leaked := 0, Flags(false, false, false, false), false, disk, true, false;
    }

    /** Every temporary name so far was drawn before this step. */
    ghost predicate Spent()
      reads this
    {
      forall t, id: nat :: Temporary(t, id) in disk ==> id < step
    }

    ghost predicate Stuck(from: nat, to: nat) { exists n :: from <= n < to && stuck(n) }
    ghost predicate Faulty(from: nat, to: nat) { exists n :: from <= n < to && faults(n) }

    /** One operation without an effect on the map. */
    method Attempt() returns (ok: bool)
      modifies this`step
      ensures step == old(step) + 1 && (ok <==> !faults(old(step)))
    {
      ok := !faults(step);
      step := step + 1;
    }

    /** mkdir or an exclusive open: fails if the path exists. */
    method Create(p: Path, e: Entry) returns (ok: bool)
      modifies this`disk, this`step, this`kept
      ensures step == old(step) + 1 && (ok <==> !faults(old(step)) && p !in old(disk))
      ensures disk == if ok then old(disk)[p := e] else old(disk)
      ensures kept == (old(kept) && Preserves(initial, disk))
    {
      ok := !faults(step) && p !in disk;
      step := step + 1;
      if ok { disk := disk[p := e]; }
      kept := kept && Preserves(initial, disk);
    }

    /** rm with force: fails only if it is stuck. */
    method Remove(p: Path) returns (ok: bool)
      modifies this`disk, this`step, this`kept
      ensures step == old(step) + 1 && (ok <==> !stuck(old(step)))
      ensures disk == if ok then old(disk) - {p} else old(disk)
      ensures kept == (old(kept) && Preserves(initial, disk))
    {
      ok := !stuck(step);
      step := step + 1;
      if ok { disk := disk - {p}; }
      kept := kept && Preserves(initial, disk);
    }

    /** rmdir: fails if it is stuck or the directory is missing or not empty. */
    method RemoveDirectory(dir: Path) returns (ok: bool)
      modifies this`disk, this`step, this`kept
      ensures step == old(step) + 1
      ensures ok <==> !stuck(old(step)) && dir in old(disk) && Empty(old(disk), dir)
      ensures disk == if ok then old(disk) - {dir} else old(disk)
      ensures kept == (old(kept) && Preserves(initial, disk))
    {
      ok := !stuck(step) && dir in disk && forall p <- disk.Keys :: Parent(p) != Some(dir);
      step := step + 1;
      if ok { disk := disk - {dir}; }
      kept := kept && Preserves(initial, disk);
    }

    /** Writing to a file this staging created, and reading it back. */
    method Write(p: Path, f: Entry) returns (ok: bool)
      requires p in disk
      modifies this`disk, this`step, this`kept
      ensures step == old(step) + 1 && (ok <==> !faults(old(step)))
      ensures disk == if ok then old(disk)[p := f] else old(disk)
      ensures kept == (old(kept) && Preserves(initial, disk))
    {
      ok := !faults(step);
      step := step + 1;
      if ok { disk := disk[p := f]; }
      kept := kept && Preserves(initial, disk);
    }

    method Rename(from: Path, to: Path) returns (ok: bool)
      requires from in disk && from != to
      modifies this`disk, this`step, this`kept
      ensures step == old(step) + 1 && (ok <==> !faults(old(step)))
      ensures disk == if ok then (old(disk) - {from})[to := old(disk)[from]] else old(disk)
      ensures kept == (old(kept) && Preserves(initial, disk))
    {
      ok := !faults(step);
      step := step + 1;
      if ok { disk := (disk - {from})[to := disk[from]]; }
      kept := kept && Preserves(initial, disk);
    }

    /** An exclusive temporary file, written, closed and read back. */
    method StageTemporary(temporary: Path, bytes: seq<int>) returns (ok: bool, created: bool)
      requires kept && Preserves(initial, disk) && temporary !in disk
      modifies this`disk, this`step, this`kept
      ensures kept && Preserves(initial, disk) && step > old(step) && (ok ==> created)
      ensures Around(old(disk), disk, if created then {temporary} else {}) && (created ==> temporary in disk)
      ensures ok ==> disk[temporary] == File(bytes, false)
      ensures !ok ==> Faulty(old(step), step)
    {
      ok := Create(temporary, File([], false));
      created := ok;
      if ok { ok := Write(temporary, File(bytes, false)); }
      if ok { ok := Attempt(); }
      assert !ok ==> faults(step - 1);
    }

    /** An exclusive reservation of the name, the rename over it, and the final check. */
    method TakeName(file: Path, temporary: Path, bytes: seq<int>)
      returns (ok: bool, temporaryCreated: bool, targetCreated: bool)
      requires kept && Preserves(initial, disk) && temporary in disk && temporary !in initial && file != temporary
      modifies this`disk, this`step, this`kept
      ensures kept && Preserves(initial, disk) && step > old(step)
      ensures targetCreated ==> file !in old(disk)
      ensures Around(old(disk), disk, {temporary} + if targetCreated then {file} else {})
      ensures !temporaryCreated ==> temporary !in disk
      ensures ok ==> targetCreated && !temporaryCreated && file in disk && disk[file] == File(bytes, true)
      ensures !ok ==> file in old(disk) || Faulty(old(step), step)
    {
      temporaryCreated, targetCreated := true, false;
      ok := Create(file, File([], false));
      targetCreated := ok;
      if ok { ok := Attempt(); }
      assert !ok ==> file in old(disk) || faults(step - 1);
      if ok { ok, temporaryCreated := Place(file, temporary, bytes); }
    }

    /** The rename over the reserved name, the read-only mode, and the final check. */
    method Place(file: Path, temporary: Path, bytes: seq<int>) returns (ok: bool, temporaryCreated: bool)
      requires kept && Preserves(initial, disk) && temporary in disk && file in disk
      requires temporary !in initial && file !in initial && file != temporary
      modifies this`disk, this`step, this`kept
      ensures kept && Preserves(initial, disk) && step > old(step)
      ensures Around(old(disk), disk, {temporary, file})
      ensures !temporaryCreated ==> temporary !in disk
      ensures ok ==> !temporaryCreated && file in disk && disk[file] == File(bytes, true)
      ensures !ok ==> Faulty(old(step), step)
    {
      ok := Rename(temporary, file);
      temporaryCreated := !ok;
      if ok { ok := Write(file, File(bytes, true)); }
      if ok { ok := Attempt(); }
      assert !ok ==> faults(step - 1);
    }

    /** The catch clause: removes what was created; a removal that fails is swallowed. */
    method DropCreated(ghost before: Disk, file: Path, temporary: Path, temporaryCreated: bool, targetCreated: bool)
      returns (ghost clean: bool)
      requires kept && Preserves(initial, disk) && Preserves(initial, before) && file != temporary
      requires temporary !in before && (targetCreated ==> file !in before)
      requires Around(before, disk, (if temporaryCreated then {temporary} else {}) +
                        if targetCreated then {file} else {})
      modifies this`disk, this`step, this`kept
      ensures kept && Preserves(initial, disk) && step >= old(step)
      ensures Around(before, disk, {temporary} + if targetCreated then {file} else {})
      ensures clean ==> disk == before
      ensures !clean ==> Stuck(old(step), step)
    {
      clean := true;
      if temporaryCreated {
        var removed := Remove(temporary);
        if !removed {
          assert stuck(step - 1);
          clean := false;
        }
      }
      if targetCreated {
        var removed := Remove(file);
        if !removed {
          assert stuck(step - 1);
          clean := false;
        }
      }
    }

    /** publishReadonlyFile: on any failure what was created is removed again. */
    method Publish(t: Target, bytes: seq<int>) returns (ok: bool, ghost clean: bool)
      requires kept && Preserves(initial, disk) && Spent()
      modifies this`disk, this`step, this`kept
      ensures kept && Preserves(initial, disk) && Spent() && step > old(step)
      ensures ok ==> clean && FileOf(t) !in old(disk) && disk == old(disk)[FileOf(t) := File(bytes, true)]
      ensures !ok && clean ==> disk == old(disk)
      ensures !clean ==> Stuck(old(step), step)
      ensures !ok ==> FileOf(t) in old(disk) || Faulty(old(step), step)
    {
      ghost var before := disk;
      var file, temporary := FileOf(t), Temporary(t, step);
      var targetCreated := false;
      var temporaryCreated;
      clean := true;
      ok, temporaryCreated := StageTemporary(temporary, bytes);
      if ok { ok, temporaryCreated, targetCreated := TakeName(file, temporary, bytes); }
      if !ok {
        clean := DropCreated(before, file, temporary, temporaryCreated, targetCreated);
      }
    }

    /** The directories and the absence of an older receipt. */
    method MakeDirectories() returns (ok: bool)
      requires Valid() && flags == NONE && !leaked && !completed
      modifies this`disk, this`step, this`kept, this`flags
      ensures Valid() && step > old(step) && !flags.artifact && !flags.receipt
      ensures ok ==> flags == Flags(DynamicsDir !in initial, true, false, false) && !Blocked(initial)
      ensures !ok ==> Blocked(initial) || Faulty(old(step), step)
    {
      hide Staged, Tree;
      StagedStart(initial, artifactBytes, receiptBytes);
      StagedGrows(initial, flags, artifactBytes, receiptBytes);
      if DynamicsDir in disk {
        ok := Attempt();
        ok := ok && disk[DynamicsDir] == Directory;
      } else {
        ok := Create(DynamicsDir, Directory);
        if ok { flags := flags.(dynamics := true); }
      }
      if ok {
        ok := Attempt();
        ok := ok && ReceiptFile !in disk;
      }
      if ok {
        StagedGrows(initial, flags, artifactBytes, receiptBytes);
        ok := Create(ArtifactDir, Directory);
        if ok { flags := flags.(artifactDir := true); }
      }
    }

    /** The whole staging: directories, artifact, receipt; on any failure the cleanup. */
    method Stage() returns (ok: bool)
      requires Valid() && flags == NONE && disk == initial && !leaked && !completed
      modifies this
      ensures Valid() && step > old(step)
      ensures ok ==> !leaked && !Blocked(initial)
      ensures ok ==>
        disk == Staged(initial, Flags(DynamicsDir !in initial, true, true, true), artifactBytes, receiptBytes)
      ensures !ok ==> Blocked(initial) || Faulty(old(step), step)
      ensures !ok && !Stuck(old(step), step) ==> disk == initial && completed
    {
      hide Staged, Preserves, Fair, Tree, Spent;
      ok := MakeDirectories();
      if ok { ok := PublishOwned(ArtifactTarget); }
      if ok { ok := PublishOwned(ReceiptTarget); }
      if !ok { var _ := CleanUp(); }
    }

    /** A publication recorded in its flag once it is complete. */
    method PublishOwned(t: Target) returns (ok: bool)
      requires Valid() && !leaked && !completed && flags.artifactDir && !IsSet(flags, t)
      modifies this
      ensures Valid() && step > old(step) && !completed
      ensures ok ==> !leaked && flags == Set(old(flags), t)
      ensures !ok ==> flags == old(flags)
      ensures !ok ==> Blocked(initial) || Faulty(old(step), step)
      ensures leaked ==> Stuck(old(step), step)
    {
      hide Staged, Tree;
      StagedGrows(initial, flags, artifactBytes, receiptBytes);
      var published, clean := Publish(t, if t.ArtifactTarget? then artifactBytes else receiptBytes);
      ok := published;
      leaked := !clean;
      if published {
        flags := Set(flags, t);
      } else if FileOf(t) in old(disk) {
        NameTaken(initial, flags, t, artifactBytes, receiptBytes);
      }
    }

    /** Removes what the flags say was created, newest first, and forgets each flag as its entry
        goes; may be called again after it was cut short. */
    method CleanUp() returns (ok: bool)
      requires Valid()
      modifies this`disk, this`step, this`kept, this`flags, this`completed
      ensures Valid() && step >= old(step)
      ensures ok ==> completed && (!leaked ==> disk == initial)
      ensures !ok ==> leaked || Stuck(old(step), step)
    {
      hide Tree;
      hide Staged;
      StagedStart(initial, artifactBytes, receiptBytes);
      if completed { return true; }
      if flags.receipt {
        StagedShrinks(initial, flags, artifactBytes, receiptBytes);
        ok := Remove(ReceiptFile);
        if !ok {
          assert stuck(step - 1);
          return;
        }
        flags := flags.(receipt := false);
      }
      if flags.artifact {
        StagedShrinks(initial, flags, artifactBytes, receiptBytes);
        ok := Remove(ArtifactFile);
        if !ok {
          assert stuck(step - 1);
          return;
        }
        flags := flags.(artifact := false);
      }
      ok := CleanUpDirectories();
    }

    method CleanUpDirectories() returns (ok: bool)
      requires Valid() && !completed && !flags.receipt && !flags.artifact
      modifies this`disk, this`step, this`kept, this`flags, this`completed
      ensures Valid() && step >= old(step)
      ensures ok ==> completed && (!leaked ==> disk == initial)
      ensures !ok ==> leaked || Stuck(old(step), step)
    {
      hide Tree, Empty;
      hide Staged;
      StagedStart(initial, artifactBytes, receiptBytes);
      if flags.artifactDir {
        StagedShrinks(initial, flags, artifactBytes, receiptBytes);
        CreatedDirectoriesAreEmpty(initial, flags, artifactBytes, receiptBytes);
        ok := RemoveDirectory(ArtifactDir);
        if !ok {
          assert leaked || stuck(step - 1);
          return;
        }
        flags := flags.(artifactDir := false);
      }
      if flags.dynamics {
        StagedShrinks(initial, flags, artifactBytes, receiptBytes);
        CreatedDirectoriesAreEmpty(initial, flags, artifactBytes, receiptBytes);
        ok := RemoveDirectory(DynamicsDir);
        if !ok {
          assert leaked || stuck(step - 1);
          return;
        }
        flags := flags.(dynamics := false);
      }
      completed := true;
      return true;
    }
  }

  const NONE := Flags(false, false, false, false)

  predicate IsSet(f: Flags, t: Target) { if t.ArtifactTarget? then f.artifact else f.receipt }

  function Set(f: Flags, t: Target): Flags {
    if t.ArtifactTarget? then f.(artifact := true) else f.(receipt := true)
  }

  lemma {:induction false} StagedStart(initial: Disk, a: seq<int>, r: seq<int>)
    ensures Staged(initial, NONE, a, r) == initial
  {
  }

  /** Setting one flag adds its entry and nothing else. */
  lemma {:induction false} FlagSet(initial: Disk, f: Flags, g: Flags, p: Path, a: seq<int>, r: seq<int>)
    requires p in TARGETS && Owned(g, p) && forall q :: q != p ==> (Owned(g, q) <==> Owned(f, q))
    ensures Staged(initial, g, a, r) == Staged(initial, f, a, r)[p := Content(p, a, r)]
  {
    hide Owned, Content;
  }

  /** A target that staging did not write itself was there from the start. */
  lemma {:induction false} NameTaken(initial: Disk, f: Flags, t: Target, a: seq<int>, r: seq<int>)
    requires Tree(initial) && Fair(initial, f) && f.artifactDir && !IsSet(f, t)
    requires FileOf(t) in Staged(initial, f, a, r)
    ensures Blocked(initial)
  {
    assert Parent(ArtifactFile) == Some(ArtifactDir);
  }

  /** Clearing one removes that entry and nothing else. */
  lemma {:induction false} FlagCleared(initial: Disk, f: Flags, g: Flags, p: Path, a: seq<int>, r: seq<int>)
    requires p !in initial && !Owned(g, p) && forall q :: q != p ==> (Owned(g, q) <==> Owned(f, q))
    ensures Staged(initial, g, a, r) == Staged(initial, f, a, r) - {p}
  {
    hide Owned, Content;
  }

  lemma {:induction false} StagedGrows(initial: Disk, f: Flags, a: seq<int>, r: seq<int>)
    ensures Staged(initial, f.(dynamics := true), a, r) == Staged(initial, f, a, r)[DynamicsDir := Directory]
    ensures Staged(initial, f.(artifactDir := true), a, r) == Staged(initial, f, a, r)[ArtifactDir := Directory]
    ensures Staged(initial, f.(artifact := true), a, r) == Staged(initial, f, a, r)[ArtifactFile := File(a, true)]
    ensures Staged(initial, f.(receipt := true), a, r) == Staged(initial, f, a, r)[ReceiptFile := File(r, true)]
    ensures forall p :: p in initial ==> p in Staged(initial, f, a, r)
  {
    InitialStays(initial, f, a, r);
    hide Staged;
    FlagSet(initial, f, f.(dynamics := true), DynamicsDir, a, r);
    FlagSet(initial, f, f.(artifactDir := true), ArtifactDir, a, r);
    FlagSet(initial, f, f.(artifact := true), ArtifactFile, a, r);
    FlagSet(initial, f, f.(receipt := true), ReceiptFile, a, r);
  }

  lemma {:induction false} InitialStays(initial: Disk, f: Flags, a: seq<int>, r: seq<int>)
    ensures forall p :: p in initial ==> p in Staged(initial, f, a, r)
  {
  }

  lemma {:induction false} StagedShrinks(initial: Disk, f: Flags, a: seq<int>, r: seq<int>)
    requires Fair(initial, f)
    ensures f.dynamics ==> Staged(initial, f.(dynamics := false), a, r) == Staged(initial, f, a, r) - {DynamicsDir}
    ensures f.artifactDir ==>
      Staged(initial, f.(artifactDir := false), a, r) == Staged(initial, f, a, r) - {ArtifactDir}
    ensures f.artifact ==> Staged(initial, f.(artifact := false), a, r) == Staged(initial, f, a, r) - {ArtifactFile}
    ensures f.receipt ==> Staged(initial, f.(receipt := false), a, r) == Staged(initial, f, a, r) - {ReceiptFile}
  {
    hide Staged;
    if f.dynamics { FlagCleared(initial, f, f.(dynamics := false), DynamicsDir, a, r); }
    if f.artifactDir { FlagCleared(initial, f, f.(artifactDir := false), ArtifactDir, a, r); }
    if f.artifact { FlagCleared(initial, f, f.(artifact := false), ArtifactFile, a, r); }
    if f.receipt { FlagCleared(initial, f, f.(receipt := false), ReceiptFile, a, r); }
  }

  /** A directory this staging created holds nothing once its own files are gone. */
  lemma {:induction false} CreatedDirectoriesAreEmpty(initial: Disk, f: Flags, a: seq<int>, r: seq<int>)
    requires Tree(initial) && Fair(initial, f) && !f.artifact && !f.receipt
    ensures f.artifactDir ==> ArtifactDir in Staged(initial, f, a, r) && Empty(Staged(initial, f, a, r), ArtifactDir)
    ensures f.dynamics && !f.artifactDir ==>
      DynamicsDir in Staged(initial, f, a, r) && Empty(Staged(initial, f, a, r), DynamicsDir)
  {
  }

  /** The two maps agree outside the extra paths. */
  predicate Around(before: Disk, d: Disk, extra: set<Path>) {
    && (forall p :: p in before && p !in extra ==> p in d && d[p] == before[p])
    && (forall p :: p in d && p !in extra ==> p in before)
  }
}
