/** The staged run record: groups of artifacts written all or not at all, and a seal whose
    manifest lists exactly the written artifacts and the inventory in strict path order. */
module RunRecord {
  import opened Wrappers
  import opened Text
  import opened Formats

  datatype Role =
    | AcceptedAction | ActionResult | AuthorityExport | Identity | Presentation | Probe | Provenance
    | TerminalRole | WorldCheckpoint | WorldFrame

  const ROLES: set<Role> := {AcceptedAction, ActionResult, AuthorityExport, Identity, Presentation, Probe, Provenance,
                             TerminalRole, WorldCheckpoint, WorldFrame}

  /** What a staged file holds; the digest of a content is free. */
  datatype Content =
    | Bytes(name: string, size: nat)
    | Inventory(artifacts: seq<Artifact>, runId: string)
    | Manifest(files: seq<Listed>)

  datatype ContentDigest = DigestOf(content: Content)

  datatype Artifact = Artifact(path: Text, role: Role, sha256: ContentDigest)
  datatype Listed = Listed(path: Text, sha256: ContentDigest)
  datatype Input = Input(path: Text, role: Role, bytes: Content)

  const MAX_BYTES := 1_073_741_824

  // "inventory.json" and "manifest.json"
  const INVENTORY: Text := [105, 110, 118, 101, 110, 116, 111, 114, 121, 46, 106, 115, 111, 110]
  const MANIFEST: Text := [109, 97, 110, 105, 102, 101, 115, 116, 46, 106, 115, 111, 110]

  /** A relative path that normalization leaves alone and that is not a name of the record's own. */
  predicate SafePath(t: Text) {
    && 1 <= |t| <= 4096 && t != MANIFEST && t != INVENTORY
    && forall i :: 0 <= i < |Parts(t)| ==> Parts(t)[i] != [] && Parts(t)[i] != [46] && Parts(t)[i] != [46, 46]
  }

  function PathOf(a: Artifact): Text { a.path }
  function ListedPath(l: Listed): Text { l.path }

  function RecordOf(x: Input): Artifact { Artifact(x.path, x.role, DigestOf(x.bytes)) }

  function RecordsOf(xs: seq<Input>): (r: seq<Artifact>)
    ensures |r| == |xs| && forall i :: 0 <= i < |r| ==> r[i] == RecordOf(xs[i])
  {
    seq(|xs|, i requires 0 <= i < |xs| => RecordOf(xs[i]))
  }

  function ListedOf(xs: seq<Artifact>): (r: seq<Listed>)
    ensures |r| == |xs| && forall i :: 0 <= i < |r| ==> r[i] == Listed(xs[i].path, xs[i].sha256)
  {
    seq(|xs|, i requires 0 <= i < |xs| => Listed(xs[i].path, xs[i].sha256))
  }

  predicate Declarable(xs: seq<Input>, artifacts: seq<Artifact>) {
    && xs != []
    && (forall i :: 0 <= i < |xs| ==> SafePath(xs[i].path) && xs[i].bytes.Bytes? && xs[i].bytes.size <= MAX_BYTES)
    && (forall i, j :: 0 <= i < j < |xs| ==> xs[i].path != xs[j].path)
    && (forall i, j :: 0 <= i < |xs| && 0 <= j < |artifacts| ==> xs[i].path != artifacts[j].path)
  }

  type Files = map<Text, Content>

  /** The files with a group of inputs added. */
  function WithInputs(files: Files, xs: seq<Input>): Files {
    if xs == [] then files
    else WithInputs(files, xs[..|xs| - 1])[xs[|xs| - 1].path := xs[|xs| - 1].bytes]
  }

  function PathsOf(xs: seq<Input>): set<Text> { set i | 0 <= i < |xs| :: xs[i].path }

  lemma {:induction false} WithInputsAt(files: Files, xs: seq<Input>, p: Text)
    ensures p in WithInputs(files, xs) <==> p in files || p in PathsOf(xs)
    ensures p !in PathsOf(xs) && p in files ==> WithInputs(files, xs)[p] == files[p]
  {
    if xs != [] {
      var last := |xs| - 1;
      WithInputsAt(files, xs[..last], p);
      assert xs == xs[..last] + [xs[last]];
      assert PathsOf(xs) == PathsOf(xs[..last]) + {xs[last].path} by { PathsOfLast(xs); }
    }
  }

  lemma {:induction false} PathsOfLast(xs: seq<Input>)
    requires xs != []
    ensures PathsOf(xs) == PathsOf(xs[..|xs| - 1]) + {xs[|xs| - 1].path}
  {
    var last := |xs| - 1;
    forall p ensures p in PathsOf(xs) <==> p in PathsOf(xs[..last]) + {xs[last].path} {
      if p in PathsOf(xs) {
        var i :| 0 <= i < |xs| && xs[i].path == p;
        if i < last { assert xs[..last][i].path == p; }
      }
      if p in PathsOf(xs[..last]) {
        var i :| 0 <= i < last && xs[..last][i].path == p;
        assert xs[i].path == p;
      }
    }
  }

  /** Taking the group out again gives back the files before it. */
  lemma {:induction false} RemovingInputs(files: Files, xs: seq<Input>)
    requires forall p :: p in PathsOf(xs) ==> p !in files
    ensures WithInputs(files, xs) - PathsOf(xs) == files
  {
    hide WithInputs, PathsOf;
    forall p ensures p in WithInputs(files, xs) - PathsOf(xs) <==> p in files { WithInputsAt(files, xs, p); }
    forall p | p in files ensures (WithInputs(files, xs) - PathsOf(xs))[p] == files[p] { WithInputsAt(files, xs, p); }
  }

  /** The manifest entries: the artifacts and the inventory, sorted by path. */
  function ManifestFiles(artifacts: seq<Artifact>, runId: string): seq<Listed> {
    var entries := SortByKey(artifacts, PathOf);
    SortByKey(ListedOf(entries) + [Listed(INVENTORY, DigestOf(Inventory(entries, runId)))], ListedPath)
  }

  ghost predicate DistinctPaths(artifacts: seq<Artifact>) { DistinctKeys(artifacts, PathOf) }

  /** The manifest lists exactly the written artifacts, each with its digest, and the inventory,
      in strictly increasing order of path. */
  lemma {:induction false} ManifestIsExact(artifacts: seq<Artifact>, runId: string)
    requires DistinctPaths(artifacts) && forall i :: 0 <= i < |artifacts| ==> artifacts[i].path != INVENTORY
    ensures SortedByKey(ManifestFiles(artifacts, runId), ListedPath)
    ensures |ManifestFiles(artifacts, runId)| == |artifacts| + 1
    ensures forall l :: l in ManifestFiles(artifacts, runId) <==>
      || l == Listed(INVENTORY, DigestOf(Inventory(SortByKey(artifacts, PathOf), runId)))
      || exists i :: 0 <= i < |artifacts| && l == Listed(artifacts[i].path, artifacts[i].sha256)
  {
    hide SortByKey, SortedByKey, DistinctKeys;
    var entries := SortByKey(artifacts, PathOf);
    SortElements(artifacts, PathOf);
    SortSorts(artifacts, PathOf);
    var inventory := Listed(INVENTORY, DigestOf(Inventory(entries, runId)));
    var all := ListedOf(entries) + [inventory];
    assert forall a :: a in entries ==> a.path != INVENTORY;
    ListedSorted(entries, inventory);
    SortElements(all, ListedPath);
    SortSorts(all, ListedPath);
    forall l ensures l in all <==>
      l == inventory || exists i :: 0 <= i < |artifacts| && l == Listed(artifacts[i].path, artifacts[i].sha256) {
      ListedElements(artifacts, entries, l);
      assert l in all <==> l in ListedOf(entries) || l == inventory;
    }
  }

  lemma {:induction false} ListedElements(artifacts: seq<Artifact>, entries: seq<Artifact>, l: Listed)
    requires forall a :: a in entries <==> a in artifacts
    ensures l in ListedOf(entries) <==>
      exists i :: 0 <= i < |artifacts| && l == Listed(artifacts[i].path, artifacts[i].sha256)
  {
    if l in ListedOf(entries) {
      var k :| 0 <= k < |entries| && ListedOf(entries)[k] == l;
      assert entries[k] in artifacts;
      var i :| 0 <= i < |artifacts| && artifacts[i] == entries[k];
      assert l == Listed(artifacts[i].path, artifacts[i].sha256);
    }
    if i :| 0 <= i < |artifacts| && l == Listed(artifacts[i].path, artifacts[i].sha256) {
      assert artifacts[i] in entries;
      var k :| 0 <= k < |entries| && entries[k] == artifacts[i];
      assert ListedOf(entries)[k] == l;
    }
  }

  /** Sorted artifacts and the inventory have distinct paths. */
  lemma {:induction false} ListedSorted(entries: seq<Artifact>, inventory: Listed)
    requires SortedByKey(entries, PathOf) && forall a :: a in entries ==> a.path != inventory.path
    ensures DistinctKeys(ListedOf(entries) + [inventory], ListedPath)
  {
    hide Less;
    SortedIsDistinct(entries, PathOf);
    var all := ListedOf(entries) + [inventory];
    forall i, j | 0 <= i < j < |all| ensures ListedPath(all[i]) != ListedPath(all[j]) {
      assert entries[i] in entries;
      if j < |entries| { assert PathOf(entries[i]) != PathOf(entries[j]); }
    }
  }

  function RolesOf(artifacts: seq<Artifact>): set<Role> { set i | 0 <= i < |artifacts| :: artifacts[i].role }

  predicate FilesKept(before: Files, after: Files) { forall p :: p in before ==> p in after && after[p] == before[p] }

  /** Nothing is in the second map but the first and the extra paths. */
  predicate Within(before: Files, after: Files, extra: set<Text>) {
    forall p :: p in after ==> p in before || p in extra
  }

  /** The first artifact is no longer in the staging directory: it went with the directory. */
  predicate Moved(artifacts: seq<Artifact>, staging: Files) { artifacts != [] && artifacts[0].path !in staging }

  /** The directories above a path. */
  function Above(p: Text): set<Text> { set i | 0 < i < |p| && p[i] == SLASH :: p[..i] }

  function AllAbove(xs: seq<Input>): set<Text> {
    if xs == [] then {} else AllAbove(xs[..|xs| - 1]) + Above(xs[|xs| - 1].path)
  }

  /** Every file lies in directories that are there, and none is a directory itself. */
  predicate Tree(files: Files, directories: set<Text>) {
    forall p :: p in files ==> p !in directories && Above(p) <= directories
  }

  /** A path cannot be written where a file or a directory is, nor below a file. */
  predicate Blocked(p: Text, files: Files, directories: set<Text>) {
    p in files || p in directories || exists d :: d in Above(p) && d in files
  }

  /** A group cannot be written if one of its paths is blocked from the start, or lies below another. */
  predicate InTheWay(xs: seq<Input>, files: Files, directories: set<Text>) {
    || (exists i :: 0 <= i < |xs| && Blocked(xs[i].path, files, directories))
    || (exists i, j :: 0 <= i < |xs| && 0 <= j < |xs| && xs[i].path in Above(xs[j].path))
  }

  /** The names of the record's own listings are not free: an artifact may lie below one of them. */
  predicate Taken(files: Files, directories: set<Text>) {
    INVENTORY in files || INVENTORY in directories || MANIFEST in files || MANIFEST in directories
  }

  /** The first n paths of a group are free of everything that was there and of each other. */
  predicate Free(xs: seq<Input>, n: nat, files: Files, directories: set<Text>)
    requires n <= |xs|
  {
    && (forall i :: 0 <= i < n ==> !Blocked(xs[i].path, files, directories))
    && (forall i, j :: 0 <= i < n && 0 <= j < n ==> xs[i].path !in Above(xs[j].path))
  }

  predicate Distinct(xs: seq<Input>) { forall i, j :: 0 <= i < j < |xs| ==> xs[i].path != xs[j].path }

  class Record {
    const runId: string
    /** Whether the operation at a step fails, and whether a removal at a step does. */
    const faults: nat -> bool
    const stuck: nat -> bool

    var staging: Files
    var directories: set<Text>
    var published: Option<Files>
    var artifacts: seq<Artifact>
    var sealed: bool
    var step: nat

    ghost predicate Valid()
      reads this
    {
      && DistinctPaths(artifacts)
      && (forall i :: 0 <= i < |artifacts| ==> SafePath(artifacts[i].path))
      && (if published.None? then OnFile(artifacts, staging) else Moved(artifacts, staging))
      && (sealed ==> published.Some?) && Tree(staging, directories)
    }

    ghost predicate Faulty(from: nat, to: nat) { exists n :: from <= n < to && faults(n) }
    ghost predicate Stuck(from: nat, to: nat) { exists n :: from <= n < to && stuck(n) }

    constructor (runId: string, staging: Files, directories: set<Text>, faults: nat -> bool, stuck: nat -> bool)
      requires Tree(staging, directories)
      ensures Valid() && artifacts == [] && !sealed && published.None?
      ensures this.staging == staging && this.directories == directories
    {
      this.runId, this.staging, this.directories, this.faults, this.stuck := runId, staging, directories, faults, stuck;
      published, artifacts, sealed, step := None, [], false, 0;
    }

    method Attempt() returns (ok: bool)
      modifies this`step
      ensures step == old(step) + 1 && (ok <==> !faults(old(step)))
    {
      ok := !faults(step);
      step := step + 1;
    }

    method Remove(p: Text) returns (ok: bool)
      modifies this`staging, this`step
      ensures step == old(step) + 1 && (ok <==> !stuck(old(step)))
      ensures staging == if ok then old(staging) - {p} else old(staging)
    {
      ok := !stuck(step);
      step := step + 1;
      if ok { staging := staging - {p}; }
    }

    /** An exclusive open, the write, and the removal of a file that could not be written. */
    method DurableWrite(p: Text, content: Content) returns (ok: bool)
      modifies this`staging, this`step
      ensures step > old(step) && FilesKept(old(staging), staging) && Within(old(staging), staging, {p})
      ensures ok ==> p !in old(staging) && p !in directories && staging == old(staging)[p := content]
      ensures p in staging ==> p in old(staging) || p !in directories
      ensures !ok ==> p in old(staging) || p in directories || Faulty(old(step), step)
      ensures !ok ==> staging == old(staging) || Stuck(old(step), step)
    {
      var reached := Attempt();
      if !reached {
        assert faults(step - 1);
        return false;
      }
      if p in staging || p in directories { return false; }
      staging := staging[p := Bytes("", 0)];
      ok := Attempt();
      if ok {
        staging := staging[p := content];
      } else {
        assert faults(step - 1);
        var removed := Remove(p);
        if !removed { assert stuck(step - 1); }
        assert old(staging)[p := Bytes("", 0)] - {p} == old(staging);
      }
    }

    /** Writes a group in order; when one write fails, removes the ones before it. Directories made
        on the way stay. */
    method WriteArtifacts(xs: seq<Input>) returns (ok: bool)
      requires Valid()
      modifies this`staging, this`directories, this`step, this`artifacts
      ensures Valid() && FilesKept(old(staging), staging) && Within(old(staging), staging, PathsOf(xs))
      ensures old(directories) <= directories <= old(directories) + AllAbove(xs)
      ensures ok ==>
        && !sealed && Declarable(xs, old(artifacts)) && !InTheWay(xs, old(staging), old(directories))
        && staging == WithInputs(old(staging), xs) && artifacts == old(artifacts) + RecordsOf(xs)
        && directories == old(directories) + AllAbove(xs)
      ensures !ok ==> artifacts == old(artifacts)
      ensures !ok ==> staging == old(staging) || Stuck(old(step), step)
      ensures !ok ==>
        || sealed || !Declarable(xs, artifacts) || InTheWay(xs, old(staging), old(directories))
        || Faulty(old(step), step)
    {
      hide SafePath, DistinctPaths, OnFile, Declarable, Moved, InTheWay, Tree, FilesKept, Within, WithInputs, PathsOf,
           AllAbove;
      AllAboveGrows(xs, 0);
      KeptItself(staging);
      if sealed || !Declarable(xs, artifacts) { return false; }
      DeclarableIsDistinct(xs, artifacts);
      ghost var before, above := staging, directories;
      ok := WriteGroup(xs);
      if published.Some? {
        MovedStays(artifacts, xs, before, staging);
      } else if !ok {
        OnFileStays(artifacts, before, staging);
      }
      if ok {
        artifacts := artifacts + RecordsOf(xs);
        RecordsAreDistinct(old(artifacts), xs);
        if published.None? { RecordsAreOnFile(old(artifacts), before, xs); }
      }
    }

    /** The writes of a group, and their removal when one of them fails. */
    method WriteGroup(xs: seq<Input>) returns (ok: bool)
      requires Tree(staging, directories) && Distinct(xs)
      modifies this`staging, this`directories, this`step
      ensures Tree(staging, directories) && step >= old(step)
      ensures FilesKept(old(staging), staging) && Within(old(staging), staging, PathsOf(xs))
      ensures old(directories) <= directories <= old(directories) + AllAbove(xs)
      ensures ok ==>
        && !InTheWay(xs, old(staging), old(directories)) && staging == WithInputs(old(staging), xs)
        && directories == old(directories) + AllAbove(xs)
      ensures !ok ==> staging == old(staging) || Stuck(old(step), step)
      ensures !ok ==> InTheWay(xs, old(staging), old(directories)) || Faulty(old(step), step)
    {
      hide WithInputs, PathsOf, InTheWay, Tree, Blocked, Above, AllAbove, Free;
      ghost var before, above := staging, directories;
      NoInputs(before);
      assert xs[..0] == [];
      FreeAtFirst(xs, before, above);
      KeptItself(before);
      ok := true;
      var i := 0;
      while i < |xs| && ok
        invariant i <= |xs| && step >= old(step) && Tree(staging, directories)
        invariant Within(before, staging, PathsOf(xs))
        invariant above <= directories && Free(xs, i, before, above)
        invariant ok ==> staging == WithInputs(before, xs[..i]) && directories == above + AllAbove(xs[..i])
        invariant !ok ==> i < |xs| && FilesKept(WithInputs(before, xs[..i]), staging)
        invariant !ok ==> directories <= above + AllAbove(xs[..i + 1])
        invariant !ok ==> staging == WithInputs(before, xs[..i]) || Stuck(old(step), step)
        invariant !ok ==> Faulty(old(step), step) || InTheWay(xs, before, above)
        decreases |xs| - i, ok
      {
        AllAboveNext(xs, i);
        WithInputsNext(before, xs, i);
        PathInPaths(xs, i);
        label Writing:
        ok := WriteOne(xs[i]);
        if ok {
          FreeNext(xs, i, before, above, old@Writing(staging), old@Writing(directories), directories);
          i := i + 1;
        } else if Blocked(xs[i].path, old@Writing(staging), directories) {
          BlockedInGroup(xs, i, before, above, old@Writing(staging), directories);
        }
      }
      FreePaths(xs, i, before, above);
      InputsKeep(before, xs[..i]);
      AllAboveGrows(xs, if ok then i else i + 1);
      if !ok {
        RollBack(before, xs[..i]);
        return;
      }
      assert xs[..i] == xs;
      AllFree(xs, before, above);
    }

    /** The parent directories and the file of one input. */
    method WriteOne(x: Input) returns (ok: bool)
      requires Tree(staging, directories)
      modifies this`staging, this`directories, this`step
      ensures Tree(staging, directories)
      ensures step > old(step) && FilesKept(old(staging), staging) && Within(old(staging), staging, {x.path})
      ensures old(directories) <= directories <= old(directories) + Above(x.path)
      ensures ok ==> !Blocked(x.path, old(staging), directories) && staging == old(staging)[x.path := x.bytes]
      ensures ok ==> directories == old(directories) + Above(x.path)
      ensures !ok ==> Blocked(x.path, old(staging), directories) || Faulty(old(step), step)
      ensures !ok ==> staging == old(staging) || Stuck(old(step), step)
    {
      hide Above;
      ok := MakeDirectories(x.path);
      if ok {
        ghost var before := staging;
        ok := DurableWrite(x.path, x.bytes);
      }
    }

    /** mkdir with all parents: fails exactly at a file, or by a fault. */
    method MakeDirectories(p: Text) returns (ok: bool)
      requires Tree(staging, directories)
      modifies this`directories, this`step
      ensures Tree(staging, directories) && step == old(step) + 1
      ensures ok <==> !faults(old(step)) && forall d :: d in Above(p) ==> d !in staging
      ensures directories == if ok then old(directories) + Above(p) else old(directories)
    {
      hide Above;
      ok := !faults(step) && forall d <- Above(p) :: d !in staging;
      step := step + 1;
      if ok { directories := directories + Above(p); }
    }

    method RollBack(ghost before: Files, written: seq<Input>)
      requires FilesKept(before, staging) && Tree(staging, directories)
      requires forall p :: p in PathsOf(written) ==> p !in before
      modifies this`staging, this`step
      ensures Tree(staging, directories)
      ensures step >= old(step) && FilesKept(before, staging) && Within(old(staging), staging, {})
      ensures old(staging) == WithInputs(before, written) ==> staging == before || Stuck(old(step), step)
    {
      hide WithInputs, Above;
      var start := staging;
      for j := 0 to |written|
        invariant step >= old(step) && FilesKept(before, staging) && Within(start, staging, {})
        invariant Tree(staging, directories)
        invariant staging == start - PathsOf(written[..j]) || Stuck(old(step), step)
      {
        assert written[..j + 1][..j] == written[..j];
        PathsOfLast(written[..j + 1]);
        assert written[j].path in PathsOf(written);
        var removed := Remove(written[j].path);
        if !removed { assert stuck(step - 1); }
      }
      assert written[..|written|] == written;
      RemovingInputs(before, written);
    }

    /** Reads every artifact back, writes the inventory and the manifest, and renames the whole
        staging directory into place. */
    method Seal() returns (r: Option<seq<Listed>>)
      requires Valid()
      modifies this`staging, this`directories, this`step, this`published, this`sealed
      ensures Valid() && artifacts == old(artifacts)
      ensures r.Some? ==> !old(sealed) && sealed && published != old(published)
      ensures r.Some? ==> r.value == ManifestFiles(artifacts, runId)
      ensures published != old(published) ==>
        && old(published).None? && RolesOf(artifacts) == ROLES && !Taken(old(staging), old(directories))
        && published == Some(old(staging)
             [INVENTORY := Inventory(SortByKey(artifacts, PathOf), runId)]
             [MANIFEST := Manifest(ManifestFiles(artifacts, runId))])
      ensures published == old(published) ==> r.None? && sealed == old(sealed) && FilesKept(old(staging), staging)
      ensures r.None? ==>
        || old(published).Some? || RolesOf(artifacts) != ROLES || Taken(old(staging), old(directories))
        || Faulty(old(step), step)
    {
      hide SafePath, DistinctPaths, OnFile, Moved, RolesOf, ManifestFiles, FilesKept, SortByKey;
      KeptItself(staging);
      if sealed || RolesOf(artifacts) != ROLES { return None; }
      var entries := SortByKey(artifacts, PathOf);
      for i := 0 to |entries|
        invariant Valid() && !sealed && published == old(published) && step >= old(step)
        invariant staging == old(staging) && directories == old(directories)
        invariant forall j :: 0 <= j < i ==> entries[j].path in staging
      {
        var read := Attempt();
        assert !read ==> faults(step - 1);
        if published.None? { ReadsBack(artifacts, staging, i); }
        if !read || entries[i].path !in staging || DigestOf(staging[entries[i].path]) != entries[i].sha256 {
          return None;
        }
      }
      if published.Some? { FirstIsMissed(artifacts, staging); }
      r := Publish(entries);
    }

    /** The listings, the rename into place, and the sync of the parent directory. */
    method Publish(entries: seq<Artifact>) returns (r: Option<seq<Listed>>)
      requires Valid() && published.None? && !sealed && RolesOf(artifacts) == ROLES
      requires entries == SortByKey(artifacts, PathOf)
      modifies this`staging, this`directories, this`step, this`published, this`sealed
      ensures Valid() && step > old(step)
      ensures r.Some? ==> sealed && published.Some? && r.value == ManifestFiles(artifacts, runId)
      ensures published.Some? ==>
        && !Taken(old(staging), old(directories))
        && published == Some(old(staging)
             [INVENTORY := Inventory(entries, runId)][MANIFEST := Manifest(ManifestFiles(artifacts, runId))])
      ensures published.None? ==> r.None? && !sealed && FilesKept(old(staging), staging)
      ensures r.None? ==> Taken(old(staging), old(directories)) || Faulty(old(step), step)
    {
      hide Tree, SafePath, DistinctPaths, OnFile, RolesOf, ManifestFiles, FilesKept, SortByKey;
      var files := ManifestFiles(artifacts, runId);
      var before := staging;
      var ok := WriteListings(Inventory(entries, runId), Manifest(files));
      OnFileStays(artifacts, before, staging);
      if !ok { return None; }
      ok := Attempt();
      if ok { ok := Attempt(); }
      if ok {
        NoRolesWithoutArtifacts();
        NothingIsTree();
        published, staging, directories := Some(staging), map[], {};
        ok := Attempt();
      }
      if !ok {
        assert faults(step - 1);
        return None;
      }
      sealed := true;
      return Some(files);
    }

    lemma {:induction false} NoRolesWithoutArtifacts()
      requires RolesOf(artifacts) == ROLES
      ensures artifacts != []
    {
      assert AcceptedAction in ROLES;
    }

    /** The inventory, then the manifest. */
    method WriteListings(inventory: Content, manifest: Content) returns (ok: bool)
      requires Tree(staging, directories)
      modifies this`staging, this`step
      ensures step > old(step) && FilesKept(old(staging), staging) && Tree(staging, directories)
      ensures !ok ==> Taken(old(staging), directories) || Faulty(old(step), step)
      ensures ok ==>
        && !Taken(old(staging), directories)
        && staging == old(staging)[INVENTORY := inventory][MANIFEST := manifest]
    {
      ok := DurableWrite(INVENTORY, inventory);
      if ok { ok := DurableWrite(MANIFEST, manifest); }
    }

    /** Removes an unsealed staging directory. */
    method Abort() returns (ok: bool)
      modifies this`staging, this`directories, this`step
      ensures sealed ==> ok && staging == old(staging)
      ensures !sealed && ok ==> staging == map[]
      ensures !ok ==> staging == old(staging) && Stuck(old(step), step)
    {
      if sealed { return true; }
      ok := !stuck(step);
      step := step + 1;
      if ok { staging, directories := map[], {}; } else { assert stuck(step - 1); }
    }
  }

  lemma {:induction false} NothingIsTree()
    ensures Tree(map[], {})
  {
  }

  lemma {:induction false} NoInputs(files: Files)
    ensures WithInputs(files, []) == files && PathsOf([]) == {} && AllAbove([]) == {}
  {
  }

  lemma {:induction false} WithInputsLast(files: Files, xs: seq<Input>)
    requires xs != []
    ensures WithInputs(files, xs) == WithInputs(files, xs[..|xs| - 1])[xs[|xs| - 1].path := xs[|xs| - 1].bytes]
  {
  }

  lemma {:induction false} PathInPaths(xs: seq<Input>, i: nat)
    requires i < |xs|
    ensures xs[i].path in PathsOf(xs)
  {
  }

  lemma {:induction false} AboveIsShorter(p: Text, d: Text)
    requires d in Above(p)
    ensures |d| < |p|
  {
  }

  lemma {:induction false} AllAboveNext(xs: seq<Input>, i: nat)
    requires i < |xs|
    ensures AllAbove(xs[..i + 1]) == AllAbove(xs[..i]) + Above(xs[i].path)
  {
    assert xs[..i + 1][..i] == xs[..i];
  }

  lemma {:induction false} WithInputsNext(before: Files, xs: seq<Input>, i: nat)
    requires i < |xs|
    ensures WithInputs(before, xs[..i + 1]) == WithInputs(before, xs[..i])[xs[i].path := xs[i].bytes]
  {
    assert xs[..i + 1][..i] == xs[..i];
    WithInputsLast(before, xs[..i + 1]);
  }

  lemma {:induction false} AllAboveGrows(xs: seq<Input>, n: nat)
    requires n <= |xs|
    ensures AllAbove(xs[..n]) <= AllAbove(xs)
    decreases |xs| - n
  {
    if n < |xs| {
      AllAboveNext(xs, n);
      AllAboveGrows(xs, n + 1);
    } else {
      assert xs[..n] == xs;
    }
  }

  /** A directory above one of the first n paths. */
  lemma {:induction false} AboveSome(xs: seq<Input>, n: nat, d: Text) returns (j: nat)
    requires n <= |xs| && d in AllAbove(xs[..n])
    ensures j < n && d in Above(xs[j].path)
  {
    AllAboveNext(xs, n - 1);
    if d in Above(xs[n - 1].path) { return n - 1; }
    j := AboveSome(xs, n - 1, d);
  }

  lemma {:induction false} AboveIsIn(xs: seq<Input>, n: nat, j: nat)
    requires j < n <= |xs|
    ensures Above(xs[j].path) <= AllAbove(xs[..n])
    decreases n
  {
    AllAboveNext(xs, n - 1);
    if j < n - 1 { AboveIsIn(xs, n - 1, j); }
  }

  lemma {:induction false} FreeAtFirst(xs: seq<Input>, files: Files, directories: set<Text>)
    ensures Free(xs, 0, files, directories)
  {
  }

  /** A path that could be written next is free of what was there before and of the ones before it. */
  lemma {:induction false} FreeNext(xs: seq<Input>, i: nat, before: Files, above: set<Text>, files: Files,
                                    was: set<Text>, now: set<Text>)
    requires i < |xs| && Free(xs, i, before, above)
    requires files == WithInputs(before, xs[..i]) && was == above + AllAbove(xs[..i]) && now == was + Above(xs[i].path)
    requires !Blocked(xs[i].path, files, now)
    ensures Free(xs, i + 1, before, above)
  {
    hide WithInputs, AllAbove, Above, PathsOf;
    var p := xs[i].path;
    assert !Blocked(p, before, above) by {
      if Blocked(p, before, above) { BlockedLater(p, before, above, xs[..i], now); }
    }
    forall k, j | 0 <= k < i + 1 && 0 <= j < i + 1 ensures xs[k].path !in Above(xs[j].path) {
      if xs[k].path in Above(xs[j].path) {
        AboveIsShorter(xs[j].path, xs[k].path);
        if k == i {
          AboveIsIn(xs, i, j);
        } else if j == i {
          PathInPaths(xs[..i], k);
          WithInputsAt(before, xs[..i], xs[k].path);
        }
      }
    }
  }

  lemma {:induction false} BlockedLater(p: Text, before: Files, above: set<Text>, xs: seq<Input>, now: set<Text>)
    requires Blocked(p, before, above) && above <= now
    ensures Blocked(p, WithInputs(before, xs), now)
  {
    hide WithInputs, Above, PathsOf;
    WithInputsAt(before, xs, p);
    if d :| d in Above(p) && d in before { WithInputsAt(before, xs, d); }
  }

  /** A path that could not be written next is blocked from the start, or by one of its group. */
  lemma {:induction false} BlockedInGroup(xs: seq<Input>, i: nat, before: Files, above: set<Text>, files: Files,
                                          now: set<Text>)
    requires i < |xs| && Distinct(xs) && files == WithInputs(before, xs[..i])
    requires now <= above + AllAbove(xs[..i + 1]) && Blocked(xs[i].path, files, now)
    ensures InTheWay(xs, before, above)
  {
    hide WithInputs, AllAbove, Above, PathsOf;
    var p := xs[i].path;
    WithInputsAt(before, xs[..i], p);
    EarlierPathsDiffer(xs, i);
    if !Blocked(p, before, above) {
      if p in now {
        var j := AboveSome(xs, i + 1, p);
      } else {
        assert p !in files;
        var d :| d in Above(p) && d in files;
        WithInputsAt(before, xs[..i], d);
        var k := PathAt(xs[..i], d);
        assert xs[k].path in Above(xs[i].path);
      }
    }
  }

  lemma {:induction false} PathAt(xs: seq<Input>, p: Text) returns (k: nat)
    requires p in PathsOf(xs)
    ensures k < |xs| && xs[k].path == p
  {
    k :| 0 <= k < |xs| && xs[k].path == p;
  }

  lemma {:induction false} FreePaths(xs: seq<Input>, n: nat, before: Files, above: set<Text>)
    requires n <= |xs| && Free(xs, n, before, above)
    ensures forall p :: p in PathsOf(xs[..n]) ==> p !in before
  {
    hide Above;
  }

  lemma {:induction false} AllFree(xs: seq<Input>, before: Files, above: set<Text>)
    requires Free(xs, |xs|, before, above)
    ensures !InTheWay(xs, before, above)
  {
    hide Above, Blocked;
  }

  lemma {:induction false} DeclarableIsDistinct(xs: seq<Input>, artifacts: seq<Artifact>)
    requires Declarable(xs, artifacts)
    ensures Distinct(xs)
  {
    hide SafePath;
  }

  lemma {:induction false} EarlierPathsDiffer(xs: seq<Input>, i: nat)
    requires i < |xs| && forall j, k :: 0 <= j < k < |xs| ==> xs[j].path != xs[k].path
    ensures xs[i].path !in PathsOf(xs[..i])
  {
  }

  lemma {:induction false} InputsKeep(files: Files, xs: seq<Input>)
    requires forall p :: p in PathsOf(xs) ==> p !in files
    ensures FilesKept(files, WithInputs(files, xs))
  {
    hide WithInputs, PathsOf;
    forall p | p in files ensures p in WithInputs(files, xs) && WithInputs(files, xs)[p] == files[p] {
      WithInputsAt(files, xs, p);
    }
  }

  /** The digest on record is that of the file, for every artifact. */
  predicate OnFile(artifacts: seq<Artifact>, files: Files) {
    forall i :: 0 <= i < |artifacts| ==>
      artifacts[i].path in files && DigestOf(files[artifacts[i].path]) == artifacts[i].sha256
  }

  lemma {:induction false} KeptItself(files: Files)
    ensures FilesKept(files, files) && forall extra :: Within(files, files, extra)
  {
  }

  lemma {:induction false} OnFileStays(artifacts: seq<Artifact>, before: Files, after: Files)
    requires OnFile(artifacts, before) && FilesKept(before, after)
    ensures OnFile(artifacts, after)
  {
  }

  lemma {:induction false} WrittenBytes(before: Files, xs: seq<Input>, i: nat)
    requires i < |xs| && forall j, k :: 0 <= j < k < |xs| ==> xs[j].path != xs[k].path
    ensures xs[i].path in WithInputs(before, xs) && WithInputs(before, xs)[xs[i].path] == xs[i].bytes
  {
    var last := |xs| - 1;
    if i < last { WrittenBytes(before, xs[..last], i); }
  }

  lemma {:induction false} RecordsAreOnFile(artifacts: seq<Artifact>, before: Files, xs: seq<Input>)
    requires OnFile(artifacts, before) && Declarable(xs, artifacts)
    ensures OnFile(artifacts + RecordsOf(xs), WithInputs(before, xs))
  {
    hide SafePath, WithInputs, PathsOf;
    var all, files := artifacts + RecordsOf(xs), WithInputs(before, xs);
    forall i | 0 <= i < |all| ensures all[i].path in files && DigestOf(files[all[i].path]) == all[i].sha256 {
      if i < |artifacts| {
        NotInGroup(artifacts, xs, i);
        WithInputsAt(before, xs, artifacts[i].path);
      } else {
        WrittenBytes(before, xs, i - |artifacts|);
      }
    }
  }

  lemma {:induction false} RecordsAreDistinct(artifacts: seq<Artifact>, xs: seq<Input>)
    requires DistinctPaths(artifacts) && Declarable(xs, artifacts)
    requires forall i :: 0 <= i < |artifacts| ==> SafePath(artifacts[i].path)
    ensures
      var all := artifacts + RecordsOf(xs);
      DistinctPaths(all) && forall i :: 0 <= i < |all| ==> SafePath(all[i].path)
  {
    hide SafePath;
    var all := artifacts + RecordsOf(xs);
    forall i, j | 0 <= i < j < |all| ensures PathOf(all[i]) != PathOf(all[j]) {
      if j < |artifacts| { assert PathOf(artifacts[i]) != PathOf(artifacts[j]); }
    }
  }

  /** A path once declared cannot be declared again, so the first artifact stays away. */
  lemma {:induction false} MovedStays(artifacts: seq<Artifact>, xs: seq<Input>, before: Files, after: Files)
    requires Moved(artifacts, before) && Declarable(xs, artifacts) && Within(before, after, PathsOf(xs))
    ensures Moved(artifacts, after) && Moved(artifacts + RecordsOf(xs), after)
  {
    hide PathsOf, SafePath;
    NotInGroup(artifacts, xs, 0);
  }

  /** Every sorted entry reads back as it was written. */
  lemma {:induction false} ReadsBack(artifacts: seq<Artifact>, files: Files, i: nat)
    requires OnFile(artifacts, files) && i < |SortByKey(artifacts, PathOf)|
    ensures
      var e := SortByKey(artifacts, PathOf)[i];
      e.path in files && DigestOf(files[e.path]) == e.sha256
  {
    SortElements(artifacts, PathOf);
    var e := SortByKey(artifacts, PathOf)[i];
    assert e in artifacts;
  }

  lemma {:induction false} FirstIsMissed(artifacts: seq<Artifact>, files: Files)
    requires Moved(artifacts, files)
    ensures exists j :: 0 <= j < |SortByKey(artifacts, PathOf)| && SortByKey(artifacts, PathOf)[j].path !in files
  {
    SortElements(artifacts, PathOf);
    assert artifacts[0] in SortByKey(artifacts, PathOf);
  }

  lemma {:induction false} NotInGroup(artifacts: seq<Artifact>, xs: seq<Input>, i: nat)
    requires i < |artifacts| && Declarable(xs, artifacts)
    ensures artifacts[i].path !in PathsOf(xs)
  {
    hide SafePath;
  }

  /** The names that a record keeps for itself. */
  lemma {:induction false} NamesSpelled()
    ensures INVENTORY == Ascii("inventory.json") && MANIFEST == Ascii("manifest.json")
  {
  }

  /** A part that normalization would drop or resolve. */
  predicate Redundant(part: Text) { part == [] || part == Ascii(".") || part == Ascii("..") }

  /** A group may be declared exactly if it has artifacts, each under such a path that no other and no
      earlier one has, and none over 1,073,741,824 bytes. */
  lemma {:induction false} DeclarableExactly(xs: seq<Input>, artifacts: seq<Artifact>)
    ensures Declarable(xs, artifacts) <==>
      && |xs| >= 1
      && (forall x :: x in xs ==> Kept(x.path) && x.bytes.Bytes? && x.bytes.size <= 1_073_741_824)
      && (forall i, j :: 0 <= i < j < |xs| ==> xs[i].path != xs[j].path)
      && forall x, a :: x in xs && a in artifacts ==> x.path != a.path
  {
    hide Parts;
    forall x: Input ensures SafePath(x.path) <==> Kept(x.path) { SafePathExactly(x.path); }
    assert (forall i :: 0 <= i < |xs| ==> SafePath(xs[i].path) && xs[i].bytes.Bytes? && xs[i].bytes.size <= MAX_BYTES)
      <==> forall x :: x in xs ==> Kept(x.path) && x.bytes.Bytes? && x.bytes.size <= 1_073_741_824;
    forall x, a | x in xs && a in artifacts
      ensures (exists i, j :: 0 <= i < |xs| && 0 <= j < |artifacts| && xs[i] == x && artifacts[j] == a)
    {
      var i :| 0 <= i < |xs| && xs[i] == x;
      var j :| 0 <= j < |artifacts| && artifacts[j] == a;
    }
  }

  /** A relative, normal path of at most 4096 units that is none of the record's own. */
  predicate Kept(path: Text) {
    && 1 <= |path| <= 4096 && path != Ascii("inventory.json") && path != Ascii("manifest.json")
    && forall part :: part in Parts(path) ==> !Redundant(part)
  }

  lemma {:induction false} SafePathExactly(t: Text)
    ensures SafePath(t) <==> Kept(t)
  {
    hide Parts;
    NamesSpelled();
    assert Ascii(".") == [46] && Ascii("..") == [46, 46];
    forall i | 0 <= i < |Parts(t)|
      ensures Redundant(Parts(t)[i]) <==> Parts(t)[i] == [] || Parts(t)[i] == [46] || Parts(t)[i] == [46, 46]
    {}
  }
}
