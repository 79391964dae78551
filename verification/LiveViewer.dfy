/** Publication of live viewer snapshots: four atomic writes with the declaration last as
    the commit marker, a rollback that may itself fail, and a frontier that never moves back. */
module LiveViewer {
  import opened Wrappers

  type Body = string

  datatype Sample = Sample(tick: nat, body: Body)

  /** A parsed trace with the bytes it came from; the digest of the bytes is free. */
  datatype Snapshot = Snapshot(runId: string, samples: seq<Sample>, size: nat, header: Body)
  datatype SnapshotDigest = DigestOf(snapshot: Snapshot) | OtherDigest(name: string)

  datatype Artifact = Artifact(id: string, mediaType: string, path: string, maxBytes: nat)

  datatype Request = Request(runId: string, artifact: Artifact)

  datatype Source = Source(
    artifactId: string, mediaType: string, runId: string, current: bool, size: nat,
    contentDigest: SnapshotDigest, request: Request, requestDigestMatches: bool)

  datatype Path = SnapshotPath(publication: nat) | LedgerPath | FramesPath | DeclarationPath

  datatype Row = Row(tick: nat, source: SnapshotDigest, body: Body)
  datatype Line = Line(publication: nat, path: Path, digest: SnapshotDigest, frontier: int, sampleCount: nat)

  datatype File =
    | SnapshotFile(snapshot: Snapshot)
    | LedgerFile(lines: seq<Line>)
    | FramesFile(header: Body, rows: seq<Row>)
    | DeclarationFile(path: Path, digest: SnapshotDigest)

  type Disk = map<Path, File>

  // ---- what a publication adds ---------------------------------------------------------------

  /** parseTrace admits no tick twice. */
  predicate DistinctTicks(samples: seq<Sample>) {
    forall i, j :: 0 <= i < j < |samples| ==> samples[i].tick != samples[j].tick
  }

  predicate Admissible(live: Artifact, runId: string, snapshot: Snapshot, source: Source) {
    && source.artifactId == live.id && source.mediaType == live.mediaType && source.runId == runId
    && source.current && source.size == snapshot.size && source.size <= live.maxBytes
    && source.contentDigest == DigestOf(snapshot) && source.requestDigestMatches
    && source.request.runId == runId && source.request.artifact == live
    && snapshot.runId == runId && DistinctTicks(snapshot.samples)
  }

  function MaxTick(samples: seq<Sample>): Option<nat> {
    if samples == [] then None
    else match MaxTick(samples[1..])
      case None => Some(samples[0].tick)
      case Some(t) => Some(if samples[0].tick > t then samples[0].tick else t)
  }

  function Above(samples: seq<Sample>, frontier: int): seq<Sample> {
    if samples == [] then []
    else (if samples[0].tick > frontier then [samples[0]] else []) + Above(samples[1..], frontier)
  }

  function InsertTick(x: Sample, samples: seq<Sample>): seq<Sample> {
    if samples == [] || x.tick < samples[0].tick then [x] + samples
    else [samples[0]] + InsertTick(x, samples[1..])
  }

  function ByTick(samples: seq<Sample>): seq<Sample> {
    if samples == [] then [] else InsertTick(samples[0], ByTick(samples[1..]))
  }

  /** The samples a publication adds to the frames. */
  function Fresh(snapshot: Snapshot, frontier: int): seq<Sample> { ByTick(Above(snapshot.samples, frontier)) }

  function RowsOf(samples: seq<Sample>, source: SnapshotDigest): (rows: seq<Row>)
    ensures |rows| == |samples|
    ensures forall i :: 0 <= i < |rows| ==> rows[i] == Row(samples[i].tick, source, samples[i].body)
  {
    seq(|samples|, i requires 0 <= i < |samples| => Row(samples[i].tick, source, samples[i].body))
  }

  function NextFrontier(snapshot: Snapshot, frontier: int): int {
    var newer := Fresh(snapshot, frontier);
    if newer == [] then frontier else newer[|newer| - 1].tick
  }

  // ---- what the published snapshots amount to ---------------------------------------------------

  function Frontier(pubs: seq<Snapshot>): int {
    if pubs == [] then -1 else NextFrontier(pubs[|pubs| - 1], Frontier(pubs[..|pubs| - 1]))
  }

  function Rows(pubs: seq<Snapshot>): seq<Row> {
    if pubs == [] then []
    else
      var before := pubs[..|pubs| - 1];
      var last := pubs[|pubs| - 1];
      Rows(before) + RowsOf(Fresh(last, Frontier(before)), DigestOf(last))
  }

  function LineFor(pubs: seq<Snapshot>, snapshot: Snapshot): Line {
    Line(|pubs| + 1, SnapshotPath(|pubs| + 1), DigestOf(snapshot), NextFrontier(snapshot, Frontier(pubs)),
         |snapshot.samples|)
  }

  function Lines(pubs: seq<Snapshot>): seq<Line> {
    if pubs == [] then []
    else Lines(pubs[..|pubs| - 1]) + [LineFor(pubs[..|pubs| - 1], pubs[|pubs| - 1])]
  }

  // ---- disk states --------------------------------------------------------------------------------

  /** A declaration names a snapshot that is there with that digest, beside a ledger and
      frames that extend those of the publication it declares. */
  predicate Consistent(d: Disk, pubs: seq<Snapshot>) {
    DeclarationPath in d ==> exists k :: 1 <= k <= |pubs| && Declares(d, pubs[..k])
  }

  predicate Declares(d: Disk, pubs: seq<Snapshot>) {
    && pubs != [] && DeclarationPath in d && SnapshotPath(|pubs|) in d && LedgerPath in d && FramesPath in d
    && d[DeclarationPath] == DeclarationFile(SnapshotPath(|pubs|), DigestOf(pubs[|pubs| - 1]))
    && d[SnapshotPath(|pubs|)] == SnapshotFile(pubs[|pubs| - 1])
    && d[LedgerPath].LedgerFile? && Lines(pubs) <= d[LedgerPath].lines
    && d[FramesPath].FramesFile? && d[FramesPath].header == pubs[0].header && Rows(pubs) <= d[FramesPath].rows
  }

  /** The file that belongs at a path when just these publications were made. */
  function FileAt(p: Path, pubs: seq<Snapshot>): Option<File> {
    match p
    case SnapshotPath(k) => if 1 <= k <= |pubs| then Some(SnapshotFile(pubs[k - 1])) else None
    case LedgerPath => if pubs == [] then None else Some(LedgerFile(Lines(pubs)))
    case FramesPath => if pubs == [] then None else Some(FramesFile(pubs[0].header, Rows(pubs)))
    case DeclarationPath =>
      if pubs == [] then None else Some(DeclarationFile(SnapshotPath(|pubs|), DigestOf(pubs[|pubs| - 1])))
  }

  function At(d: Disk, p: Path): Option<File> { if p in d then Some(d[p]) else None }

  /** The disk is what these publications amount to and nothing else. */
  ghost predicate Exact(d: Disk, pubs: seq<Snapshot>) { forall p :: At(d, p) == FileAt(p, pubs) }

  /** No snapshot beyond the one being published was ever written. */
  predicate Tidy(staged: set<Path>, n: nat) {
    forall p :: p in staged ==> p.SnapshotPath? && 1 <= p.publication <= n + 1
  }

  lemma {:induction false} DeclaredIsExact(d: Disk, pubs: seq<Snapshot>)
    requires pubs != [] && UpToDate(d, pubs)
    requires forall p :: p in d && p.SnapshotPath? ==> 1 <= p.publication <= |pubs|
    requires d[LedgerPath] == LedgerFile(Lines(pubs)) && d[FramesPath] == FramesFile(pubs[0].header, Rows(pubs))
    ensures Exact(d, pubs)
  {
    hide Lines, Rows;
  }

  /** While publishing, the declared publication is always the last one published. */
  predicate UpToDate(d: Disk, pubs: seq<Snapshot>) {
    && (pubs == [] ==> DeclarationPath !in d)
    && (pubs != [] ==> Declares(d, pubs))
    && forall k :: 1 <= k <= |pubs| ==> SnapshotPath(k) in d && d[SnapshotPath(k)] == SnapshotFile(pubs[k - 1])
  }

  lemma {:induction false} UpToDateIsConsistent(d: Disk, pubs: seq<Snapshot>)
    requires UpToDate(d, pubs)
    ensures Consistent(d, pubs)
  {
    if pubs != [] { assert pubs[..|pubs|] == pubs; }
  }

  lemma {:induction false} ConsistentLater(d: Disk, pubs: seq<Snapshot>, later: seq<Snapshot>)
    requires Consistent(d, pubs) && pubs <= later
    ensures Consistent(d, later)
  {
    if DeclarationPath in d {
      var k :| 1 <= k <= |pubs| && Declares(d, pubs[..k]);
      assert later[..k] == pubs[..k];
    }
  }

  // ---- the frames -------------------------------------------------------------------------------------

  predicate Increasing(rows: seq<Row>) {
    forall i, j :: 0 <= i < j < |rows| ==> rows[i].tick < rows[j].tick
  }

  predicate IncreasingTicks(samples: seq<Sample>) {
    forall i, j :: 0 <= i < j < |samples| ==> samples[i].tick < samples[j].tick
  }

  lemma {:induction false} AboveElements(samples: seq<Sample>, frontier: int)
    ensures forall x :: x in Above(samples, frontier) <==> x in samples && x.tick > frontier
    ensures DistinctTicks(samples) ==> DistinctTicks(Above(samples, frontier))
  {
    if samples != [] {
      AboveElements(samples[1..], frontier);
      assert samples == [samples[0]] + samples[1..];
      if DistinctTicks(samples) {
        var rest := Above(samples[1..], frontier);
        forall i | 0 <= i < |rest| ensures rest[i].tick != samples[0].tick { assert rest[i] in samples[1..]; }
      }
    }
  }

  lemma {:induction false} InsertTickElements(x: Sample, samples: seq<Sample>)
    requires IncreasingTicks(samples) && forall y :: y in samples ==> y.tick != x.tick
    ensures forall y :: y in InsertTick(x, samples) <==> y == x || y in samples
    ensures IncreasingTicks(InsertTick(x, samples))
  {
    if samples != [] && x.tick >= samples[0].tick {
      InsertTickElements(x, samples[1..]);
      assert samples == [samples[0]] + samples[1..];
      var rest := InsertTick(x, samples[1..]);
      forall i | 0 <= i < |rest| ensures samples[0].tick < rest[i].tick { assert rest[i] in rest; }
    }
  }

  lemma {:induction false} ByTickElements(samples: seq<Sample>)
    requires DistinctTicks(samples)
    ensures forall y :: y in ByTick(samples) <==> y in samples
    ensures IncreasingTicks(ByTick(samples))
  {
    if samples != [] {
      ByTickElements(samples[1..]);
      assert samples == [samples[0]] + samples[1..];
      forall y | y in ByTick(samples[1..]) ensures y.tick != samples[0].tick {
        assert y in samples[1..];
      }
      InsertTickElements(samples[0], ByTick(samples[1..]));
    }
  }

  /** A publication adds exactly its samples above the frontier, in order of tick. */
  lemma {:induction false} FreshElements(snapshot: Snapshot, frontier: int)
    requires DistinctTicks(snapshot.samples)
    ensures forall x :: x in Fresh(snapshot, frontier) <==> x in snapshot.samples && x.tick > frontier
    ensures IncreasingTicks(Fresh(snapshot, frontier))
    ensures NextFrontier(snapshot, frontier) >= frontier
    ensures forall x :: x in Fresh(snapshot, frontier) ==> x.tick <= NextFrontier(snapshot, frontier)
  {
    hide Above, ByTick;
    AboveElements(snapshot.samples, frontier);
    ByTickElements(Above(snapshot.samples, frontier));
    var newer := Fresh(snapshot, frontier);
    assert newer != [] ==> newer[|newer| - 1] in newer;
    forall x | x in newer ensures x.tick <= newer[|newer| - 1].tick {
      var i :| 0 <= i < |newer| && newer[i] == x;
      assert i < |newer| - 1 ==> newer[i].tick < newer[|newer| - 1].tick;
    }
  }

  predicate AllDistinct(pubs: seq<Snapshot>) {
    forall k :: 0 <= k < |pubs| ==> DistinctTicks(pubs[k].samples)
  }

  lemma {:induction false} AppendedRowsIncrease(rows: seq<Row>, samples: seq<Sample>, source: SnapshotDigest,
                                                frontier: int, next: int)
    requires Increasing(rows) && IncreasingTicks(samples)
    requires forall i :: 0 <= i < |rows| ==> rows[i].tick <= frontier
    requires forall i :: 0 <= i < |samples| ==> frontier < samples[i].tick <= next
    requires frontier <= next
    ensures Increasing(rows + RowsOf(samples, source))
    ensures forall i :: 0 <= i < |rows + RowsOf(samples, source)| ==> (rows + RowsOf(samples, source))[i].tick <= next
  {
    var added := RowsOf(samples, source);
    var all := rows + added;
    forall i, j | 0 <= i < j < |all| ensures all[i].tick < all[j].tick {
      if |rows| <= i {
        assert all[i] == added[i - |rows|] && all[j] == added[j - |rows|];
      } else if |rows| <= j {
        assert all[i] == rows[i] && all[j] == added[j - |rows|];
      } else {
        assert all[i] == rows[i] && all[j] == rows[j];
      }
    }
  }

  /** The frames of any number of publications have strictly increasing ticks that end at
      the frontier. */
  lemma {:induction false} FramesIncrease(pubs: seq<Snapshot>)
    requires AllDistinct(pubs)
    ensures Increasing(Rows(pubs))
    ensures forall i :: 0 <= i < |Rows(pubs)| ==> Rows(pubs)[i].tick <= Frontier(pubs)
    ensures if Rows(pubs) == [] then Frontier(pubs) == -1 else Rows(pubs)[|Rows(pubs)| - 1].tick == Frontier(pubs)
  {
    hide Fresh, Increasing;
    if pubs == [] {
      NoRowsIncrease();
    } else {
      var before, last := pubs[..|pubs| - 1], pubs[|pubs| - 1];
      FramesIncrease(before);
      FreshElements(last, Frontier(before));
      var newer := Fresh(last, Frontier(before));
      forall i | 0 <= i < |newer| ensures Frontier(before) < newer[i].tick <= Frontier(pubs) {
        assert newer[i] in newer;
      }
      AppendedRowsIncrease(Rows(before), newer, DigestOf(last), Frontier(before), Frontier(pubs));
    }
  }

  lemma {:induction false} NoRowsIncrease()
    ensures Increasing([])
  {
  }

  /** Publication k of any history contributed exactly its samples above the frontier that
      the publications before it had reached. */
  lemma {:induction false} EachContributesItsOwn(pubs: seq<Snapshot>, k: nat, x: Sample)
    requires AllDistinct(pubs) && k < |pubs|
    ensures Rows(pubs[..k]) <= Rows(pubs[..k + 1]) <= Rows(pubs)
    ensures Row(x.tick, DigestOf(pubs[k]), x.body) in Rows(pubs[..k + 1])[|Rows(pubs[..k])|..]
            <==> x in pubs[k].samples && x.tick > Frontier(pubs[..k])
  {
    hide Fresh, AllDistinct, RowsOf, Frontier;
    var now := pubs[..k + 1];
    assert now[..k] == pubs[..k];
    var newer := Fresh(pubs[k], Frontier(pubs[..k]));
    var added := RowsOf(newer, DigestOf(pubs[k]));
    assert Rows(now) == Rows(pubs[..k]) + added;
    assert Rows(now)[|Rows(pubs[..k])|..] == added;
    RowsGrow(pubs, k + 1);
    assert DistinctTicks(pubs[k].samples) by { DistinctAt(pubs, k); }
    FreshElements(pubs[k], Frontier(pubs[..k]));
    RowOfSample(newer, DigestOf(pubs[k]), x);
  }

  lemma {:induction false} DistinctAt(pubs: seq<Snapshot>, k: nat)
    requires AllDistinct(pubs) && k < |pubs|
    ensures DistinctTicks(pubs[k].samples)
  {
  }

  lemma {:induction false} RowOfSample(samples: seq<Sample>, source: SnapshotDigest, x: Sample)
    ensures Row(x.tick, source, x.body) in RowsOf(samples, source) <==> x in samples
  {
    var rows := RowsOf(samples, source);
    if x in samples {
      var i :| 0 <= i < |samples| && samples[i] == x;
      assert rows[i] == Row(x.tick, source, x.body);
    }
    if Row(x.tick, source, x.body) in rows {
      var i :| 0 <= i < |rows| && rows[i] == Row(x.tick, source, x.body);
      assert samples[i] == x;
    }
  }

  lemma {:induction false} RowsGrow(pubs: seq<Snapshot>, n: nat)
    requires n <= |pubs|
    ensures Rows(pubs[..n]) <= Rows(pubs)
    decreases |pubs|
  {
    hide Fresh;
    if n == |pubs| {
      assert pubs[..n] == pubs;
    } else {
      var before := pubs[..|pubs| - 1];
      RowsGrow(before, n);
      assert before[..n] == pubs[..n];
    }
  }

  // ---- one write at a time ------------------------------------------------------------------------

  lemma {:induction false} LinesGrow(pubs: seq<Snapshot>, snapshot: Snapshot)
    ensures Lines(pubs + [snapshot]) == Lines(pubs) + [LineFor(pubs, snapshot)]
    ensures Rows(pubs + [snapshot]) == Rows(pubs) + RowsOf(Fresh(snapshot, Frontier(pubs)), DigestOf(snapshot))
    ensures Frontier(pubs + [snapshot]) == NextFrontier(snapshot, Frontier(pubs))
  {
    hide Fresh;
    assert (pubs + [snapshot])[..|pubs|] == pubs;
  }

  /** The writes before the declaration touch nothing the declared publication needs. */
  predicate Preparatory(p: Path, f: File, pubs: seq<Snapshot>) {
    || p == SnapshotPath(|pubs| + 1)
    || (p == LedgerPath && f.LedgerFile? && Lines(pubs) <= f.lines)
    || (p == FramesPath && f.FramesFile? && Rows(pubs) <= f.rows && (pubs != [] ==> f.header == pubs[0].header))
    || (p == DeclarationPath && pubs != []
        && f == DeclarationFile(SnapshotPath(|pubs|), DigestOf(pubs[|pubs| - 1])))
  }

  lemma {:induction false} PreparatoryKeeps(d: Disk, p: Path, f: File, pubs: seq<Snapshot>)
    requires UpToDate(d, pubs) && Preparatory(p, f, pubs)
    ensures UpToDate(d[p := f], pubs)
  {
    hide Lines, Rows;
  }

  lemma {:induction false} RemovalKeeps(d: Disk, p: Path, pubs: seq<Snapshot>)
    requires UpToDate(d, pubs) && (p == SnapshotPath(|pubs| + 1) || pubs == [])
    requires pubs == [] || p.SnapshotPath?
    ensures UpToDate(d - {p}, pubs)
  {
    hide Lines, Rows;
  }

  /** The declaration commits: with everything else in place it makes the next publication
      the declared one. */
  lemma {:induction false} DeclarationCommits(d: Disk, pubs: seq<Snapshot>, snapshot: Snapshot, header: Body)
    requires UpToDate(d, pubs) &&
      (pubs == [] ==> header == snapshot.header) && (pubs != [] ==> header == pubs[0].header)
    requires SnapshotPath(|pubs| + 1) in d && d[SnapshotPath(|pubs| + 1)] == SnapshotFile(snapshot)
    requires LedgerPath in d && d[LedgerPath] == LedgerFile(Lines(pubs + [snapshot]))
    requires FramesPath in d && d[FramesPath] == FramesFile(header, Rows(pubs + [snapshot]))
    ensures
      var next := d[DeclarationPath := DeclarationFile(SnapshotPath(|pubs| + 1), DigestOf(snapshot))];
      UpToDate(next, pubs + [snapshot])
  {
    hide Lines, Rows;
  }

  /** A trace that ends before the frontier, or is empty once there is one. */
  predicate Regresses(snapshot: Snapshot, frontier: int) {
    frontier >= 0 && (MaxTick(snapshot.samples).None? || MaxTick(snapshot.samples).value < frontier)
  }

  lemma {:induction false} MaxTickIs(samples: seq<Sample>)
    ensures MaxTick(samples).None? <==> samples == []
    ensures MaxTick(samples).Some? ==> exists x :: x in samples && x.tick == MaxTick(samples).value
    ensures forall x :: x in samples ==> MaxTick(samples).Some? && x.tick <= MaxTick(samples).value
  {
    if samples != [] {
      MaxTickIs(samples[1..]);
      assert samples == [samples[0]] + samples[1..];
    }
  }

  /** No sample at or above the frontier, once there is one. */
  lemma {:induction false} RegressesExactly(snapshot: Snapshot, frontier: int)
    ensures Regresses(snapshot, frontier) <==>
      frontier >= 0 && forall x :: x in snapshot.samples ==> x.tick < frontier
  {
    MaxTickIs(snapshot.samples);
  }

  /** The frontier is the largest tick of all samples ever published, and -1 when there was none. */
  lemma {:induction false} FrontierIsMaximum(pubs: seq<Snapshot>)
    requires AllDistinct(pubs)
    ensures Frontier(pubs) >= -1
    ensures forall k, x :: 0 <= k < |pubs| && x in pubs[k].samples ==> x.tick <= Frontier(pubs)
    ensures Frontier(pubs) >= 0 ==>
      exists k, x :: 0 <= k < |pubs| && x in pubs[k].samples && x.tick == Frontier(pubs)
  {
    hide Fresh;
    if pubs != [] {
      var before, last := pubs[..|pubs| - 1], pubs[|pubs| - 1];
      FrontierIsMaximum(before);
      FreshElements(last, Frontier(before));
      var newer := Fresh(last, Frontier(before));
      forall k, x | 0 <= k < |pubs| && x in pubs[k].samples ensures x.tick <= Frontier(pubs) {
        if k < |before| { assert pubs[k] == before[k]; } else if x.tick > Frontier(before) { assert x in newer; }
      }
      if newer != [] {
        assert newer[|newer| - 1] in newer;
        assert pubs[|pubs| - 1].samples == last.samples;
      } else if Frontier(pubs) >= 0 {
        var k, x :| 0 <= k < |before| && x in before[k].samples && x.tick == Frontier(before);
        assert pubs[k] == before[k];
      }
    }
  }

  /** Line k of the ledger names publication k, its snapshot, its digest and the frontier it reached. */
  lemma {:induction false} LinesAre(pubs: seq<Snapshot>, k: nat)
    requires k < |pubs|
    ensures |Lines(pubs)| == |pubs|
    ensures Lines(pubs)[k] ==
      Line(k + 1, SnapshotPath(k + 1), DigestOf(pubs[k]), Frontier(pubs[..k + 1]), |pubs[k].samples|)
  {
    hide Fresh;
    LinesCount(pubs);
    var before := pubs[..|pubs| - 1];
    LinesCount(before);
    if k == |pubs| - 1 {
      assert pubs[..k + 1] == pubs;
    } else {
      LinesAre(before, k);
      assert before[..k + 1] == pubs[..k + 1];
    }
  }

  datatype Published = Published(frontier: int, publications: nat, artifacts: seq<(Path, File)>)

  /** An operation that was begun beside one that failed, and that nobody waits for any more. */
  datatype Late = LateWrite(path: Path, file: File) | LateRemove(path: Path)

  function Effect(d: Disk, l: Late): Disk {
    match l
    case LateWrite(p, f) => d[p := f]
    case LateRemove(p) => d - {p}
  }

  /** What it restores is what belongs there. */
  predicate Current(l: Late, pubs: seq<Snapshot>) {
    l.LateWrite? ==> FileAt(l.path, pubs) == Some(l.file)
  }

  ghost predicate AllCurrent(ls: seq<Late>, pubs: seq<Snapshot>) {
    forall i :: 0 <= i < |ls| ==> Current(ls[i], pubs)
  }

  lemma {:induction false} NothingInFlight(pubs: seq<Snapshot>)
    ensures AllCurrent([], pubs) && forall p :: FileAt(p, []) == None
  {
  }

  /** Ledger or frames as they were after some of these publications. */
  ghost predicate Restores(l: Late, pubs: seq<Snapshot>) {
    l.LateWrite? && l.path in {LedgerPath, FramesPath}
    && exists k :: 1 <= k <= |pubs| && FileAt(l.path, pubs[..k]) == Some(l.file)
  }

  lemma {:induction false} RestoresLater(l: Late, pubs: seq<Snapshot>, later: seq<Snapshot>)
    requires Restores(l, pubs) && pubs <= later
    ensures Restores(l, later)
  {
    hide FileAt;
    var k :| 1 <= k <= |pubs| && FileAt(l.path, pubs[..k]) == Some(l.file);
    assert later[..k] == pubs[..k];
  }

  lemma {:induction false} LinesCount(pubs: seq<Snapshot>)
    ensures |Lines(pubs)| == |pubs|
  {
    hide Fresh, Frontier;
    if pubs != [] { LinesCount(pubs[..|pubs| - 1]); }
  }

  /** A restoration that lands late, on a disk where these publications are declared, is harmless
      if and only if what it restores is what was published last. */
  lemma {:induction false} LandingKeepsExactly(d: Disk, l: Late, pubs: seq<Snapshot>)
    requires pubs != [] && UpToDate(d, pubs) && Restores(l, pubs)
    ensures Consistent(Effect(d, l), pubs) <==> Current(l, pubs)
    ensures Current(l, pubs) ==> UpToDate(Effect(d, l), pubs)
  {
    hide Lines, Rows;
    var after := Effect(d, l);
    if Current(l, pubs) { UpToDateIsConsistent(after, pubs); }
    if Consistent(after, pubs) {
      var k :| 1 <= k <= |pubs| && Declares(after, pubs[..k]);
      assert pubs[..k] == pubs;
      var n :| 1 <= n <= |pubs| && FileAt(l.path, pubs[..n]) == Some(l.file);
      if l.path == LedgerPath {
        LinesCount(pubs);
        LinesCount(pubs[..n]);
        assert Lines(pubs[..n]) == Lines(pubs);
      } else {
        RowsGrow(pubs, n);
        assert Rows(pubs[..n]) == Rows(pubs);
      }
    }
  }

  /** In particular an older ledger never fits a newer declaration. */
  lemma {:induction false} OlderLedgerBreaks(d: Disk, pubs: seq<Snapshot>, n: nat)
    requires UpToDate(d, pubs) && 1 <= n < |pubs|
    ensures !Consistent(Effect(d, LateWrite(LedgerPath, LedgerFile(Lines(pubs[..n])))), pubs)
  {
    hide Lines, Rows, UpToDate, Consistent;
    LinesCount(pubs);
    LinesCount(pubs[..n]);
    var l := LateWrite(LedgerPath, LedgerFile(Lines(pubs[..n])));
    assert FileAt(l.path, pubs[..n]) == Some(l.file);
    LandingKeepsExactly(d, l, pubs);
  }

  /** A declaration written after restorations have landed between the writes of its publication
      is consistent if and only if they left both candidates in place. */
  lemma {:induction false} DeclarationKeepsExactly(d: Disk, pubs: seq<Snapshot>, snapshot: Snapshot)
    requires UpToDate(d, pubs) && At(d, SnapshotPath(|pubs| + 1)) == Some(SnapshotFile(snapshot))
    requires forall p :: p in {LedgerPath, FramesPath} ==>
      p in d && (FileAt(p, pubs + [snapshot]) == Some(d[p]) || Restores(LateWrite(p, d[p]), pubs))
    ensures
      var next := pubs + [snapshot];
      Consistent(d[DeclarationPath := DeclarationFile(SnapshotPath(|next|), DigestOf(snapshot))], next)
      <==> forall p :: p in {LedgerPath, FramesPath} ==> FileAt(p, next) == Some(d[p])
  {
    hide Lines, Rows;
    var next := pubs + [snapshot];
    var after := d[DeclarationPath := DeclarationFile(SnapshotPath(|next|), DigestOf(snapshot))];
    if forall p :: p in {LedgerPath, FramesPath} ==> FileAt(p, next) == Some(d[p]) {
      DeclarationCommits(d, pubs, snapshot, next[0].header);
      UpToDateIsConsistent(after, next);
    }
    if Consistent(after, next) {
      var k :| 1 <= k <= |next| && Declares(after, next[..k]);
      assert next[..k] == next;
      forall p | p in {LedgerPath, FramesPath} ensures FileAt(p, next) == Some(d[p]) {
        if Restores(LateWrite(p, d[p]), pubs) { ExtendsOnlyItself(p, d[p], pubs, snapshot); }
      }
    }
  }

  /** No restored ledger holds the next publication, and no restored frames hold more than it has. */
  lemma {:induction false} ExtendsOnlyItself(p: Path, f: File, pubs: seq<Snapshot>, snapshot: Snapshot)
    requires Restores(LateWrite(p, f), pubs)
    requires p == LedgerPath && f.LedgerFile? ==> Lines(pubs + [snapshot]) <= f.lines
    requires p == FramesPath && f.FramesFile? ==> Rows(pubs + [snapshot]) <= f.rows
    ensures FileAt(p, pubs + [snapshot]) == Some(f)
  {
    hide Lines, Rows;
    var next := pubs + [snapshot];
    var n :| 1 <= n <= |pubs| && FileAt(p, pubs[..n]) == Some(f);
    assert next[..n] == pubs[..n];
    LinesCount(next);
    LinesCount(pubs[..n]);
    assert p == FramesPath;
    RowsGrow(next, n);
    assert next[0] == pubs[..n][0] && Rows(next) == Rows(pubs[..n]);
  }

  /** The ledger, every snapshot in order of publication, and the frames. */
  predicate IsPublished(r: Published, pubs: seq<Snapshot>) {
    && r.frontier == Frontier(pubs) && r.publications == |pubs|
    && if pubs == [] then r.artifacts == []
       else
         && |r.artifacts| == |pubs| + 2 && r.artifacts[0] == (LedgerPath, LedgerFile(Lines(pubs)))
         && r.artifacts[|pubs| + 1] == (FramesPath, FramesFile(pubs[0].header, Rows(pubs)))
         && forall i :: 0 <= i < |pubs| ==> r.artifacts[i + 1] == (SnapshotPath(i + 1), SnapshotFile(pubs[i]))
  }

  class Projection {
    const live: Artifact
    const runId: string
    /** Whether the write or removal at a step fails and leaves the disk as it was. */
    const faults: nat -> bool
    /** Whether the operation at a step is still in flight when the one beside it has failed. */
    const lingers: nat -> bool
    /** Which operations in flight take effect, one after the other, just before a step. */
    const lands: nat -> seq<nat>
    /** Whether, of two restorations begun together, that of the frames ends first. */
    const framesFirst: nat -> bool

    var disk: Disk
    var step: nat
    var accepting: bool
    var staged: set<Path>
    var snapshots: seq<(Path, File)>
    var frontier: int
    var publication: nat
    var declaration: Option<File>
    var frames: Option<File>
    var ledger: Option<File>
    /** What is in flight without anyone waiting for it. */
    var outstanding: seq<Late>
    ghost var pubs: seq<Snapshot>
    ghost var history: seq<Disk>
    /** A restoration took effect after what it restores was superseded. */
    ghost var stale: bool

    /** What is held in memory is what the publications amount to. */
    ghost predicate Remembers()
      reads this`publication, this`frontier, this`pubs, this`declaration, this`frames, this`ledger, this`snapshots
    {
      && publication == |pubs| && frontier == Frontier(pubs) && AllDistinct(pubs)
      && (pubs == [] ==> declaration.None? && frames.None? && ledger.None?)
      && (pubs != [] ==>
            && declaration == Some(DeclarationFile(SnapshotPath(|pubs|), DigestOf(pubs[|pubs| - 1])))
            && frames == Some(FramesFile(pubs[0].header, Rows(pubs))) && ledger == Some(LedgerFile(Lines(pubs))))
      && |snapshots| == |pubs|
      && (forall i :: 0 <= i < |pubs| ==> snapshots[i] == (SnapshotPath(i + 1), SnapshotFile(pubs[i])))
    }

    ghost predicate Valid()
      reads this
    {
      Remembers() && Tidy(staged, |pubs|) && OnDisk(pubs)
    }

    /** The disk holds these publications, or what is left of them once the projection is closed,
        and so did it, up to some point, ever before; unless a restoration came too late. */
    ghost predicate OnDisk(ps: seq<Snapshot>)
      reads this`accepting, this`disk, this`staged, this`outstanding, this`history, this`stale
    {
      && (forall p :: p in disk && p.SnapshotPath? ==> p in staged)
      && (forall i :: 0 <= i < |outstanding| ==> LateOk(outstanding[i], ps))
      && (!stale ==> Sound(ps) && forall i :: 0 <= i < |history| ==> Consistent(history[i], ps))
    }

    ghost predicate Sound(ps: seq<Snapshot>)
      reads this`accepting, this`disk
    {
      accepting || DeclarationPath in disk ==> UpToDate(disk, ps)
    }

    /** Only a ledger or frames are restored late, and files are removed late only once the
        declaration is gone for good. */
    ghost predicate LateOk(l: Late, ps: seq<Snapshot>)
      reads this`accepting, this`disk
    {
      if l.LateWrite? then Restores(l, ps) else !accepting && DeclarationPath !in disk
    }

    constructor (live: Artifact, runId: string, faults: nat -> bool, lingers: nat -> bool, lands: nat -> seq<nat>,
                 framesFirst: nat -> bool)
      ensures Valid() && pubs == [] && accepting && this.live == live && this.runId == runId && this.faults == faults
      ensures this.lingers == lingers && this.lands == lands && this.framesFirst == framesFirst
      ensures outstanding == [] && !stale && step == 0
    {
      this.live, this.runId := live, runId;
      this.faults, this.lingers, this.lands, this.framesFirst := faults, lingers, lands, framesFirst;
      disk, step, accepting, staged, snapshots := map[], 0, true, {}, [];
      frontier, publication, declaration, frames, ledger := -1, 0, None, None, None;
      outstanding, stale, pubs, history := [], false, [], [];
    }

    ghost predicate Faulty(from: nat, to: nat) { exists n :: from <= n < to && faults(n) }

    /** Nothing in flight takes effect in between. */
    ghost predicate Settled(from: nat, to: nat) { forall n :: from <= n < to ==> lands(n) == [] }

    // ---- what is in flight ---------------------------------------------------------------------------

    lemma {:induction false} SoundIsConsistent(ps: seq<Snapshot>)
      requires Sound(ps)
      ensures Consistent(disk, ps)
    {
      hide UpToDate;
      if DeclarationPath in disk { UpToDateIsConsistent(disk, ps); }
    }

    /** A restoration of what was published last, or a removal after closing, harms nothing. */
    lemma {:induction false} CurrentKeeps(l: Late)
      requires LateOk(l, pubs) && Current(l, pubs) && Sound(pubs)
      ensures accepting || DeclarationPath in Effect(disk, l) ==> UpToDate(Effect(disk, l), pubs)
    {
      hide UpToDate, Consistent, FileAt;
      if l.LateWrite? && (accepting || DeclarationPath in disk) { LandingKeepsExactly(disk, l, pubs); }
    }

    /** One operation in flight takes effect. */
    method Land(i: nat)
      requires Valid() && i < |outstanding|
      modifies this`disk, this`history, this`outstanding, this`stale
      ensures Valid() && history == old(history) + [disk]
      ensures disk == Effect(old(disk), old(outstanding)[i])
      ensures outstanding == old(outstanding)[..i] + old(outstanding)[i + 1..]
      ensures stale == (old(stale) || !Current(old(outstanding)[i], pubs))
      ensures DeclarationPath in disk <==> DeclarationPath in old(disk)
    {
      hide Remembers, UpToDate, Consistent, Tidy, Restores, Current;
      var l := outstanding[i];
      assert LateOk(l, pubs);
      LandsElsewhere(l);
      if !stale && Current(l, pubs) { CurrentKeeps(l); }
      stale := stale || !Current(l, pubs);
      disk := Effect(disk, l);
      outstanding := outstanding[..i] + outstanding[i + 1..];
      history := history + [disk];
      if !stale { SoundIsConsistent(pubs); }
    }

    lemma {:induction false} LandsElsewhere(l: Late)
      requires LateOk(l, pubs)
      ensures l.LateWrite? ==> l.path in {LedgerPath, FramesPath}
      ensures l.LateRemove? ==> !accepting && DeclarationPath !in disk
    {
    }

    /** What is in flight and due takes effect. */
    method LandDue()
      requires Valid()
      modifies this`disk, this`history, this`outstanding, this`stale
      ensures Valid() && old(history) <= history && (old(stale) ==> stale)
      ensures DeclarationPath in disk <==> DeclarationPath in old(disk)
      ensures old(outstanding) == [] || lands(step) == [] ==>
        disk == old(disk) && outstanding == old(outstanding) && stale == old(stale)
      ensures AllCurrent(old(outstanding), pubs) ==> AllCurrent(outstanding, pubs) && stale == old(stale)
    {
      hide Valid, Current;
      var due := lands(step);
      for k := 0 to |due|
        invariant Valid() && old(history) <= history && (old(stale) ==> stale)
        invariant DeclarationPath in disk <==> DeclarationPath in old(disk)
        invariant k == 0 || old(outstanding) == [] ==>
          disk == old(disk) && outstanding == old(outstanding) && stale == old(stale)
        invariant AllCurrent(old(outstanding), pubs) ==> AllCurrent(outstanding, pubs) && stale == old(stale)
      {
        if due[k] < |outstanding| { Land(due[k]); }
      }
    }

    // ---- single operations -----------------------------------------------------------------------

    /** An atomic write. */
    method Write(p: Path, f: File) returns (ok: bool)
      modifies this`disk, this`step, this`history
      ensures step == old(step) + 1 && (ok <==> !faults(old(step)))
      ensures disk == if ok then old(disk)[p := f] else old(disk)
      ensures history == old(history) + [disk]
    {
      ok := !faults(step);
      step := step + 1;
      if ok { disk := disk[p := f]; }
      history := history + [disk];
    }

    method Remove(p: Path) returns (ok: bool)
      modifies this`disk, this`step, this`history
      ensures step == old(step) + 1 && (ok <==> !faults(old(step)))
      ensures disk == if ok then old(disk) - {p} else old(disk)
      ensures history == old(history) + [disk]
    {
      ok := !faults(step);
      step := step + 1;
      if ok { disk := disk - {p}; }
      history := history + [disk];
    }

    method WritePreparatory(p: Path, f: File) returns (ok: bool)
      requires Valid() && accepting && Preparatory(p, f, pubs) && (p.SnapshotPath? ==> p in staged)
      modifies this`disk, this`step, this`history, this`outstanding, this`stale
      ensures Valid() && step == old(step) + 1 && (ok <==> !faults(old(step)))
      ensures old(history) <= history && (old(stale) ==> stale)
      ensures old(outstanding) == [] || lands(old(step)) == [] ==>
        && outstanding == old(outstanding) && stale == old(stale)
        && disk == if ok then old(disk)[p := f] else old(disk)
      ensures AllCurrent(old(outstanding), pubs) ==> AllCurrent(outstanding, pubs) && stale == old(stale)
    {
      hide Remembers, UpToDate, Consistent, Preparatory, Tidy, Restores, AllCurrent;
      LandDue();
      if !stale { PreparatoryKeeps(disk, p, f, pubs); }
      NothingRemoved();
      ok := Write(p, f);
      if !stale { SoundIsConsistent(pubs); }
    }

    /** Before the projection is closed only restorations are in flight. */
    lemma {:induction false} NothingRemoved()
      requires Valid() && accepting
      ensures forall i :: 0 <= i < |outstanding| ==> outstanding[i].LateWrite? && Restores(outstanding[i], pubs)
      ensures pubs == [] ==> outstanding == []
    {
      hide Remembers, Tidy, UpToDate, Consistent;
      if outstanding != [] { assert LateOk(outstanding[0], pubs); }
    }

    method RemovePreparatory(p: Path)
      requires Valid() && accepting && (pubs == [] || p == SnapshotPath(|pubs| + 1))
      modifies this`disk, this`step, this`history, this`outstanding, this`stale
      ensures Valid() && step == old(step) + 1 && old(history) <= history && (old(stale) ==> stale)
      ensures old(outstanding) == [] || lands(old(step)) == [] ==>
        && outstanding == old(outstanding) && stale == old(stale)
        && disk == if faults(old(step)) then old(disk) else old(disk) - {p}
      ensures AllCurrent(old(outstanding), pubs) ==> AllCurrent(outstanding, pubs) && stale == old(stale)
    {
      hide Remembers, UpToDate, Consistent, Tidy, Restores, AllCurrent;
      LandDue();
      if !stale { RemovalKeeps(disk, p, pubs); }
      NothingRemoved();
      var _ := Remove(p);
      if !stale { SoundIsConsistent(pubs); }
    }

    // ---- rollback -----------------------------------------------------------------------------------

    lemma {:induction false} MemoryIsCurrent()
      requires Remembers() && pubs != []
      ensures ledger.Some? && frames.Some? && declaration.Some?
      ensures FileAt(LedgerPath, pubs) == ledger && Preparatory(LedgerPath, ledger.value, pubs)
      ensures FileAt(FramesPath, pubs) == frames && Preparatory(FramesPath, frames.value, pubs)
      ensures FileAt(DeclarationPath, pubs) == declaration
      ensures Preparatory(DeclarationPath, declaration.value, pubs)
    {
      hide Lines, Rows, Frontier, AllDistinct;
    }

    function Second(n: nat): Path { if framesFirst(n) then LedgerPath else FramesPath }

    /** What two restorations, begun together at a step, leave in flight: the slower one, if the
        other fails first. */
    ghost function Left(n: nat, ps: seq<Snapshot>): seq<Late> {
      var kept := FileAt(Second(n), ps);
      if kept.Some? && faults(n) && lingers(n + 1) then [LateWrite(Second(n), kept.value)] else []
    }

    /** Both restorations are begun; when the first to end fails, nobody waits for the other. */
    method RestoreBoth()
      requires Valid() && accepting && pubs != []
      modifies this`disk, this`step, this`history, this`outstanding, this`stale
      ensures Valid() && step == old(step) + 2 && old(history) <= history && (old(stale) ==> stale)
      ensures old(outstanding) == [] || Settled(old(step), step) ==>
        && stale == old(stale) && outstanding == old(outstanding) + Left(old(step), pubs)
        && (forall q :: q != LedgerPath && q != FramesPath ==> At(disk, q) == At(old(disk), q))
        && (!Faulty(old(step), step) ==>
              At(disk, LedgerPath) == FileAt(LedgerPath, pubs) && At(disk, FramesPath) == FileAt(FramesPath, pubs))
      ensures AllCurrent(old(outstanding), pubs) ==> AllCurrent(outstanding, pubs) && stale == old(stale)
    {
      hide Remembers, UpToDate, Consistent, Preparatory, Tidy, FileAt, Sound;
      MemoryIsCurrent();
      ghost var start := step;
      var fs := framesFirst(step);
      var first, firstFile := if fs then FramesPath else LedgerPath, if fs then frames.value else ledger.value;
      var second, secondFile := if fs then LedgerPath else FramesPath, if fs then ledger.value else frames.value;
      var ok := WritePreparatory(first, firstFile);
      assert !ok ==> faults(start);
      if !ok && lingers(step) {
        LeaveBehind(second, secondFile);
      } else {
        ok := WritePreparatory(second, secondFile);
        assert !ok ==> faults(start + 1);
      }
    }

    /** Nobody waits for this restoration. */
    method LeaveBehind(p: Path, f: File)
      requires Valid() && accepting && pubs != [] && p in {LedgerPath, FramesPath} && FileAt(p, pubs) == Some(f)
      modifies this`step, this`outstanding
      ensures Valid() && step == old(step) + 1 && outstanding == old(outstanding) + [LateWrite(p, f)]
      ensures AllCurrent(old(outstanding), pubs) ==> AllCurrent(outstanding, pubs)
    {
      hide Remembers, UpToDate, Consistent, Tidy, FileAt, Sound;
      assert pubs[..|pubs|] == pubs;
      assert Restores(LateWrite(p, f), pubs);
      outstanding := outstanding + [LateWrite(p, f)];
      step := step + 1;
    }

    /** After a failed write: drop the new snapshot, then restore what was published or, when
        nothing was, drop the rest. Every step may fail, in any order, and a restoration may be
        left in flight; if no step fails, the disk is again exactly what was published. */
    method RollBack()
      requires Valid() && accepting && SnapshotPath(|pubs| + 1) in staged
      modifies this`disk, this`step, this`history, this`outstanding, this`stale
      ensures Valid() && step == old(step) + 4 && old(history) <= history && (old(stale) ==> stale)
      ensures Settled(old(step), step) ==>
        stale == old(stale) && outstanding == old(outstanding) + Left(old(step) + 1, pubs)
      ensures AllCurrent(old(outstanding), pubs) ==> AllCurrent(outstanding, pubs) && stale == old(stale)
      ensures (old(outstanding) == [] || Settled(old(step), step)) && !old(stale) && !Faulty(old(step), step) ==>
        Exact(disk, pubs)
    {
      hide UpToDate, Consistent, Tidy, FileAt, OnDisk, AllCurrent, Remembers;
      ghost var start := step;
      Counted();
      NothingInFlight(pubs);
      RemovePreparatory(SnapshotPath(publication + 1));
      assert Settled(start, start + 4) ==> Settled(start + 1, start + 4) && lands(start) == [];
      assert !Faulty(start, start + 4) ==> !Faulty(start + 1, start + 4) && !faults(start);
      if !stale && SnapshotPath(|pubs| + 1) !in disk { OthersInPlace(); }
      if publication == 0 { DropAll(); } else { RestoreAll(); }
    }

    /** With the new snapshot gone, every snapshot on disk is a published one. */
    lemma {:induction false} OthersInPlace()
      requires Valid() && accepting && !stale && SnapshotPath(|pubs| + 1) !in disk
      ensures forall p: Path :: p.SnapshotPath? ==> At(disk, p) == FileAt(p, pubs)
    {
      hide Consistent, Remembers, Lines, Rows, LateOk;
      forall p: Path | p.SnapshotPath? ensures At(disk, p) == FileAt(p, pubs) {
        if p in disk { assert 1 <= p.publication <= |pubs| + 1; }
      }
    }

    method DropAll()
      requires Valid() && accepting && pubs == []
      modifies this`disk, this`step, this`history, this`outstanding, this`stale
      ensures Valid() && step == old(step) + 3 && old(history) <= history && stale == old(stale)
      ensures old(outstanding) == outstanding == []
      ensures Faulty(old(step), step) || forall p :: p in {LedgerPath, FramesPath, DeclarationPath} ==> p !in disk
      ensures forall p: Path :: p.SnapshotPath? ==> At(disk, p) == At(old(disk), p)
    {
      hide Valid;
      NothingRemoved();
      var todo := {LedgerPath, FramesPath, DeclarationPath};
      while todo != {}
        invariant Valid() && todo <= {LedgerPath, FramesPath, DeclarationPath}
        invariant step == old(step) + 3 - |todo| && old(history) <= history
        invariant stale == old(stale) && outstanding == []
        invariant Faulty(old(step), step) ||
          forall p :: p in {LedgerPath, FramesPath, DeclarationPath} - todo ==> p !in disk
        invariant forall p: Path :: p.SnapshotPath? ==> At(disk, p) == At(old(disk), p)
        decreases |todo|
      {
        var p :| p in todo;
        todo := todo - {p};
        RemovePreparatory(p);
        assert faults(step - 1) ==> Faulty(old(step), step);
      }
    }

    method RestoreAll()
      requires Valid() && accepting && pubs != []
      modifies this`disk, this`step, this`history, this`outstanding, this`stale
      ensures Valid() && step == old(step) + 3 && old(history) <= history && (old(stale) ==> stale)
      ensures Settled(old(step), step) ==>
        stale == old(stale) && outstanding == old(outstanding) + Left(old(step), pubs)
      ensures AllCurrent(old(outstanding), pubs) ==> AllCurrent(outstanding, pubs) && stale == old(stale)
      ensures (old(outstanding) == [] || Settled(old(step), step)) && !Faulty(old(step), step) ==>
        && (forall p: Path :: p.SnapshotPath? ==> At(disk, p) == At(old(disk), p))
        && forall p: Path :: !p.SnapshotPath? ==> At(disk, p) == FileAt(p, pubs)
    {
      hide Remembers, Tidy, OnDisk, AllCurrent, FileAt, Preparatory;
      ghost var start := step;
      assert Settled(start, start + 3) ==> Settled(start, start + 2) && lands(start + 2) == [];
      assert !Faulty(start, start + 3) ==> !Faulty(start, start + 2) && !faults(start) && !faults(start + 2);
      RestoreBoth();
      MemoryIsCurrent();
      var _ := WritePreparatory(DeclarationPath, declaration.value);
    }

    // ---- publishing ---------------------------------------------------------------------------------

    /** Snapshot, ledger and frames, in that order, up to the first failure. */
    method Prepare(snapshot: Snapshot, ledgerFile: File, framesFile: File) returns (ok: bool)
      requires Valid() && accepting && SnapshotPath(|pubs| + 1) in staged
      requires ledgerFile == LedgerFile(Lines(pubs + [snapshot]))
      requires framesFile == FramesFile(if pubs == [] then snapshot.header else pubs[0].header,
                                        Rows(pubs + [snapshot]))
      modifies this`disk, this`step, this`history, this`outstanding, this`stale
      ensures Valid() && old(history) <= history && (old(stale) ==> stale)
      ensures old(step) < step <= old(step) + 3 && (forall n :: old(step) <= n < step - 1 ==> !faults(n))
      ensures if ok then step == old(step) + 3 && !faults(step - 1) else faults(step - 1)
      ensures old(outstanding) == [] || Settled(old(step), step) ==>
        outstanding == old(outstanding) && stale == old(stale)
      ensures AllCurrent(old(outstanding), pubs) ==> AllCurrent(outstanding, pubs) && stale == old(stale)
      ensures ok && (old(outstanding) == [] || Settled(old(step), step)) ==> InPlace(snapshot, ledgerFile, framesFile)
    {
      hide UpToDate, Consistent, Remembers, Lines, Rows, Fresh, Frontier, Sound, AllCurrent, OnDisk, Tidy;
      LinesGrow(pubs, snapshot);
      Counted();
      ghost var start := step;
      ok := WritePreparatory(SnapshotPath(publication + 1), SnapshotFile(snapshot));
      if ok {
        ok := WritePreparatory(LedgerPath, ledgerFile);
        if ok { ok := WritePreparatory(FramesPath, framesFile); }
      }
    }

    /** Everything the next declaration needs is there. */
    ghost predicate InPlace(snapshot: Snapshot, ledgerFile: File, framesFile: File)
      reads this`disk, this`pubs
    {
      && At(disk, SnapshotPath(|pubs| + 1)) == Some(SnapshotFile(snapshot))
      && At(disk, LedgerPath) == Some(ledgerFile) && At(disk, FramesPath) == Some(framesFile)
    }

    /** The commit marker. A restoration that took the place of the ledger or of the frames in the
        meantime makes it the marker of a generation that is not there. */
    method Declare(snapshot: Snapshot, ghost ledgerFile: File, ghost framesFile: File) returns (ok: bool)
      requires Valid() && accepting
      requires ledgerFile == LedgerFile(Lines(pubs + [snapshot]))
      requires framesFile == FramesFile(if pubs == [] then snapshot.header else pubs[0].header,
                                        Rows(pubs + [snapshot]))
      modifies this`disk, this`step, this`history, this`outstanding, this`stale
      ensures old(history) <= history && (old(stale) ==> stale)
      ensures step == old(step) + 1 && (ok <==> !faults(old(step)))
      ensures if ok then OnDisk(pubs + [snapshot]) else Valid()
      ensures old(outstanding) == [] || Settled(old(step), step) ==>
        && outstanding == old(outstanding)
        && (ok && old(InPlace(snapshot, ledgerFile, framesFile)) ==>
              stale == old(stale) && (stale || Exact(disk, pubs + [snapshot])))
      ensures !ok && (old(outstanding) == [] || Settled(old(step), step)) ==> stale == old(stale)
      ensures !ok && AllCurrent(old(outstanding), pubs) ==> AllCurrent(outstanding, pubs) && stale == old(stale)
    {
      hide Valid, OnDisk, InPlace, Lines, Rows, Exact, AllCurrent;
      LandDue();
      ok := Commit(snapshot, ledgerFile, framesFile);
    }

    method Commit(snapshot: Snapshot, ghost ledgerFile: File, ghost framesFile: File) returns (ok: bool)
      requires Valid() && accepting
      requires ledgerFile == LedgerFile(Lines(pubs + [snapshot]))
      requires framesFile == FramesFile(if pubs == [] then snapshot.header else pubs[0].header,
                                        Rows(pubs + [snapshot]))
      modifies this`disk, this`step, this`history, this`stale
      ensures step == old(step) + 1 && (ok <==> !faults(old(step))) && history == old(history) + [disk]
      ensures stale == (old(stale) || (ok && !old(InPlace(snapshot, ledgerFile, framesFile))))
      ensures if ok then OnDisk(pubs + [snapshot]) && (stale || Exact(disk, pubs + [snapshot])) else Valid()
    {
      hide Remembers, UpToDate, Consistent, Lines, Rows, Exact, Restores, Tidy;
      Counted();
      ghost var was := disk;
      ghost var ready := InPlace(snapshot, ledgerFile, framesFile);
      ok := Write(DeclarationPath, DeclarationFile(SnapshotPath(publication + 1), DigestOf(snapshot)));
      if ok {
        stale := stale || !ready;
        if !stale { Committed(was, snapshot, framesFile.header); }
        StillOnDisk(snapshot);
      } else if !stale {
        SoundIsConsistent(pubs);
      }
    }

    lemma {:induction false} Committed(was: Disk, snapshot: Snapshot, header: Body)
      requires UpToDate(was, pubs) && header == (if pubs == [] then snapshot.header else pubs[0].header)
      requires At(was, SnapshotPath(|pubs| + 1)) == Some(SnapshotFile(snapshot))
      requires At(was, LedgerPath) == Some(LedgerFile(Lines(pubs + [snapshot])))
      requires At(was, FramesPath) == Some(FramesFile(header, Rows(pubs + [snapshot])))
      requires disk == was[DeclarationPath := DeclarationFile(SnapshotPath(|pubs| + 1), DigestOf(snapshot))]
      requires Tidy(staged, |pubs|) && forall p :: p in disk && p.SnapshotPath? ==> p in staged
      ensures UpToDate(disk, pubs + [snapshot]) && Exact(disk, pubs + [snapshot])
    {
      hide UpToDate, Lines, Rows, Exact;
      DeclarationCommits(was, pubs, snapshot, header);
      DeclaredIsExact(disk, pubs + [snapshot]);
    }

    lemma {:induction false} StillOnDisk(snapshot: Snapshot)
      requires accepting && history != [] && history[|history| - 1] == disk
      requires forall p :: p in disk && p.SnapshotPath? ==> p in staged
      requires forall i :: 0 <= i < |outstanding| ==> LateOk(outstanding[i], pubs)
      requires !stale ==> UpToDate(disk, pubs + [snapshot])
      requires !stale ==> forall i :: 0 <= i < |history| - 1 ==> Consistent(history[i], pubs)
      ensures OnDisk(pubs + [snapshot])
    {
      hide UpToDate, Consistent, Restores;
      var later := pubs + [snapshot];
      forall i | 0 <= i < |outstanding| ensures LateOk(outstanding[i], later) {
        RestoresLater(outstanding[i], pubs, later);
      }
      if !stale {
        UpToDateIsConsistent(disk, later);
        forall i | 0 <= i < |history| - 1 ensures Consistent(history[i], later) {
          ConsistentLater(history[i], pubs, later);
        }
      }
    }

    /** The four writes, in order; after any failure the rollback. */
    method WriteGeneration(snapshot: Snapshot, ledgerFile: File, framesFile: File)
      returns (ok: bool, ghost undo: nat)
      requires Valid() && accepting && SnapshotPath(|pubs| + 1) in staged
      requires ledgerFile == LedgerFile(Lines(pubs + [snapshot]))
      requires framesFile == FramesFile(if pubs == [] then snapshot.header else pubs[0].header,
                                        Rows(pubs + [snapshot]))
      modifies this`disk, this`step, this`history, this`outstanding, this`stale
      ensures old(history) <= history && (old(stale) ==> stale)
      ensures if ok then OnDisk(pubs + [snapshot]) && step == old(step) + 4 && !Faulty(old(step), step)
              else Valid() && FailedAt(old(step), undo) && step == undo + 4
      ensures old(outstanding) == [] || Settled(old(step), step) ==>
        && (ok ==> outstanding == old(outstanding) && stale == old(stale)
                   && (stale || Exact(disk, pubs + [snapshot])))
        && (!ok ==> stale == old(stale) && (stale || Faulty(undo, step) || Exact(disk, pubs)))
      ensures !ok && Settled(old(step), step) ==> outstanding == old(outstanding) + Left(undo + 1, pubs)
      ensures !ok && AllCurrent(old(outstanding), pubs) ==> AllCurrent(outstanding, pubs) && stale == old(stale)
    {
      hide Remembers, UpToDate, Consistent, OnDisk, Exact, Tidy, AllCurrent, FileAt, Lines, Rows;
      NothingInFlight(pubs);
      ok := Prepare(snapshot, ledgerFile, framesFile);
      if ok { ok := Declare(snapshot, ledgerFile, framesFile); }
      undo := step;
      if !ok {
        RollBack();
      }
    }

    /** The first of the four writes to fail is the one before the rollback begins. */
    ghost predicate FailedAt(start: nat, undo: nat) {
      start < undo <= start + 4 && faults(undo - 1) && forall n :: start <= n < undo - 1 ==> !faults(n)
    }

    lemma {:induction false} Counted()
      requires Remembers()
      ensures publication == |pubs| && frontier == Frontier(pubs)
    {
    }

    lemma {:induction false} DeclaredNow()
      requires Valid() && accepting && !stale
      ensures UpToDate(disk, pubs) && (pubs != [] ==> DeclarationPath in disk)
    {
      hide Remembers, Tidy, Consistent, Lines, Rows;
    }

    lemma {:induction false} FrontierNow()
      requires Valid()
      ensures frontier == Frontier(pubs)
    {
      Counted();
    }

    /** What the queue refuses before it writes anything. */
    predicate Refused(snapshot: Snapshot, source: Source)
      reads this`accepting, this`frontier
    {
      !accepting || !Admissible(live, runId, snapshot, source) || Regresses(snapshot, frontier)
    }

    /** One queued publication: all of it or, if its rollback meets no failure, nothing. As long as
        no restoration is in flight, or none lands meanwhile, every disk state on the way is
        consistent. */
    method Publish(snapshot: Snapshot, source: Source) returns (ok: bool, ghost undo: nat)
      requires Valid()
      modifies this
      ensures Valid() && accepting == old(accepting) && old(history) <= history && (old(stale) ==> stale)
      ensures pubs == if ok then old(pubs) + [snapshot] else old(pubs)
      ensures old(Refused(snapshot, source)) <==>
        || !old(accepting)
        || source != Source(live.id, live.mediaType, runId, true, snapshot.size, DigestOf(snapshot),
                            Request(runId, live), true)
        || snapshot.size > live.maxBytes || snapshot.runId != runId || !DistinctTicks(snapshot.samples)
        || (old(frontier) >= 0 && forall x :: x in snapshot.samples ==> x.tick < old(frontier))
      ensures ok <==> !old(Refused(snapshot, source)) && !Faulty(old(step), old(step) + 4)
      ensures ok ==> step == old(step) + 4
      ensures !ok ==> if old(Refused(snapshot, source)) then undo == step == old(step)
                      else FailedAt(old(step), undo) && step == undo + 4
      ensures old(Refused(snapshot, source)) ==>
        disk == old(disk) && outstanding == old(outstanding) && stale == old(stale)
      ensures old(outstanding) == [] || Settled(old(step), step) ==> stale == old(stale)
      ensures ok && (old(outstanding) == [] || Settled(old(step), step)) ==>
        outstanding == old(outstanding) && (stale || Exact(disk, pubs))
      ensures !ok && (old(outstanding) == [] || Settled(old(step), step)) ==>
        disk == old(disk) || stale || Faulty(undo, step) || Exact(disk, pubs)
      ensures !ok && !old(Refused(snapshot, source)) && Settled(old(step), step) ==>
        outstanding == old(outstanding) + Left(undo + 1, pubs)
      ensures !ok && AllCurrent(old(outstanding), pubs) ==> AllCurrent(outstanding, pubs) && stale == old(stale)
    {
      hide UpToDate, Consistent, Regresses, Frontier, Rows, Lines, Remembers, Exact, AllCurrent, OnDisk,
        Admissible, Left;
      AdmissibleExactly(snapshot, source);
      RegressesExactly(snapshot, frontier);
      if Refused(snapshot, source) { return false, step; }
      Counted();
      var relative := SnapshotPath(publication + 1);
      Staging(relative);
      var ledgerFile, framesFile, newFrontier := Candidates(snapshot, relative);
      ok, undo := WriteGeneration(snapshot, ledgerFile, framesFile);
      if !ok { return; }
      Remember(snapshot, ledgerFile, framesFile, newFrontier);
    }

    /** What is held in memory with the next snapshot appended. */
    method Candidates(snapshot: Snapshot, relative: Path) returns (ledgerFile: File, framesFile: File, newFrontier: int)
      requires Remembers() && relative == SnapshotPath(|pubs| + 1)
      ensures ledgerFile == LedgerFile(Lines(pubs + [snapshot])) && newFrontier == Frontier(pubs + [snapshot])
      ensures framesFile == FramesFile(if pubs == [] then snapshot.header else pubs[0].header,
                                       Rows(pubs + [snapshot]))
    {
      hide Fresh, Frontier, Rows, Lines, NextFrontier, AllDistinct;
      LinesGrow(pubs, snapshot);
      NothingPublished();
      var digest := DigestOf(snapshot);
      newFrontier := NextFrontier(snapshot, frontier);
      var header := if frames.None? then snapshot.header else frames.value.header;
      var rows := if frames.None? then [] else frames.value.rows;
      var lines := if ledger.None? then [] else ledger.value.lines;
      framesFile := FramesFile(header, rows + RowsOf(Fresh(snapshot, frontier), digest));
      ledgerFile := LedgerFile(lines + [Line(publication + 1, relative, digest, newFrontier, |snapshot.samples|)]);
    }

    method Staging(relative: Path)
      requires Valid() && relative == SnapshotPath(|pubs| + 1)
      modifies this`staged
      ensures Valid() && staged == old(staged) + {relative}
    {
      hide Remembers, UpToDate, Consistent, Restores, FileAt;
      staged := staged + {relative};
    }

    lemma {:induction false} AdmissibleExactly(snapshot: Snapshot, source: Source)
      ensures Admissible(live, runId, snapshot, source) <==>
        && source == Source(live.id, live.mediaType, runId, true, snapshot.size, DigestOf(snapshot),
                            Request(runId, live), true)
        && snapshot.size <= live.maxBytes && snapshot.runId == runId && DistinctTicks(snapshot.samples)
    {
    }

    /** What was declared becomes what is held in memory. */
    method Remember(snapshot: Snapshot, ledgerFile: File, framesFile: File, newFrontier: int)
      requires Remembers() && DistinctTicks(snapshot.samples)
      requires ledgerFile == LedgerFile(Lines(pubs + [snapshot])) && newFrontier == Frontier(pubs + [snapshot])
      requires framesFile == FramesFile(if pubs == [] then snapshot.header else pubs[0].header,
                                        Rows(pubs + [snapshot]))
      modifies this`snapshots, this`declaration, this`frames, this`ledger, this`frontier, this`publication, this`pubs
      ensures Remembers() && pubs == old(pubs) + [snapshot]
    {
      hide Lines, Rows, Frontier;
      var relative := SnapshotPath(publication + 1);
      snapshots := snapshots + [(relative, SnapshotFile(snapshot))];
      declaration, frames, ledger :=
        Some(DeclarationFile(relative, DigestOf(snapshot))), Some(framesFile), Some(ledgerFile);
      frontier, publication := newFrontier, publication + 1;
      pubs := pubs + [snapshot];
    }

    // ---- closing ------------------------------------------------------------------------------------

    method RemoveClosed(p: Path) returns (ok: bool)
      requires Valid() && !accepting && (p == DeclarationPath || DeclarationPath !in disk)
      modifies this`disk, this`step, this`history, this`outstanding, this`stale
      ensures Valid() && step == old(step) + 1 && old(history) <= history && (old(stale) ==> stale)
      ensures ok <==> !faults(old(step))
      ensures DeclarationPath !in old(disk) ==> DeclarationPath !in disk
      ensures ok && p == DeclarationPath ==> DeclarationPath !in disk
      ensures old(outstanding) == [] || lands(old(step)) == [] ==>
        && outstanding == old(outstanding) && stale == old(stale)
        && disk == if ok then old(disk) - {p} else old(disk)
      ensures AllCurrent(old(outstanding), pubs) ==> AllCurrent(outstanding, pubs) && stale == old(stale)
    {
      hide Remembers, UpToDate, Consistent, Tidy, Restores, AllCurrent;
      LandDue();
      ok := Remove(p);
      if !stale { SoundIsConsistent(pubs); }
    }

    /** Removes the declaration, then the rest in any order. Once a removal fails, nobody waits for
        those still in flight. */
    method RemoveTransientFiles() returns (ok: bool)
      requires Valid() && !accepting
      modifies this`disk, this`step, this`history, this`outstanding, this`stale
      ensures Valid() && step >= old(step) && old(history) <= history && (old(stale) ==> stale)
      ensures ok <==> !Faulty(old(step), step)
      ensures ok ==> DeclarationPath !in disk
      ensures AllCurrent(old(outstanding), pubs) ==> AllCurrent(outstanding, pubs) && stale == old(stale)
      ensures old(outstanding) == [] || Settled(old(step), step) ==>
        stale == old(stale) && (ok ==> disk == map[] && outstanding == old(outstanding))
    {
      hide Valid, AllCurrent;
      NothingInFlight(pubs);
      ok := RemoveClosed(DeclarationPath);
      if !ok {
        assert faults(old(step));
        return;
      }
      var todo := {FramesPath, LedgerPath} + staged;
      AllStaged();
      while todo != {}
        invariant Valid() && DeclarationPath !in disk && step > old(step) && old(history) <= history
        invariant old(stale) ==> stale
        invariant ok <==> !Faulty(old(step), step)
        invariant AllCurrent(old(outstanding), pubs) ==> AllCurrent(outstanding, pubs) && stale == old(stale)
        invariant Settled(old(step), step) ==> stale == old(stale)
        invariant ok && (old(outstanding) == [] || Settled(old(step), step)) ==>
          outstanding == old(outstanding) && forall p :: p in disk ==> p in todo
        decreases |todo|
      {
        var p :| p in todo;
        todo := todo - {p};
        if !ok && lingers(step) {
          Abandon(p);
        } else {
          var removed := RemoveClosed(p);
          ok := ok && removed;
        }
      }
    }

    lemma {:induction false} AllStaged()
      requires Valid()
      ensures forall p :: p in disk && p.SnapshotPath? ==> p in staged
    {
      hide Remembers, Tidy, UpToDate, Consistent, Restores;
    }

    /** Nobody waits for this removal. */
    method Abandon(p: Path)
      requires Valid() && !accepting && DeclarationPath !in disk
      modifies this`step, this`outstanding
      ensures Valid() && step == old(step) + 1 && outstanding == old(outstanding) + [LateRemove(p)]
      ensures AllCurrent(old(outstanding), pubs) ==> AllCurrent(outstanding, pubs)
    {
      hide Remembers, Tidy, UpToDate, Consistent, Restores;
      outstanding := outstanding + [LateRemove(p)];
      step := step + 1;
    }

    /** Closes the projection, clears the live transport, and hands the run record what was
        published. */
    method Finalize() returns (r: Option<Published>)
      requires Valid()
      modifies this
      ensures Valid() && !accepting && pubs == old(pubs) && old(history) <= history && (old(stale) ==> stale)
      ensures step >= old(step) && (r.None? <==> Faulty(old(step), step))
      ensures r.Some? ==> DeclarationPath !in disk && IsPublished(r.value, pubs)
      ensures old(outstanding) == [] || Settled(old(step), step) ==>
        stale == old(stale) && (r.Some? ==> disk == map[] && outstanding == old(outstanding))
    {
      hide Remembers, OnDisk, Tidy, Settled, Faulty, AllCurrent, IsPublished;
      Close();
      var removed := RemoveTransientFiles();
      if !removed { return None; }
      var published := HandOver();
      return Some(published);
    }

    method HandOver() returns (r: Published)
      requires Remembers()
      ensures IsPublished(r, pubs)
    {
      hide Frontier, Rows, Lines, AllDistinct;
      if publication == 0 || frames.None? || ledger.None? { return Published(frontier, 0, []); }
      return Published(frontier, publication,
                       [(LedgerPath, ledger.value)] + snapshots + [(FramesPath, frames.value)]);
    }

    method Close()
      requires Valid()
      modifies this`accepting
      ensures Valid() && !accepting
    {
      hide Remembers, Tidy, UpToDate, Consistent, Restores;
      accepting := false;
    }
  }

  lemma {:induction false} NothingPublished()
    ensures Rows([]) == [] && Lines([]) == [] && Frontier([]) == -1
  {
  }

  // ---- a restoration that comes too late ------------------------------------------------------------

  /** Two publications, the later one failed, and an old ledger in flight. */
  method LeaveLedgerInFlight(live: Artifact, runId: string, s1: Snapshot, source1: Source, s2: Snapshot,
                             source2: Source) returns (p: Projection)
    requires Admissible(live, runId, s1, source1) && Admissible(live, runId, s2, source2)
    requires !Regresses(s2, Frontier([s1]))
    ensures fresh(p) && p.Valid() && p.accepting && p.live == live && p.runId == runId && p.pubs == [s1] && !p.stale
    ensures p.step == 9 && (forall n :: p.step <= n ==> !p.faults(n)) && forall n :: p.lands(n) == []
    ensures p.outstanding == [LateWrite(LedgerPath, LedgerFile(Lines([s1])))]
  {
    hide Projection.Valid, Admissible, Regresses, Frontier, Lines, Rows, AllCurrent, Exact;
    var faults := (n: nat) => n == 4 || n == 6;
    p := new Projection(live, runId, faults, n => n == 7, n => [], n => n == 6);
    p.FrontierNow();
    NothingPublished();
    assert !Regresses(s1, -1) by { NoFrontierYet(s1); }
    assert !p.faults(0) && !p.faults(1);
    var ok1, u1 := p.Publish(s1, source1);
    assert ok1;
    p.FrontierNow();
    assert p.pubs == [s1];
    assert p.faults(4);
    var ok2, u2 := p.Publish(s2, source2);
    assert u2 == 5;
  }

  lemma {:induction false} NoFrontierYet(snapshot: Snapshot)
    ensures !Regresses(snapshot, -1)
  {
  }

  /** The next publication succeeds; then the old ledger lands and the declaration no longer names a
      generation that is there. */
  method LateLedgerBreaksDeclaration(live: Artifact, runId: string, s1: Snapshot, source1: Source, s2: Snapshot,
                                     source2: Source, s3: Snapshot, source3: Source) returns (p: Projection)
    requires Admissible(live, runId, s1, source1) && Admissible(live, runId, s2, source2)
    requires Admissible(live, runId, s3, source3)
    requires !Regresses(s2, Frontier([s1])) && !Regresses(s3, Frontier([s1]))
    ensures fresh(p) && p.Valid() && p.accepting && p.pubs == [s1, s3] && p.outstanding == []
    ensures DeclarationPath in p.disk && !Consistent(p.disk, p.pubs)
  {
    hide Projection.Valid, Admissible, Regresses, Frontier, Lines, Rows, AllCurrent, Consistent, UpToDate, Exact;
    p := LeaveLedgerInFlight(live, runId, s1, source1, s2, source2);
    p.FrontierNow();
    var ok, _ := p.Publish(s3, source3);
    assert ok;
    assert p.pubs == [s1, s3];
    assert p.pubs[..1] == [s1];
    p.DeclaredNow();
    OlderLedgerBreaks(p.disk, p.pubs, 1);
    p.Land(0);
  }

  /** Or the projection is closed, everything is removed, and then the old ledger is back. */
  method LateLedgerSurvivesClosing(live: Artifact, runId: string, s1: Snapshot, source1: Source, s2: Snapshot,
                                   source2: Source) returns (p: Projection, r: Option<Published>)
    requires Admissible(live, runId, s1, source1) && Admissible(live, runId, s2, source2)
    requires !Regresses(s2, Frontier([s1]))
    ensures fresh(p) && p.Valid() && !p.accepting && r.Some? && p.outstanding == []
    ensures p.disk == map[LedgerPath := LedgerFile(Lines([s1]))]
  {
    hide Projection.Valid, Admissible, Regresses, Frontier, Lines, Rows, AllCurrent, Consistent, UpToDate, Exact,
      IsPublished;
    p := LeaveLedgerInFlight(live, runId, s1, source1, s2, source2);
    r := p.Finalize();
    p.Land(0);
  }
}
