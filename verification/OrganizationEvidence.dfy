/** The organization's evidence receipt: its files are divided among the authorities that
    produced them, and the receipt that is built is one its own parser accepts. */
module OrganizationEvidence {
  import opened Wrappers
  import opened Text

  datatype Authority = Spawnfile | Moltnet | Daimon | Mneme

  const ORDER: seq<Authority> := [Spawnfile, Moltnet, Daimon, Mneme]

  datatype RawFile = RawFile(path: Text, bytes: nat, sha256: string)
  datatype File = File(authority: Authority, path: Text, bytes: nat, sha256: string)

  /** A free digest of what an authority, the inventory or the export index stands for. */
  datatype Digest =
    | AuthorityDigest(authority: Authority, files: seq<File>, missing: seq<Text>)
    | InventoryDigest(allFiles: seq<File>, allMissing: seq<Text>)
    | IndexDigest(index: string)

  datatype AuthorityEntry = AuthorityEntry(authority: Authority, digest: Digest, itemCount: nat, missingCount: nat)

  datatype Receipt = Receipt(
    authorities: seq<AuthorityEntry>, indexDigest: Digest, files: seq<File>, inventoryDigest: Digest,
    missing: seq<Text>)

  // "raw/", "moltnet/", "daimon/" and "mneme/"
  const RAW: Text := [114, 97, 119, 47]
  const MOLTNET_DIRECTORY: Text := [109, 111, 108, 116, 110, 101, 116, 47]
  const DAIMON_DIRECTORY: Text := [100, 97, 105, 109, 111, 110, 47]
  const MNEME_DIRECTORY: Text := [109, 110, 101, 109, 101, 47]
  const MOLTNET: Text := RAW + MOLTNET_DIRECTORY
  const DAIMON: Text := RAW + DAIMON_DIRECTORY
  const MNEME: Text := RAW + MNEME_DIRECTORY

  /** What an export names: the result of the regular expression on a path, if it has one. */
  type Naming = Text -> Option<Authority>

  /** authorityFor: the directory under raw/ names the authority. */
  function AuthorityFor(path: Text): Option<Authority> {
    if MOLTNET <= path then Some(Moltnet)
    else if DAIMON <= path then Some(Daimon)
    else if MNEME <= path then Some(Mneme)
    else None
  }

  // ---- division among authorities ------------------------------------------------------------

  predicate Named(naming: Naming, t: Text) { naming(t).Some? && naming(t).value != Spawnfile }

  function FilesOf(naming: Naming, raw: seq<RawFile>): (files: seq<File>)
    ensures |files| == |raw|
    ensures forall i :: 0 <= i < |raw| ==>
      files[i] == File(naming(raw[i].path).GetOr(Spawnfile), raw[i].path, raw[i].bytes, raw[i].sha256)
  {
    seq(|raw|, i requires 0 <= i < |raw| =>
      File(naming(raw[i].path).GetOr(Spawnfile), raw[i].path, raw[i].bytes, raw[i].sha256))
  }

  function By(a: Authority, files: seq<File>): seq<File> {
    if files == [] then [] else (if files[0].authority == a then [files[0]] else []) + By(a, files[1..])
  }

  function MissingBy(naming: Naming, a: Authority, missing: seq<Text>): seq<Text> {
    if missing == [] then []
    else (if naming(missing[0]) == Some(a) then [missing[0]] else []) + MissingBy(naming, a, missing[1..])
  }

  function EntryFor(naming: Naming, a: Authority, index: Digest, files: seq<File>, missing: seq<Text>): AuthorityEntry {
    if a == Spawnfile then AuthorityEntry(Spawnfile, index, 1, 0)
    else
      var own, absent := By(a, files), MissingBy(naming, a, missing);
      AuthorityEntry(a, AuthorityDigest(a, own, absent), |own|, |absent|)
  }

  // ---- building and parsing ---------------------------------------------------------------------

  /** createEvidenceReceipt, up to its final parse, which also repeats its check of the order. */
  function Build(naming: Naming, index: string, raw: seq<RawFile>, missing: seq<Text>): Option<Receipt> {
    if !(forall i :: 0 <= i < |raw| ==> Named(naming, raw[i].path))
       || !(forall i :: 0 <= i < |missing| ==> Named(naming, missing[i])) then None
    else
      var files, absent := FilesOf(naming, raw), SortByKey(missing, Itself);
      var digest := IndexDigest(index);
      Some(Receipt(
        seq(4, i requires 0 <= i < 4 => EntryFor(naming, ORDER[i], digest, files, absent)),
        digest, files, InventoryDigest(files, absent), absent))
  }

  function Paths(files: seq<File>): (r: seq<Text>)
    ensures |r| == |files| && forall i :: 0 <= i < |r| ==> r[i] == files[i].path
  {
    seq(|files|, i requires 0 <= i < |files| => files[i].path)
  }

  /** The check of one authority entry in the parser's loop. */
  predicate EntryOk(naming: Naming, r: Receipt, e: AuthorityEntry) {
    if e.authority == Spawnfile then e.digest == r.indexDigest && e.itemCount == 1 && e.missingCount == 0
    else
      var own, absent := By(e.authority, r.files), MissingBy(naming, e.authority, r.missing);
      && (e.authority == Mneme || |own| + |absent| >= 1)
      && e.itemCount == |own| && e.missingCount == |absent| && e.digest == AuthorityDigest(e.authority, own, absent)
  }

  /** parseComposedOrganizationEvidenceReceipt. */
  predicate Parses(naming: Naming, r: Receipt) {
    && |r.authorities| == 4 && (forall i :: 0 <= i < 4 ==> r.authorities[i].authority == ORDER[i])
    && Strict(Paths(r.files)) && Strict(r.missing)
    && r.inventoryDigest == InventoryDigest(r.files, r.missing)
    && (forall i :: 0 <= i < |r.missing| ==> Named(naming, r.missing[i]))
    && (forall i :: 0 <= i < 4 ==> EntryOk(naming, r, r.authorities[i]))
  }

  method CheckAuthorities(naming: Naming, r: Receipt) returns (ok: bool)
    requires |r.authorities| == 4
    ensures ok <==> forall i :: 0 <= i < 4 ==> EntryOk(naming, r, r.authorities[i])
  {
    for k := 0 to 4
      invariant forall i :: 0 <= i < k ==> EntryOk(naming, r, r.authorities[i])
    {
      if !EntryOk(naming, r, r.authorities[k]) { return false; }
    }
    return true;
  }

  /** A built receipt parses exactly when the export was in strict order, no missing file is
      named twice, and Moltnet and Daimon each have a file or a missing one. */
  lemma {:induction false} BuiltReceiptParses(naming: Naming, index: string, raw: seq<RawFile>, missing: seq<Text>)
    requires Build(naming, index, raw, missing).Some?
    ensures
      var r := Build(naming, index, raw, missing).value;
      Parses(naming, r) <==>
        && Strict(Paths(r.files)) && DistinctKeys(missing, Itself)
        && Represented(naming, Moltnet, r) && Represented(naming, Daimon, r)
  {
    hide By, MissingBy, Less, SortByKey;
    var r := Build(naming, index, raw, missing).value;
    SortElements(missing, Itself);
    SortIsStrict(missing);
    forall i | 0 <= i < |r.missing| ensures Named(naming, r.missing[i]) {
      assert r.missing[i] in missing;
    }
    assert EntryOk(naming, r, r.authorities[0]) && EntryOk(naming, r, r.authorities[3]);
    assert EntryOk(naming, r, r.authorities[1]) <==> Represented(naming, Moltnet, r);
    assert EntryOk(naming, r, r.authorities[2]) <==> Represented(naming, Daimon, r);
  }

  predicate Represented(naming: Naming, a: Authority, r: Receipt) {
    |By(a, r.files)| + |MissingBy(naming, a, r.missing)| >= 1
  }

  /** An authority with a file is represented. */
  lemma {:induction false} FiledIsRepresented(naming: Naming, r: Receipt, i: nat)
    requires i < |r.files|
    ensures Represented(naming, r.files[i].authority, r)
  {
    HasOwn(r.files, i);
  }

  lemma {:induction false} HasOwn(files: seq<File>, i: nat)
    requires i < |files|
    ensures By(files[i].authority, files) != []
  {
    if i > 0 { HasOwn(files[1..], i - 1); }
  }

  /** The three file authorities divide the files among them: every file is counted under
      exactly one. */
  lemma {:induction false} AuthoritiesDivideFiles(files: seq<File>)
    requires forall i :: 0 <= i < |files| ==> files[i].authority != Spawnfile
    ensures By(Spawnfile, files) == []
    ensures multiset(By(Moltnet, files)) + multiset(By(Daimon, files)) + multiset(By(Mneme, files)) == multiset(files)
    ensures |By(Moltnet, files)| + |By(Daimon, files)| + |By(Mneme, files)| == |files|
  {
    if files != [] {
      AuthoritiesDivideFiles(files[1..]);
      assert files == [files[0]] + files[1..];
    }
  }

  // ---- which exports there is a receipt for ----------------------------------------------------------

  predicate In(directory: string, path: Text) { Ascii(directory) <= path }

  /** The directories that the regular expression names. */
  function Directory(a: Authority): string {
    match a
    case Spawnfile => ""
    case Moltnet => "raw/moltnet/"
    case Daimon => "raw/daimon/"
    case Mneme => "raw/mneme/"
  }

  /** authorityFor, the directories spelled out. */
  lemma {:induction false} DirectoriesNameAuthorities(t: Text, a: Authority)
    ensures AuthorityFor(t) == Some(a) <==> a != Spawnfile && In(Directory(a), t)
  {
    assert Ascii("raw/moltnet/") == MOLTNET;
    assert Ascii("raw/daimon/") == DAIMON;
    assert Ascii("raw/mneme/") == MNEME;
    assert MOLTNET[4] == 109 && MOLTNET[5] == 111 && DAIMON[4] == 100 && MNEME[4] == 109 && MNEME[5] == 110;
  }

  predicate Exported(t: Text) { In("raw/moltnet/", t) || In("raw/daimon/", t) || In("raw/mneme/", t) }

  predicate Leaves(directory: string, raw: seq<RawFile>, missing: seq<Text>) {
    || (exists i :: 0 <= i < |raw| && In(directory, raw[i].path))
    || (exists i :: 0 <= i < |missing| && In(directory, missing[i]))
  }

  /** Every file is in one of the three directories, the files are in strict order, no file is missing
      twice, and Moltnet and Daimon each left one or say that it is missing. */
  ghost predicate Exportable(raw: seq<RawFile>, missing: seq<Text>) {
    && (forall i :: 0 <= i < |raw| ==> Exported(raw[i].path))
    && (forall i :: 0 <= i < |missing| ==> Exported(missing[i]))
    && (forall i :: 0 < i < |raw| ==> Less(raw[i - 1].path, raw[i].path))
    && (forall i, j :: 0 <= i < j < |missing| ==> missing[i] != missing[j])
    && Leaves("raw/moltnet/", raw, missing) && Leaves("raw/daimon/", raw, missing)
  }

  lemma {:induction false} ExportedIsNamed(t: Text)
    ensures Named(AuthorityFor, t) <==> Exported(t)
  {
    hide AuthorityFor, In;
    DirectoriesNameAuthorities(t, Moltnet);
    DirectoriesNameAuthorities(t, Daimon);
    DirectoriesNameAuthorities(t, Mneme);
    DirectoriesNameAuthorities(t, Spawnfile);
  }

  lemma {:induction false} OwnFiles(a: Authority, files: seq<File>)
    ensures By(a, files) != [] <==> exists i :: 0 <= i < |files| && files[i].authority == a
  {
    if files != [] {
      OwnFiles(a, files[1..]);
      assert files == [files[0]] + files[1..];
    }
  }

  lemma {:induction false} OwnMissing(naming: Naming, a: Authority, missing: seq<Text>)
    ensures MissingBy(naming, a, missing) != [] <==> exists t :: t in missing && naming(t) == Some(a)
  {
    if missing != [] {
      OwnMissing(naming, a, missing[1..]);
      assert missing == [missing[0]] + missing[1..];
    }
  }

  lemma {:induction false} RepresentedExactly(index: string, raw: seq<RawFile>, missing: seq<Text>, a: Authority)
    requires Build(AuthorityFor, index, raw, missing).Some? && a != Spawnfile
    ensures Represented(AuthorityFor, a, Build(AuthorityFor, index, raw, missing).value)
            <==> Leaves(Directory(a), raw, missing)
  {
    hide AuthorityFor, In, By, MissingBy, SortByKey, Directory;
    var r := Build(AuthorityFor, index, raw, missing).value;
    SortElements(missing, Itself);
    OwnFiles(a, r.files);
    OwnMissing(AuthorityFor, a, r.missing);
    forall i | 0 <= i < |raw| ensures r.files[i].authority == a <==> In(Directory(a), raw[i].path) {
      DirectoriesNameAuthorities(raw[i].path, a);
      assert Named(AuthorityFor, raw[i].path);
    }
    forall i | 0 <= i < |missing| ensures AuthorityFor(missing[i]) == Some(a) <==> In(Directory(a), missing[i]) {
      DirectoriesNameAuthorities(missing[i], a);
    }
  }

  /** An export gives a receipt that parses exactly when it is exportable. */
  lemma {:induction false} ExportableExactly(index: string, raw: seq<RawFile>, missing: seq<Text>)
    ensures
      var built := Build(AuthorityFor, index, raw, missing);
      (built.Some? && Parses(AuthorityFor, built.value)) <==> Exportable(raw, missing)
  {
    hide AuthorityFor, In, Parses, Represented, Leaves, EntryFor, SortByKey, Less, Named, Exported;
    var built := Build(AuthorityFor, index, raw, missing);
    forall i | 0 <= i < |raw| ensures Named(AuthorityFor, raw[i].path) <==> Exported(raw[i].path) {
      ExportedIsNamed(raw[i].path);
    }
    forall i | 0 <= i < |missing| ensures Named(AuthorityFor, missing[i]) <==> Exported(missing[i]) {
      ExportedIsNamed(missing[i]);
    }
    if built.Some? {
      BuiltReceiptParses(AuthorityFor, index, raw, missing);
      RepresentedExactly(index, raw, missing, Moltnet);
      RepresentedExactly(index, raw, missing, Daimon);
      assert Strict(Paths(built.value.files)) <==> forall i :: 0 < i < |raw| ==> Less(raw[i - 1].path, raw[i].path);
      assert DistinctKeys(missing, Itself) <==>
        forall i, j :: 0 <= i < j < |missing| ==> missing[i] != missing[j];
    }
  }

  /** What the receipt says: every file under its directory's authority, the missing files sorted, and
      for each authority the files and missing files that are its own. */
  lemma {:induction false} BuiltReceiptSays(index: string, raw: seq<RawFile>, missing: seq<Text>, a: Authority)
    requires Build(AuthorityFor, index, raw, missing).Some?
    ensures
      var r := Build(AuthorityFor, index, raw, missing).value;
      && |r.files| == |raw| && r.indexDigest == IndexDigest(index)
      && (forall i :: 0 <= i < |raw| ==>
            && r.files[i] == File(r.files[i].authority, raw[i].path, raw[i].bytes, raw[i].sha256)
            && In(Directory(r.files[i].authority), raw[i].path) && r.files[i].authority != Spawnfile)
      && multiset(r.missing) == multiset(missing)
      && r.inventoryDigest == InventoryDigest(r.files, r.missing)
      && |r.authorities| == 4 && r.authorities[0] == AuthorityEntry(Spawnfile, r.indexDigest, 1, 0)
      && exists own, absent ::
           && r.authorities[match a case Spawnfile => 0 case Moltnet => 1 case Daimon => 2 case Mneme => 3]
              == (if a == Spawnfile then AuthorityEntry(Spawnfile, r.indexDigest, 1, 0)
                  else AuthorityEntry(a, AuthorityDigest(a, own, absent), |own|, |absent|))
           && (forall f: File :: multiset(own)[f] == if f.authority == a then multiset(r.files)[f] else 0)
           && (forall t: Text :: multiset(absent)[t] ==
                 if a != Spawnfile && In(Directory(a), t) then multiset(r.missing)[t] else 0)
  {
    hide AuthorityFor, In, By, MissingBy, SortByKey, Directory;
    var r := Build(AuthorityFor, index, raw, missing).value;
    forall i | 0 <= i < |raw|
      ensures In(Directory(r.files[i].authority), raw[i].path) && r.files[i].authority != Spawnfile
    {
      assert Named(AuthorityFor, raw[i].path);
      DirectoriesNameAuthorities(raw[i].path, r.files[i].authority);
    }
    SortKeepsCounts(missing);
    var own, absent := By(a, r.files), MissingBy(AuthorityFor, a, r.missing);
    forall f: File ensures multiset(own)[f] == if f.authority == a then multiset(r.files)[f] else 0 {
      CountOwn(a, r.files, f);
    }
    forall t: Text
      ensures multiset(absent)[t] == if a != Spawnfile && In(Directory(a), t) then multiset(r.missing)[t] else 0
    {
      CountMissing(a, r.missing, t);
      DirectoriesNameAuthorities(t, a);
    }
  }

  lemma {:induction false} CountOwn(a: Authority, files: seq<File>, f: File)
    ensures multiset(By(a, files))[f] == if f.authority == a then multiset(files)[f] else 0
  {
    if files != [] {
      CountOwn(a, files[1..], f);
      assert files == [files[0]] + files[1..];
    }
  }

  lemma {:induction false} CountMissing(a: Authority, missing: seq<Text>, t: Text)
    ensures multiset(MissingBy(AuthorityFor, a, missing))[t] ==
            if AuthorityFor(t) == Some(a) then multiset(missing)[t] else 0
  {
    hide AuthorityFor;
    if missing != [] {
      CountMissing(a, missing[1..], t);
      assert missing == [missing[0]] + missing[1..];
    }
  }
}
