/** The constant that bounds the printed size of a retained action record, and the
    evidence buffer whose records it bounds. */
module RetainedSize {
  import opened Wrappers
  import opened Text
  import opened JsonText
  import opened CanonicalJson
  import Numbers

  // ---- sizes of printed values ----------------------------------------------------------

  function MemberSize(m: Member): nat { |PrintMember(m)| }

  function MembersSize(ms: seq<Member>): nat {
    if ms == [] then 0 else MemberSize(ms[0]) + MembersSize(ms[1..])
  }

  lemma {:induction false} PrintMembersSize(ms: seq<Member>)
    ensures |PrintMembers(ms)| == MembersSize(ms) + if ms == [] then 0 else |ms| - 1
  {
    hide PrintMember;
    if ms != [] { PrintMembersSize(ms[1..]); }
  }

  lemma {:induction false} InsertSize(m: Member, ms: seq<Member>)
    ensures MembersSize(Insert(m, ms, KeyOf)) == MemberSize(m) + MembersSize(ms)
    ensures |Insert(m, ms, KeyOf)| == |ms| + 1
  {
    hide MemberSize;
    if ms != [] && Less(KeyOf(ms[0]), KeyOf(m)) {
      InsertSize(m, ms[1..]);
      assert ([ms[0]] + Insert(m, ms[1..], KeyOf))[1..] == Insert(m, ms[1..], KeyOf);
    } else {
      assert ([m] + ms)[1..] == ms;
    }
  }

  lemma {:induction false} SortSize(ms: seq<Member>)
    ensures MembersSize(SortByKey(ms, KeyOf)) == MembersSize(ms)
  {
    hide MemberSize;
    if ms != [] {
      SortSize(ms[1..]);
      InsertSize(ms[0], SortByKey(ms[1..], KeyOf));
    }
  }

  lemma {:induction false} ConcatSize(a: seq<Member>, b: seq<Member>)
    ensures MembersSize(a + b) == MembersSize(a) + MembersSize(b)
  {
    hide MemberSize;
    if a == [] {
      assert a + b == b;
    } else {
      ConcatSize(a[1..], b);
      assert (a + b)[1..] == a[1..] + b;
    }
  }

  lemma {:induction false} InsertByIndexSize(m: Member, ms: seq<Member>)
    requires ArrayIndex(m.key).Some? && forall x :: x in ms ==> ArrayIndex(x.key).Some?
    ensures MembersSize(InsertByIndex(m, ms)) == MemberSize(m) + MembersSize(ms)
  {
    hide MemberSize, ArrayIndex;
    assert ms != [] ==> ms[0] in ms;
    if ms == [] || ArrayIndex(m.key).value < ArrayIndex(ms[0].key).value {
      assert ([m] + ms)[1..] == ms;
    } else {
      InsertByIndexSize(m, ms[1..]);
      assert ([ms[0]] + InsertByIndex(m, ms[1..]))[1..] == InsertByIndex(m, ms[1..]);
    }
  }

  lemma {:induction false} EnumerateSize(ms: seq<Member>)
    ensures MembersSize(IndexMembers(ms)) + MembersSize(NamedMembers(ms)) == MembersSize(ms)
  {
    hide MemberSize, ArrayIndex;
    if ms != [] {
      EnumerateSize(ms[1..]);
      var named := if ArrayIndex(ms[0].key).None? then [ms[0]] else [];
      ConcatSize(named, NamedMembers(ms[1..]));
      assert [ms[0]][1..] == [];
      assert MembersSize([ms[0]]) == MemberSize(ms[0]) + MembersSize([ms[0]][1..]);
      if ArrayIndex(ms[0].key).Some? { InsertByIndexSize(ms[0], IndexMembers(ms[1..])); }
    }
  }

  /** However its members are arranged, an object prints to the same size. */
  lemma {:induction false} ArrangedSize(ms: seq<Member>)
    ensures MembersSize(Arrange(IndicesFirst, ms)) == MembersSize(ms)
    ensures |Print(Obj(Arrange(IndicesFirst, ms)))| == |Print(Obj(ms))|
  {
    hide MemberSize, PrintMember, SortByKey, IndexMembers, NamedMembers, MembersSize;
    SortSize(ms);
    EnumerateSize(SortByKey(ms, KeyOf));
    ConcatSize(IndexMembers(SortByKey(ms, KeyOf)), NamedMembers(SortByKey(ms, KeyOf)));
    ArrangeElements(IndicesFirst, ms);
    PrintMembersSize(ms);
    PrintMembersSize(Arrange(IndicesFirst, ms));
    assert Arrange(IndicesFirst, ms) == [] <==> ms == [];
  }

  /** One escaped code unit takes at most six. */
  lemma {:induction false} EscapedSize(s: Text)
    ensures |EscapeUnits(s)| <= 6 * |s|
  {
    if s != [] {
      if IsHighSurrogate(s[0]) && |s| > 1 && IsLowSurrogate(s[1]) {
        EscapedSize(s[2..]);
      } else {
        EscapedSize(s[1..]);
        assert |EscapeUnit(s[0])| <= 6;
      }
    }
  }

  /** A text without anything to escape prints as itself between quotes. */
  predicate Harmless(s: Text) {
    forall i :: 0 <= i < |s| ==> 0x20 <= s[i] < 0x80 && s[i] != QUOTE && s[i] != BACKSLASH
  }

  lemma {:induction false} HarmlessSize(s: Text)
    requires Harmless(s)
    ensures |EscapeUnits(s)| == |s|
  {
    if s != [] {
      HarmlessSize(s[1..]);
      assert EscapeUnit(s[0]) == [s[0]];
    }
  }

  // ---- the record ---------------------------------------------------------------------------

  /** A non-negative integer of at most 16 digits, as every safe integer is. */
  predicate SafeInteger(n: Numbers.Number) {
    n == Numbers.ZERO || (!n.negative && 1 <= |n.digits| <= n.point <= 16)
  }

  lemma {:induction false} SafeIntegerSize(n: Numbers.Number)
    requires SafeInteger(n)
    ensures 1 <= |Numbers.Print(n)| <= 16
    ensures Numbers.DropNegativeZero(n) == n
  {
  }

  datatype Code = ActIdConflict | WrongTick

  datatype Receipt =
    | Queued(actId: Text, applyTick: Numbers.Number, sequence: Numbers.Number)
    | Rejected(actId: Text, applyTick: Numbers.Number, code: Code)

  datatype Record = Record(
    actId: Text, atTick: Numbers.Number, attemptSha256: Text, principalId: Text,
    retainedAtTick: Numbers.Number, receipt: Receipt)

  const IDENTIFIER_CODE_UNITS := 256
  const SHA256_CODE_UNITS := 64
  const ACTIONS_PER_TICK := 128

  predicate Bounded(r: Record) {
    && |r.actId| <= IDENTIFIER_CODE_UNITS && |r.principalId| <= IDENTIFIER_CODE_UNITS
    && |r.receipt.actId| <= IDENTIFIER_CODE_UNITS
    && |r.attemptSha256| == SHA256_CODE_UNITS && Harmless(r.attemptSha256)
    && SafeInteger(r.atTick) && SafeInteger(r.retainedAtTick) && SafeInteger(r.receipt.applyTick)
    && (r.receipt.Queued? ==> SafeInteger(r.receipt.sequence))
  }

  const ACT_ID: Text := [97, 99, 116, 95, 105, 100]
  const AT_TICK: Text := [97, 116, 95, 116, 105, 99, 107]
  const ATTEMPT_SHA256: Text := [97, 116, 116, 101, 109, 112, 116, 95, 115, 104, 97, 50, 53, 54]
  const PRINCIPAL_ID: Text := [112, 114, 105, 110, 99, 105, 112, 97, 108, 95, 105, 100]
  const RETAINED_AT_TICK: Text := [114, 101, 116, 97, 105, 110, 101, 100, 95, 97, 116, 95, 116, 105, 99, 107]
  const RECEIPT: Text := [114, 101, 99, 101, 105, 112, 116]
  const APPLY_TICK: Text := [97, 112, 112, 108, 121, 95, 116, 105, 99, 107]
  const QUEUED: Text := [113, 117, 101, 117, 101, 100]
  const SEQUENCE: Text := [115, 101, 113, 117, 101, 110, 99, 101]
  const CODE: Text := [99, 111, 100, 101]
  const ACT_ID_CONFLICT: Text := [97, 99, 116, 95, 105, 100, 95, 99, 111, 110, 102, 108, 105, 99, 116]
  const WRONG_TICK: Text := [119, 114, 111, 110, 103, 95, 116, 105, 99, 107]

  function CodeText(c: Code): Text { if c.ActIdConflict? then ACT_ID_CONFLICT else WRONG_TICK }

  function ReceiptMembers(r: Receipt): seq<Member> {
    match r
    case Queued(act, apply, sequence) =>
      [Member(ACT_ID, Str(act)), Member(APPLY_TICK, Num(apply)), Member(QUEUED, Bool(true)),
       Member(SEQUENCE, Num(sequence))]
    case Rejected(act, apply, code) =>
      [Member(ACT_ID, Str(act)), Member(APPLY_TICK, Num(apply)), Member(CODE, Str(CodeText(code))),
       Member(QUEUED, Bool(false))]
  }

  function RecordJson(r: Record): Json {
    Obj([Member(ACT_ID, Str(r.actId)), Member(AT_TICK, Num(r.atTick)),
         Member(ATTEMPT_SHA256, Str(r.attemptSha256)), Member(PRINCIPAL_ID, Str(r.principalId)),
         Member(RETAINED_AT_TICK, Num(r.retainedAtTick)), Member(RECEIPT, Obj(ReceiptMembers(r.receipt)))])
  }

  /** The rejected shape the constant is computed from names no retention tick. */
  function RejectedShapeJson(receipt: Receipt): Json {
    Obj([Member(ACT_ID, Str([])), Member(AT_TICK, Num(Numbers.ZERO)), Member(ATTEMPT_SHA256, Str([])),
         Member(PRINCIPAL_ID, Str([])), Member(RECEIPT, Obj(ReceiptMembers(receipt)))])
  }

  const EMPTY_QUEUED := Record([], Numbers.ZERO, [], [], Numbers.ZERO, Queued([], Numbers.ZERO, Numbers.ZERO))
  const EMPTY_REJECTED := Rejected([], Numbers.ZERO, WrongTick)

  function MaximumStringCodeUnits(n: nat): nat { 2 + n * 6 }

  // 16 is the number of digits of the largest safe integer
  function QueuedShapeCodeUnits(): int {
    |Print(RecordJson(EMPTY_QUEUED))| + MaximumStringCodeUnits(IDENTIFIER_CODE_UNITS) * 3 - 6
    + SHA256_CODE_UNITS + (16 - 1) * 4
  }

  function RejectedShapeCodeUnits(): int {
    |Print(RejectedShapeJson(EMPTY_REJECTED))| + MaximumStringCodeUnits(IDENTIFIER_CODE_UNITS) * 3 - 6
    + SHA256_CODE_UNITS + (16 - 1) * 2
  }

  function RecordCodeUnits(): int {
    if QueuedShapeCodeUnits() > RejectedShapeCodeUnits() then QueuedShapeCodeUnits() else RejectedShapeCodeUnits()
  }

  // ---- the bound ----------------------------------------------------------------------------------

  /** dynamicsActionIdempotencyRecordCodeUnits. */
  function PrintedSize(r: Record): nat { |Dynamics(RecordJson(r))| }

  lemma {:induction false} PairSize(key: Text, v: Json)
    requires Harmless(key)
    ensures MemberSize(Member(key, v)) == |key| + 3 + |Print(v)|
  {
    HarmlessSize(key);
  }

  lemma {:induction false} StrSize(s: Text)
    ensures |Print(Str(s))| == 2 + |EscapeUnits(s)|
    ensures |Print(Str(s))| <= 2 + 6 * |s|
    ensures Harmless(s) ==> |Print(Str(s))| == 2 + |s|
  {
    EscapedSize(s);
    if Harmless(s) { HarmlessSize(s); }
  }

  lemma {:induction false} FourMembersSize(a: Member, b: Member, c: Member, d: Member)
    ensures |Print(Obj([a, b, c, d]))| == 5 + MemberSize(a) + MemberSize(b) + MemberSize(c) + MemberSize(d)
  {
    hide PrintMember, MemberSize;
    PrintMembersSize([a, b, c, d]);
    assert [a, b, c, d][1..] == [b, c, d] && [b, c, d][1..] == [c, d] && [c, d][1..] == [d] && [d][1..] == [];
    assert MembersSize([d]) == MemberSize(d) + MembersSize([d][1..]);
    assert MembersSize([c, d]) == MemberSize(c) + MembersSize([d]);
    assert MembersSize([b, c, d]) == MemberSize(b) + MembersSize([c, d]);
  }

  lemma {:induction false} SixMembersSize(a: Member, b: Member, c: Member, d: Member, e: Member, f: Member)
    ensures |Print(Obj([a, b, c, d, e, f]))|
      == 7 + MemberSize(a) + MemberSize(b) + MemberSize(c) + MemberSize(d) + MemberSize(e) + MemberSize(f)
  {
    hide PrintMember, MemberSize;
    PrintMembersSize([a, b, c, d, e, f]);
    assert [a, b, c, d, e, f][1..] == [b, c, d, e, f] && [b, c, d, e, f][1..] == [c, d, e, f];
    assert [c, d, e, f][1..] == [d, e, f] && [d, e, f][1..] == [e, f] && [e, f][1..] == [f] && [f][1..] == [];
    assert MembersSize([f]) == MemberSize(f) + MembersSize([f][1..]);
    assert MembersSize([e, f]) == MemberSize(e) + MembersSize([f]);
    assert MembersSize([d, e, f]) == MemberSize(d) + MembersSize([e, f]);
    assert MembersSize([c, d, e, f]) == MemberSize(c) + MembersSize([d, e, f]);
    assert MembersSize([b, c, d, e, f]) == MemberSize(b) + MembersSize([c, d, e, f]);
  }

  lemma {:induction false} RecordKeysAreHarmless()
    ensures Harmless(ACT_ID) && Harmless(AT_TICK) && Harmless(ATTEMPT_SHA256)
  {
  }

  lemma {:induction false} LongKeysAreHarmless()
    ensures Harmless(PRINCIPAL_ID) && Harmless(RETAINED_AT_TICK) && Harmless(RECEIPT)
  {
  }

  lemma {:induction false} ReceiptKeysAreHarmless()
    ensures Harmless(APPLY_TICK) && Harmless(QUEUED) && Harmless(SEQUENCE) && Harmless(CODE)
  {
  }

  lemma {:induction false} CodesAreHarmless()
    ensures Harmless(ACT_ID_CONFLICT) && Harmless(WRONG_TICK)
  {
  }

  lemma {:induction false} KeysAreHarmless()
    ensures Harmless(ACT_ID) && Harmless(AT_TICK) && Harmless(ATTEMPT_SHA256) && Harmless(PRINCIPAL_ID)
    ensures Harmless(RETAINED_AT_TICK) && Harmless(RECEIPT) && Harmless(APPLY_TICK) && Harmless(QUEUED)
    ensures Harmless(SEQUENCE) && Harmless(CODE) && Harmless(ACT_ID_CONFLICT) && Harmless(WRONG_TICK)
  {
    hide Harmless;
    RecordKeysAreHarmless();
    LongKeysAreHarmless();
    ReceiptKeysAreHarmless();
    CodesAreHarmless();
  }

  lemma {:induction false} QueuedSize(r: Receipt)
    requires r.Queued?
    ensures |Print(Obj(ReceiptMembers(r)))| ==
      51 + |Print(Str(r.actId))| + |Print(Num(r.applyTick))| + |Print(Num(r.sequence))|
  {
    hide MemberSize, Harmless;
    KeysAreHarmless();
    FourMembersSize(Member(ACT_ID, Str(r.actId)), Member(APPLY_TICK, Num(r.applyTick)), Member(QUEUED, Bool(true)),
                    Member(SEQUENCE, Num(r.sequence)));
    PairSize(ACT_ID, Str(r.actId));
    PairSize(APPLY_TICK, Num(r.applyTick));
    PairSize(QUEUED, Bool(true));
    PairSize(SEQUENCE, Num(r.sequence));
    assert |Print(Bool(true))| == 4;
  }

  lemma {:induction false} RejectedSize(r: Receipt)
    requires r.Rejected?
    ensures |Print(Obj(ReceiptMembers(r)))| ==
      50 + |Print(Str(r.actId))| + |Print(Num(r.applyTick))| + |CodeText(r.code)|
  {
    hide MemberSize, Harmless;
    KeysAreHarmless();
    var code := Str(CodeText(r.code));
    FourMembersSize(Member(ACT_ID, Str(r.actId)), Member(APPLY_TICK, Num(r.applyTick)), Member(CODE, code),
                    Member(QUEUED, Bool(false)));
    PairSize(ACT_ID, Str(r.actId));
    PairSize(APPLY_TICK, Num(r.applyTick));
    PairSize(CODE, code);
    PairSize(QUEUED, Bool(false));
    StrSize(CodeText(r.code));
    assert |Print(Bool(false))| == 5;
  }

  lemma {:induction false} RecordSize(r: Record)
    ensures |Print(RecordJson(r))| ==
      87 + |Print(Str(r.actId))| + |Print(Num(r.atTick))| + |Print(Str(r.attemptSha256))|
      + |Print(Str(r.principalId))| + |Print(Num(r.retainedAtTick))| + |Print(Obj(ReceiptMembers(r.receipt)))|
  {
    hide MemberSize, Harmless, ReceiptMembers, Print;
    KeysAreHarmless();
    var receipt := Obj(ReceiptMembers(r.receipt));
    SixMembersSize(Member(ACT_ID, Str(r.actId)), Member(AT_TICK, Num(r.atTick)),
                   Member(ATTEMPT_SHA256, Str(r.attemptSha256)), Member(PRINCIPAL_ID, Str(r.principalId)),
                   Member(RETAINED_AT_TICK, Num(r.retainedAtTick)), Member(RECEIPT, receipt));
    PairSize(ACT_ID, Str(r.actId));
    PairSize(AT_TICK, Num(r.atTick));
    PairSize(ATTEMPT_SHA256, Str(r.attemptSha256));
    PairSize(PRINCIPAL_ID, Str(r.principalId));
    PairSize(RETAINED_AT_TICK, Num(r.retainedAtTick));
    PairSize(RECEIPT, receipt);
  }

  lemma {:induction false} FiveMembersSize(a: Member, b: Member, c: Member, d: Member, e: Member)
    ensures |Print(Obj([a, b, c, d, e]))|
      == 6 + MemberSize(a) + MemberSize(b) + MemberSize(c) + MemberSize(d) + MemberSize(e)
  {
    hide PrintMember, MemberSize;
    PrintMembersSize([a, b, c, d, e]);
    assert [a, b, c, d, e][1..] == [b, c, d, e] && [b, c, d, e][1..] == [c, d, e];
    assert [c, d, e][1..] == [d, e] && [d, e][1..] == [e] && [e][1..] == [];
    assert MembersSize([e]) == MemberSize(e) + MembersSize([e][1..]);
    assert MembersSize([d, e]) == MemberSize(d) + MembersSize([e]);
    assert MembersSize([c, d, e]) == MemberSize(c) + MembersSize([d, e]);
    assert MembersSize([b, c, d, e]) == MemberSize(b) + MembersSize([c, d, e]);
  }

  lemma {:induction false} RejectedShapeSize(receipt: Receipt)
    ensures |Print(RejectedShapeJson(receipt))| == 74 + |Print(Obj(ReceiptMembers(receipt)))|
  {
    hide MemberSize, Harmless, ReceiptMembers, Print;
    KeysAreHarmless();
    var member := Obj(ReceiptMembers(receipt));
    FiveMembersSize(Member(ACT_ID, Str([])), Member(AT_TICK, Num(Numbers.ZERO)), Member(ATTEMPT_SHA256, Str([])),
                    Member(PRINCIPAL_ID, Str([])), Member(RECEIPT, member));
    PairSize(ACT_ID, Str([]));
    PairSize(AT_TICK, Num(Numbers.ZERO));
    PairSize(ATTEMPT_SHA256, Str([]));
    PairSize(PRINCIPAL_ID, Str([]));
    PairSize(RECEIPT, member);
    EmptyValueSizes();
  }

  lemma {:induction false} EmptyValueSizes()
    ensures |Print(Str([]))| == 2 && |Print(Num(Numbers.ZERO))| == 1
  {
  }

  /** The constant the source computes from the shapes it prints. */
  lemma {:induction false} RecordCodeUnitsIs()
    ensures RecordCodeUnits() == 4882
  {
    hide Print, ReceiptMembers, RecordJson, RejectedShapeJson;
    RecordSize(EMPTY_QUEUED);
    QueuedSize(EMPTY_QUEUED.receipt);
    RejectedShapeSize(EMPTY_REJECTED);
    RejectedSize(EMPTY_REJECTED);
    EmptyValueSizes();
  }

  /** The canonical text of a record is as long as its members printed in any order. */
  lemma {:induction false} CanonicalRecordSize(r: Record)
    requires Bounded(r)
    ensures PrintedSize(r) == |Print(RecordJson(r))|
  {
    hide Print, Arrange, Harmless, PrintMembers, PrintMember;
    var receipt := ReceiptMembers(r.receipt);
    NormalReceipt(r);
    var arranged := Obj(Arrange(IndicesFirst, receipt));
    ArrangedSize(receipt);
    SafeIntegerSize(r.atTick);
    SafeIntegerSize(r.retainedAtTick);
    var ms := RecordJson(r).members;
    var normal := NormalizeMembers(IndicesFirst, ms);
    NormalObject(receipt);
    assert ms[5].value == Obj(receipt) && normal[5] == Member(RECEIPT, arranged);
    forall i | 0 <= i < 5 ensures normal[i] == ms[i] { NormalScalar(ms[i].value); }
    assert normal == ms[..5] + [Member(RECEIPT, arranged)];
    ArrangedSize(normal);
    LastMemberSize(ms[..5], RECEIPT, arranged, Obj(receipt));
    assert ms == ms[..5] + [Member(RECEIPT, Obj(receipt))];
  }

  lemma {:induction false} NormalScalar(v: Json)
    requires v.Str? || v.Bool? || (v.Num? && Numbers.DropNegativeZero(v.n) == v.n)
    ensures Normalize(IndicesFirst, v) == v
  {
  }

  lemma {:induction false} NormalObject(ms: seq<Member>)
    ensures Normalize(IndicesFirst, Obj(ms)) == Obj(Arrange(IndicesFirst, NormalizeMembers(IndicesFirst, ms)))
  {
  }

  lemma {:induction false} NormalReceipt(r: Record)
    requires Bounded(r)
    ensures NormalizeMembers(IndicesFirst, ReceiptMembers(r.receipt)) == ReceiptMembers(r.receipt)
  {
    hide Harmless;
    var ms := ReceiptMembers(r.receipt);
    SafeIntegerSize(r.receipt.applyTick);
    if r.receipt.Queued? { SafeIntegerSize(r.receipt.sequence); }
    forall i | 0 <= i < 4 ensures NormalizeMembers(IndicesFirst, ms)[i] == ms[i] { NormalScalar(ms[i].value); }
  }

  lemma {:induction false} LastMemberSize(front: seq<Member>, key: Text, a: Json, b: Json)
    requires |Print(a)| == |Print(b)|
    ensures |Print(Obj(front + [Member(key, a)]))| == |Print(Obj(front + [Member(key, b)]))|
  {
    hide MembersSize, PrintMembers;
    ConcatSize(front, [Member(key, a)]);
    ConcatSize(front, [Member(key, b)]);
    OneMemberSize(Member(key, a));
    OneMemberSize(Member(key, b));
    PrintMembersSize(front + [Member(key, a)]);
    PrintMembersSize(front + [Member(key, b)]);
  }

  lemma {:induction false} OneMemberSize(m: Member)
    ensures MembersSize([m]) == MemberSize(m)
  {
    assert [m][1..] == [];
  }

  /** No retained record, queued or rejected, prints longer than the constant. */
  lemma {:induction false} RecordsFit(r: Record)
    requires Bounded(r)
    ensures PrintedSize(r) <= RecordCodeUnits()
  {
    hide Print, Dynamics, RecordJson, ReceiptMembers, Harmless, RecordCodeUnits, PrintedSize;
    RecordCodeUnitsIs();
    CanonicalRecordSize(r);
    RecordSize(r);
    StrSize(r.actId);
    StrSize(r.attemptSha256);
    StrSize(r.principalId);
    StrSize(r.receipt.actId);
    NumberSize(r.atTick);
    NumberSize(r.retainedAtTick);
    NumberSize(r.receipt.applyTick);
    if r.receipt.Queued? {
      NumberSize(r.receipt.sequence);
      QueuedSize(r.receipt);
    } else {
      RejectedSize(r.receipt);
    }
  }

  lemma {:induction false} NumberSize(n: Numbers.Number)
    requires SafeInteger(n)
    ensures |Print(Num(n))| <= 16
  {
    SafeIntegerSize(n);
  }

  /** The bound is reached: a queued record whose identifiers escape everywhere and whose
      integers have sixteen digits prints to exactly the constant. */
  lemma {:induction false} BoundIsReached(r: Record)
    requires Bounded(r) && r.receipt.Queued?
    requires |EscapeUnits(r.actId)| == 6 * IDENTIFIER_CODE_UNITS
    requires |EscapeUnits(r.principalId)| == 6 * IDENTIFIER_CODE_UNITS
    requires |EscapeUnits(r.receipt.actId)| == 6 * IDENTIFIER_CODE_UNITS
    requires |Numbers.Print(r.atTick)| == 16 && |Numbers.Print(r.retainedAtTick)| == 16
    requires |Numbers.Print(r.receipt.applyTick)| == 16 && |Numbers.Print(r.receipt.sequence)| == 16
    ensures PrintedSize(r) == RecordCodeUnits()
  {
    hide RecordJson, ReceiptMembers, Harmless, RecordCodeUnits, PrintedSize;
    RecordCodeUnitsIs();
    CanonicalRecordSize(r);
    RecordSize(r);
    QueuedSize(r.receipt);
    StrSize(r.actId);
    StrSize(r.attemptSha256);
    StrSize(r.principalId);
    StrSize(r.receipt.actId);
  }

  function TotalSize(rs: seq<Record>): nat {
    if rs == [] then 0 else PrintedSize(rs[0]) + TotalSize(rs[1..])
  }

  /** One tick's worth of records never exceeds the limit on all of them. */
  lemma {:induction false} OneTickFits(rs: seq<Record>)
    requires forall i :: 0 <= i < |rs| ==> Bounded(rs[i])
    ensures TotalSize(rs) <= |rs| * RecordCodeUnits()
    ensures |rs| <= 128 ==> TotalSize(rs) <= 128 * RecordCodeUnits()
  {
    hide PrintedSize, Bounded, RecordCodeUnits;
    RecordCodeUnitsIs();
    if rs != [] {
      RecordsFit(rs[0]);
      OneTickFits(rs[1..]);
    }
  }

  // ---- the evidence buffer ----------------------------------------------------------------------

  datatype Evidence<A> = Evidence(ordinal: nat, record: A)

  const MAX_SAFE_INTEGER := 9_007_199_254_740_991

  predicate Ordered<A>(es: seq<Evidence<A>>) {
    forall i, j :: 0 <= i < j < |es| ==> es[i].ordinal < es[j].ordinal
  }

  /** The entries issued after an ordinal. */
  function After<A>(es: seq<Evidence<A>>, ordinal: nat): seq<Evidence<A>> {
    if es == [] then []
    else if es[0].ordinal > ordinal then [es[0]] + After(es[1..], ordinal)
    else After(es[1..], ordinal)
  }

  /** The entries issued up to an ordinal. */
  function UpTo<A>(es: seq<Evidence<A>>, ordinal: nat): seq<Evidence<A>> {
    if es == [] then []
    else if es[0].ordinal <= ordinal then [es[0]] + UpTo(es[1..], ordinal)
    else UpTo(es[1..], ordinal)
  }

  /** An ordered buffer splits at every ordinal: acknowledging keeps the rest of it and
      restoring the front. */
  lemma {:induction false} SplitAt<A>(es: seq<Evidence<A>>, ordinal: nat) returns (n: nat)
    requires Ordered(es)
    ensures n <= |es| && UpTo(es, ordinal) == es[..n] && After(es, ordinal) == es[n..]
    ensures forall i :: 0 <= i < |es| ==> (es[i].ordinal <= ordinal <==> i < n)
  {
    if es == [] {
      n := 0;
    } else if es[0].ordinal > ordinal {
      n := 0;
      AllAfter(es, ordinal);
    } else {
      n := SplitAt(es[1..], ordinal);
      n := n + 1;
      assert es[..n] == [es[0]] + es[1..][..n - 1] && es[n..] == es[1..][n - 1..];
      forall i | 0 <= i < |es| ensures es[i].ordinal <= ordinal <==> i < n {
        if i > 0 { assert es[i] == es[1..][i - 1]; }
      }
    }
  }

  lemma {:induction false} AllAfter<A>(es: seq<Evidence<A>>, ordinal: nat)
    requires forall i :: 0 <= i < |es| ==> es[i].ordinal > ordinal
    ensures UpTo(es, ordinal) == [] && After(es, ordinal) == es
  {
    if es != [] { AllAfter(es[1..], ordinal); }
  }

  class EvidenceBuffer<A> {
    var entries: seq<Evidence<A>>
    var ordinal: nat
    var nextOrdinal: nat

    ghost predicate Valid()
      reads this
    {
      && Ordered(entries) && nextOrdinal == ordinal + 1
      && forall i :: 0 <= i < |entries| ==> 1 <= entries[i].ordinal <= ordinal
    }

    constructor ()
      ensures Valid() && entries == [] && ordinal == 0
    {
      entries, ordinal, nextOrdinal := [], 0, 1;
    }

    method Available() returns (ok: bool)
      requires Valid()
      ensures ok <==> |entries| < 128 && ordinal + 1 < 9_007_199_254_740_991
    {
      return |entries| < ACTIONS_PER_TICK && nextOrdinal < MAX_SAFE_INTEGER;
    }

    method Emit(record: A)
      requires Valid()
      modifies this
      ensures Valid() && ordinal == old(ordinal) + 1
      ensures entries == old(entries) + [Evidence(old(ordinal) + 1, record)]
    {
      var issued := nextOrdinal;
      nextOrdinal := nextOrdinal + 1;
      ordinal := issued;
      entries := entries + [Evidence(issued, record)];
    }

    method Acknowledge(through: nat) returns (ok: bool)
      requires Valid()
      modifies this
      ensures Valid() && ordinal == old(ordinal) && (ok <==> through <= old(ordinal))
      ensures entries == if ok then After(old(entries), through) else old(entries)
    {
      if through > ordinal { return false; }
      ghost var _ := SplitAt(entries, through);
      entries := After(entries, through);
      return true;
    }

    method ReadAfter(after: nat) returns (es: seq<Evidence<A>>)
      requires Valid()
      ensures es == After(entries, after) && Ordered(es)
    {
      ghost var _ := SplitAt(entries, after);
      return After(entries, after);
    }

    method Restore(to: nat)
      requires Valid()
      modifies this
      ensures Valid() && ordinal == to && entries == UpTo(old(entries), to)
    {
      ghost var _ := SplitAt(entries, to);
      entries := UpTo(entries, to);
      ordinal, nextOrdinal := to, to + 1;
    }
  }

  /** The names and codes of the records. */
  lemma {:induction false} RecordNamesSpelled()
    ensures ACT_ID == Ascii("act_id") && AT_TICK == Ascii("at_tick") && ATTEMPT_SHA256 == Ascii("attempt_sha256")
    ensures PRINCIPAL_ID == Ascii("principal_id") && RETAINED_AT_TICK == Ascii("retained_at_tick")
  {
  }

  lemma {:induction false} ReceiptNamesSpelled()
    ensures RECEIPT == Ascii("receipt") && APPLY_TICK == Ascii("apply_tick") && QUEUED == Ascii("queued")
    ensures SEQUENCE == Ascii("sequence") && CODE == Ascii("code")
    ensures ACT_ID_CONFLICT == Ascii("act_id_conflict") && WRONG_TICK == Ascii("wrong_tick")
  {
  }
}
