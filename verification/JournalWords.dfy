/** The words that a journal is written with. None of its field names is forbidden and none of its
    labels, digests, times and names is shaped like a secret, so what is proved of a harmless
    spelling is proved of this one. */
module JournalWords {
  import opened Wrappers
  import opened Text
  import opened Formats
  import opened JsonText
  import opened Contracts
  import opened Secrets
  import opened JournalGate
  import Numbers
  import RecoveryCommand

  // ---- labels ------------------------------------------------------------------------------------

  function PhaseWord(p: Phase): string {
    match p
    case Requested => "requested"
    case Prepared => "prepared"
    case WorldCreated => "world_created"
    case WorldStartedPaused => "world_started_paused"
    case WorldReady => "world_ready"
    case OrganizationStarted => "organization_started"
    case OrganizationReady => "organization_ready"
    case TopologyVerified => "topology_verified"
    case Activated => "activated"
    case Tick1 => "tick_1"
    case Running => "running"
    case Terminal => "terminal"
    case WorldPaused => "world_paused"
    case WorldEvidenceExported => "world_evidence_exported"
    case OrganizationEvidenceExported => "organization_evidence_exported"
    case Cleaned => "cleaned"
    case Completed => "completed"
  }

  function StateWord(s: State): string {
    match s
    case Active => "active"
    case Recoverable => "recoverable"
    case Complete => "complete"
  }

  function SignalWord(s: Signal): string {
    match s
    case Sigint => "SIGINT"
    case Sigterm => "SIGTERM"
    case Restart => "restart"
    case Failure => "failure"
  }

  function VersionWord(v: Version): string {
    match v
    case V1 => "simfile.composed-phase-journal.v1"
    case V2 => "simfile.composed-phase-journal.v2"
  }

  function OperationStateWord(s: OperationState): string {
    match s
    case IntentDurable => "intent_durable"
    case OperationCompleted => "completed"
    case LookupRequired => "lookup_required"
    case NotApplied => "not_applied"
    case Pending => "pending"
    case Ambiguous => "ambiguous"
  }

  function KindWord(k: BootstrapKind): string {
    match k
    case ResolveTargetConfig => "resolve_target_config"
    case SelectTarget => "select_target"
    case PrepareContainerBundle => "prepare_container_bundle"
    case ProvisionCredentials => "provision_credentials"
    case PrepareComposedRun => "prepare_composed_run"
  }

  function LabelWord(l: Label): string {
    match l
    case PhaseLabel(p) => PhaseWord(p)
    case StateLabel(s) => StateWord(s)
    case SignalLabel(s) => SignalWord(s)
    case VersionLabel(v) => VersionWord(v)
    case OperationStateLabel(s) => OperationStateWord(s)
    case KindLabel(k) => KindWord(k)
  }

  /** No blank, no equals sign and no dash. */
  predicate Undashed(s: string) { forall k :: 0 <= k < |s| ==> '!' < s[k] < '~' && s[k] != '=' && s[k] != '-' }

  /** No blank, no equals sign and no k. */
  predicate WithoutK(s: string) { forall k :: 0 <= k < |s| ==> '!' < s[k] < '~' && s[k] != '=' && s[k] != 'k' }

  lemma {:induction false} PlainWordIsNoSecret(s: string)
    requires Undashed(s) || WithoutK(s)
    ensures !SecretShaped(Ascii(s))
  {
    var t := Ascii(s);
    assert Plain(t) by {
      forall k | 0 <= k < |t| ensures !Space(t[k]) && t[k] != EQUALS { assert t[k] == Unit(s[k]); }
      if Undashed(s) { assert Lacks(t, DASH); }
      if WithoutK(s) { assert Lacks(t, SK[1]); }
    }
    PlainIsNoSecret(t);
  }

  lemma {:induction false} StartupWordsArePlain(p: Phase)
    requires p.Requested? || p.Prepared? || p.WorldCreated? || p.WorldStartedPaused?
    ensures Undashed(PhaseWord(p))
  {
  }

  lemma {:induction false} ReadyWordsArePlain(p: Phase)
    requires p.WorldReady? || p.OrganizationStarted? || p.OrganizationReady?
    ensures Undashed(PhaseWord(p))
  {
  }

  lemma {:induction false} ActiveWordsArePlain(p: Phase)
    requires p.TopologyVerified? || p.Activated? || p.Tick1? || p.Running? || p.Terminal?
    ensures Undashed(PhaseWord(p))
  {
  }

  lemma {:induction false} EvidenceWordsArePlain(p: Phase)
    requires p.WorldPaused? || p.WorldEvidenceExported?
    ensures Undashed(PhaseWord(p))
  {
  }

  lemma {:induction false} ExportWordIsPlain(p: Phase)
    requires p.OrganizationEvidenceExported?
    ensures Undashed(PhaseWord(p))
  {
  }

  lemma {:induction false} LastWordsArePlain(p: Phase)
    requires p.Cleaned? || p.Completed?
    ensures Undashed(PhaseWord(p))
  {
  }

  lemma {:induction false} StatesArePlain(s: State)
    ensures Undashed(StateWord(s))
  {
  }

  lemma {:induction false} SignalsArePlain(s: Signal)
    ensures Undashed(SignalWord(s))
  {
  }

  lemma {:induction false} VersionsArePlain(v: Version)
    ensures WithoutK(VersionWord(v))
  {
  }

  lemma {:induction false} OperationStatesArePlain(s: OperationState)
    ensures Undashed(OperationStateWord(s))
  {
  }

  lemma {:induction false} TargetKindsArePlain(k: BootstrapKind)
    requires k.ResolveTargetConfig? || k.SelectTarget?
    ensures Undashed(KindWord(k))
  {
  }

  lemma {:induction false} ContainerKindIsPlain(k: BootstrapKind)
    requires k.PrepareContainerBundle?
    ensures Undashed(KindWord(k))
  {
  }

  lemma {:induction false} OtherKindsArePlain(k: BootstrapKind)
    requires k.ProvisionCredentials? || k.PrepareComposedRun?
    ensures Undashed(KindWord(k))
  {
  }

  /** No label of a journal is shaped like a secret: not the version labels either, with their s
      and their dashes. */
  lemma {:induction false} LabelsAreNoSecrets(l: Label)
    ensures !SecretShaped(Ascii(LabelWord(l)))
  {
    hide Undashed, WithoutK, SecretShaped, PhaseWord, StateWord, SignalWord, VersionWord, OperationStateWord,
      KindWord, Ascii;
    match l {
      case PhaseLabel(p) =>
        match p {
          case Requested | Prepared | WorldCreated | WorldStartedPaused => StartupWordsArePlain(p);
          case WorldReady | OrganizationStarted | OrganizationReady => ReadyWordsArePlain(p);
          case TopologyVerified | Activated | Tick1 | Running | Terminal => ActiveWordsArePlain(p);
          case WorldPaused | WorldEvidenceExported => EvidenceWordsArePlain(p);
          case OrganizationEvidenceExported => ExportWordIsPlain(p);
          case Cleaned | Completed => LastWordsArePlain(p);
        }
      case StateLabel(s) => StatesArePlain(s);
      case SignalLabel(s) => SignalsArePlain(s);
      case VersionLabel(v) => VersionsArePlain(v);
      case OperationStateLabel(s) => OperationStatesArePlain(s);
      case KindLabel(k) =>
        match k {
          case ResolveTargetConfig | SelectTarget => TargetKindsArePlain(k);
          case PrepareContainerBundle => ContainerKindIsPlain(k);
          case ProvisionCredentials | PrepareComposedRun => OtherKindsArePlain(k);
        }
    }
    PlainWordIsNoSecret(LabelWord(l));
  }

  // ---- field names ---------------------------------------------------------------------------------

  function FieldWord(f: Field): string {
    match f
    case AuthorityDigestField => "authority_digest"
    case BootstrapField => "bootstrap"
    case BootstrapBindingField => "bootstrap_binding"
    case BootstrapOperationsField => "bootstrap_operations"
    case CommandField => "command"
    case CurrentPhaseField => "current_phase"
    case EntriesField => "entries"
    case ExecutionField => "execution"
    case GenesisNonceField => "genesis_nonce"
    case InterruptionField => "interruption"
    case JournalDigestField => "journal_digest"
    case KindField => "kind"
    case NextPhaseField => "next_phase"
    case OperationIdField => "operation_id"
    case OperationsField => "operations"
    case PayloadField => "payload"
    case PayloadDigestField => "payload_digest"
    case PhaseField => "phase"
    case ReceiptField => "receipt"
    case RecordedAtField => "recorded_at"
    case RecoveryCommandField => "recovery_command"
    case RequestField => "request"
    case RequestDigestField => "request_digest"
    case SequenceField => "sequence"
    case SignalField => "signal"
    case StateField => "state"
    case TargetReceiptField => "target_receipt"
    case VersionField => "version"
  }

  const FORBIDDEN: seq<string> :=
    ["authorization", "bearer", "credential", "password", "private_config", "secret", "target_config", "token"]

  /** Case folding as far as it meets ASCII letters: capitals, the long s and the Kelvin sign. */
  function Fold(c: CodeUnit): CodeUnit {
    if 65 <= c <= 90 then c + 32 else if c == 0x17F then 115 else if c == 0x212A then 107 else c
  }

  predicate Spells(t: Text, w: string) {
    |t| == |w| && forall i :: 0 <= i < |t| ==> Fold(t[i]) == Unit(w[i])
  }

  /** The pattern of forbidden keys. */
  predicate ForbiddenKey(t: Text) { exists i :: 0 <= i < |FORBIDDEN| && Spells(t, FORBIDDEN[i]) }

  /** Of another length, or with another letter at one of three places. */
  predicate Differs(s: string, w: string) {
    || |s| != |w|
    || (|s| > 1 && (UnlikeAt(s, w, 0) || UnlikeAt(s, w, 1) || UnlikeAt(s, w, |s| - 1)))
  }

  predicate UnlikeAt(s: string, w: string, i: nat)
    requires i < |s| == |w|
  {
    ('a' <= s[i] <= 'z' || s[i] == '_') && 'a' <= w[i] <= 'z' && s[i] != w[i]
  }

  lemma {:induction false} DifferentIsNotSpelled(s: string, w: string)
    requires Differs(s, w)
    ensures !Spells(Ascii(s), w)
  {
  }

  lemma {:induction false} FieldsDiffer(f: Field, i: nat)
    requires i < 8
    ensures Differs(FieldWord(f), FORBIDDEN[i])
  {
  }

  lemma {:induction false} FieldsAreAllowed(f: Field)
    ensures !ForbiddenKey(Ascii(FieldWord(f)))
  {
    hide FieldWord, Spells, Differs, Ascii;
    forall i | 0 <= i < |FORBIDDEN| ensures !Spells(Ascii(FieldWord(f)), FORBIDDEN[i]) {
      FieldsDiffer(f, i);
      DifferentIsNotSpelled(FieldWord(f), FORBIDDEN[i]);
    }
  }

  // ---- digests, times and names -----------------------------------------------------------------------

  /** A time of RFC 3339: digits, a T, a Z or an offset, and what separates them. */
  predicate TimeText(t: Text) {
    forall i :: 0 <= i < |t| ==>
      IsDigit(t[i]) || t[i] == 84 || t[i] == 90 || t[i] == 43 || t[i] == DASH || t[i] == DOT || t[i] == 58
  }

  /** A nonce or a command: small letters, digits and underscores. */
  predicate NameText(t: Text) { forall i :: 0 <= i < |t| ==> IsDigit(t[i]) || 97 <= t[i] <= 122 || t[i] == 95 }

  lemma {:induction false} DigestIsNoSecret(t: Text)
    requires RecoveryCommand.DigestText(t)
    ensures !SecretShaped(t)
  {
    forall k | 0 <= k < |t| ensures !Space(t[k]) && t[k] != EQUALS && t[k] != DASH {
      if k < 7 { assert t[k] == RecoveryCommand.SHA256_PREFIX[k]; }
    }
    assert Lacks(t, DASH);
    PlainIsNoSecret(t);
  }

  lemma {:induction false} TimeIsNoSecret(t: Text)
    requires TimeText(t)
    ensures !SecretShaped(t)
  {
    assert Lacks(t, SK[0]);
    PlainIsNoSecret(t);
  }

  lemma {:induction false} NameIsNoSecret(t: Text)
    requires NameText(t)
    ensures !SecretShaped(t)
  {
    assert Lacks(t, DASH);
    PlainIsNoSecret(t);
  }

  // ---- the spelling of a journal -------------------------------------------------------------------------

  /** A spelling with the words above, and digests, times, names and numbers in their formats. What
      the request, the payloads and the other parts look like is open. */
  ghost predicate Actual(sp: Spelling) {
    && (forall f :: sp.field(f) == Ascii(FieldWord(f))) && (forall l :: sp.caption(l) == Ascii(LabelWord(l)))
    && (forall d :: RecoveryCommand.DigestText(sp.digest(d))) && (forall t :: TimeText(sp.time(t)))
    && (forall n :: NameText(sp.name(n))) && (forall n :: sp.number(n).Num?)
  }

  /** The spelling that journals have is harmless. */
  lemma {:induction false} ActualIsHarmless(sp: Spelling)
    requires Actual(sp)
    ensures Harmless(sp, ForbiddenKey)
  {
    hide ForbiddenKey, SecretShaped, FieldWord, LabelWord, Ascii, TimeText, NameText, RecoveryCommand.DigestText;
    forall f ensures !ForbiddenKey(sp.field(f)) { FieldsAreAllowed(f); }
    forall l ensures !SecretShaped(sp.caption(l)) { LabelsAreNoSecrets(l); }
    forall d ensures !SecretShaped(sp.digest(d)) { DigestIsNoSecret(sp.digest(d)); }
    forall t ensures !SecretShaped(sp.time(t)) { TimeIsNoSecret(sp.time(t)); }
    forall n ensures !SecretShaped(sp.name(n)) { NameIsNoSecret(sp.name(n)); }
  }

  /** And there is one. */
  lemma {:induction false} ActualSpelling() returns (sp: Spelling)
    ensures Actual(sp) && Harmless(sp, ForbiddenKey)
  {
    hide FieldWord, LabelWord, Ascii;
    var digest := RecoveryCommand.SHA256_PREFIX + seq(64, _ => 48);
    assert RecoveryCommand.DigestText(digest);
    sp := Spelling(f => Ascii(FieldWord(f)), l => Ascii(LabelWord(l)), _ => digest, _ => [], _ => [],
                   _ => Num(Numbers.ZERO), _ => Null, _ => Null, _ => Null, _ => Null, _ => Null, _ => Null, _ => Null);
    ActualIsHarmless(sp);
  }

  // ---- a key that may not become a value ------------------------------------------------------------------

  // "sk-aaaaaaaaaaaaaaaa"
  const SECRET_NAME: Text := SK + seq(16, _ => 97)

  /** This name has the format of an agent and may be a key of an execution, yet no receipt may carry
      it as a value: the check puts only the pattern of forbidden keys on keys. */
  lemma {:induction false} KeyThatIsNoValue(v: Json)
    requires JournalGate.Clean(v, ForbiddenKey)
    ensures RunIdText(SECRET_NAME)
    ensures JournalGate.Clean(Obj([Member(SECRET_NAME, v)]), ForbiddenKey)
    ensures !JournalGate.Clean(Str(SECRET_NAME), ForbiddenKey)
  {
    hide JournalGate.Clean;
    SecretNameIsShaped();
    SecretNameIsAllowed();
    ObjectIsClean([Member(SECRET_NAME, v)], ForbiddenKey);
    TextIsClean(SECRET_NAME, ForbiddenKey);
  }

  lemma {:induction false} SecretNameIsShaped()
    ensures SecretShaped(SECRET_NAME) && RunIdText(SECRET_NAME)
  {
    var t := SECRET_NAME;
    assert t[0..3] == SK && StartsAt(t, 0, SK);
    assert BoundaryAt(t, 0) && ApiKeyAt(t, 0);
    assert SecretAt(t, 0);
  }

  lemma {:induction false} SecretNameIsAllowed()
    ensures !ForbiddenKey(SECRET_NAME)
  {
    forall i | 0 <= i < |FORBIDDEN| ensures !Spells(SECRET_NAME, FORBIDDEN[i]) {
      assert |FORBIDDEN[i]| <= 14;
    }
  }

  /** A key is forbidden exactly if it is one of these eight words, each letter in either case or, for s
      and k, as the long s or the Kelvin sign. */
  predicate OneOf(t: Text, w: string) {
    |t| == |w| && forall i :: 0 <= i < |t| ==>
      || t[i] == Unit(w[i]) || ('a' <= w[i] <= 'z' && t[i] == Unit(w[i]) - 32)
      || (w[i] == 's' && t[i] == 0x17F) || (w[i] == 'k' && t[i] == 0x212A)
  }

  lemma {:induction false} SpellsExactly(t: Text, w: string)
    requires forall i :: 0 <= i < |w| ==> 'a' <= w[i] <= 'z' || w[i] == '_'
    ensures Spells(t, w) <==> OneOf(t, w)
  {
  }

  lemma {:induction false} ForbiddenExactly(t: Text)
    ensures ForbiddenKey(t) <==>
      || OneOf(t, "authorization") || OneOf(t, "bearer") || OneOf(t, "credential") || OneOf(t, "password")
      || OneOf(t, "private_config") || OneOf(t, "secret") || OneOf(t, "target_config") || OneOf(t, "token")
  {
    hide Spells, OneOf;
    assert FORBIDDEN[0] == "authorization" && FORBIDDEN[1] == "bearer" && FORBIDDEN[2] == "credential";
    assert FORBIDDEN[3] == "password" && FORBIDDEN[4] == "private_config" && FORBIDDEN[5] == "secret";
    assert FORBIDDEN[6] == "target_config" && FORBIDDEN[7] == "token" && |FORBIDDEN| == 8;
    SpellsExactly(t, "authorization");
    SpellsExactly(t, "bearer");
    SpellsExactly(t, "credential");
    SpellsExactly(t, "password");
    SpellsExactly(t, "private_config");
    SpellsExactly(t, "secret");
    SpellsExactly(t, "target_config");
    SpellsExactly(t, "token");
  }
}
