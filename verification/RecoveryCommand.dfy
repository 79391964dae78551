/** The recovery command: printed with shell quoting, split again as a shell does (IEEE Std
    1003.1-2017, Shell Command Language, sections 2.2.2, 2.2.3 and 2.3), and parsed back. */
module RecoveryCommand {
  import opened Wrappers
  import opened Text
  import opened Formats

  const QUOTE_1: CodeUnit := 39
  const QUOTE_2: CodeUnit := 34
  const SPACE: CodeUnit := 32

  /** The bound the journal and receipt schemas put on a recovery command. */
  const MAX_COMMAND := 8192

  // simfile, recover, --journal, --run-id, --authority-digest, sha256:
  const SIMFILE: Text := [115, 105, 109, 102, 105, 108, 101]
  const RECOVER: Text := [114, 101, 99, 111, 118, 101, 114]
  const JOURNAL_FLAG: Text := [45, 45, 106, 111, 117, 114, 110, 97, 108]
  const RUN_FLAG: Text := [45, 45, 114, 117, 110, 45, 105, 100]
  const AUTHORITY_FLAG: Text :=
    [45, 45, 97, 117, 116, 104, 111, 114, 105, 116, 121, 45, 100, 105, 103, 101, 115, 116]
  const SHA256_PREFIX: Text := [115, 104, 97, 50, 53, 54, 58]

  // ---- printing -----------------------------------------------------------------------------

  /** Each single quote leaves the single quotes, appears in double quotes, and enters again. */
  function Escaped(t: Text): Text {
    if t == [] then []
    else (if t[0] == QUOTE_1 then [QUOTE_1, QUOTE_2, QUOTE_1, QUOTE_2, QUOTE_1] else [t[0]]) + Escaped(t[1..])
  }

  function ShellQuote(t: Text): Text { [QUOTE_1] + Escaped(t) + [QUOTE_1] }

  function Command(path: Text, runId: Text, digest: Text): Text {
    SIMFILE + [SPACE] + (RECOVER + [SPACE] + (JOURNAL_FLAG + [SPACE] + (ShellQuote(path) + [SPACE]
    + (RUN_FLAG + [SPACE] + (ShellQuote(runId) + [SPACE] + (AUTHORITY_FLAG + [SPACE] + ShellQuote(digest)))))))
  }

  // ---- splitting into words --------------------------------------------------------------------

  datatype Mode = Plain | InSingle | InDouble

  /** Characters a shell reads as themselves outside quotes. */
  predicate Ordinary(c: CodeUnit) {
    48 <= c <= 57 || 65 <= c <= 90 || 97 <= c <= 122 || c == 45 || c == 46 || c == 47 || c == 58 || c == 95
  }

  /** Inside double quotes a dollar sign, a backquote and a backslash are special. */
  predicate SpecialInDouble(c: CodeUnit) { c == 36 || c == 96 || c == 92 }

  /** The words of a text, given the mode and the word begun so far; None where quoting is not
      closed or a character would mean something beyond quoting. */
  function Words(t: Text, mode: Mode, word: Option<Text>): Option<seq<Text>>
    decreases |t|
  {
    if t == [] then
      if !mode.Plain? then None else Some(if word.None? then [] else [word.value])
    else
      var c, rest := t[0], t[1..];
      var sofar := word.GetOr([]);
      match mode
      case InSingle =>
        if c == QUOTE_1 then Words(rest, Plain, Some(sofar)) else Words(rest, InSingle, Some(sofar + [c]))
      case InDouble =>
        if c == QUOTE_2 then Words(rest, Plain, Some(sofar))
        else if SpecialInDouble(c) then None else Words(rest, InDouble, Some(sofar + [c]))
      case Plain =>
        if c == SPACE then
          var others := Words(rest, Plain, None);
          if others.None? then None else Some((if word.None? then [] else [word.value]) + others.value)
        else if c == QUOTE_1 then Words(rest, InSingle, Some(sofar))
        else if c == QUOTE_2 then Words(rest, InDouble, Some(sofar))
        else if Ordinary(c) then Words(rest, Plain, Some(sofar + [c]))
        else None
  }

  function SplitWords(t: Text): Option<seq<Text>> { Words(t, Plain, None) }

  // ---- reading the arguments ------------------------------------------------------------------------

  /** An absolute path that normalization leaves alone, other than the root; only the last part
      may be empty. */
  predicate NormalPath(t: Text) {
    && |t| >= 2 && t[0] == SLASH
    && forall i :: 1 <= i < |Parts(t)| ==>
         Parts(t)[i] != [46] && Parts(t)[i] != [46, 46] && (Parts(t)[i] == [] ==> i == |Parts(t)| - 1)
  }

  predicate DigestText(t: Text) {
    |t| == 71 && t[..7] == SHA256_PREFIX && forall i :: 7 <= i < 71 ==> IsHex(t[i])
  }

  datatype Arguments = Arguments(authority: Text, path: Text, runId: Text)

  /** parseComposedRecoveryArguments. */
  function ParseArguments(argv: seq<Text>): Option<Arguments> {
    if |argv| != 6 || argv[0] != JOURNAL_FLAG || argv[2] != RUN_FLAG || argv[4] != AUTHORITY_FLAG
       || !NormalPath(argv[1]) || !RunIdText(argv[3]) || !DigestText(argv[5]) then None
    else Some(Arguments(argv[5], argv[1], argv[3]))
  }

  /** What a shell and the command line make of a command text. */
  function ReadCommand(t: Text): Option<Arguments> {
    match SplitWords(t)
    case None => None
    case Some(words) =>
      if |words| < 2 || words[0] != SIMFILE || words[1] != RECOVER then None else ParseArguments(words[2..])
  }

  // ---- quoting is undone by splitting ------------------------------------------------------------------

  predicate AllOrdinary(t: Text) { forall i :: 0 <= i < |t| ==> Ordinary(t[i]) }

  lemma {:induction false} PlainWord(w: Text, sofar: Text, rest: Text)
    requires AllOrdinary(w) && w != []
    ensures Words(w + rest, Plain, Some(sofar)) == Words(rest, Plain, Some(sofar + w))
  {
    var t := w + rest;
    assert t[0] == w[0] && t[1..] == w[1..] + rest;
    if |w| == 1 {
      assert w[1..] + rest == rest && sofar + [w[0]] == sofar + w;
    } else {
      PlainWord(w[1..], sofar + [w[0]], rest);
      assert sofar + [w[0]] + w[1..] == sofar + w;
    }
  }

  lemma {:induction false} SpaceEndsWord(w: Text, rest: Text)
    ensures Words([SPACE] + rest, Plain, Some(w))
      == if SplitWords(rest).None? then None else Some([w] + SplitWords(rest).value)
  {
    assert ([SPACE] + rest)[1..] == rest;
  }

  /** An unquoted word before a space is the next word. */
  lemma {:induction false} PlainThenSpace(w: Text, rest: Text)
    requires AllOrdinary(w) && w != []
    ensures SplitWords(w + [SPACE] + rest) ==
      if SplitWords(rest).None? then None else Some([w] + SplitWords(rest).value)
  {
    var t := w + [SPACE] + rest;
    var after := [SPACE] + rest;
    assert t == w + after && after[0] == SPACE && after[1..] == rest;
    assert t[0] == w[0] && t[1..] == w[1..] + after;
    assert [] + [w[0]] == [w[0]] && Ordinary(w[0]);
    assert SplitWords(t) == Words(t[1..], Plain, Some([w[0]]));
    SpaceEndsWord(w, rest);
    if |w| == 1 {
      assert w == [w[0]] && w[1..] == [] && t[1..] == after;
    } else {
      PlainWord(w[1..], [w[0]], after);
      assert [w[0]] + w[1..] == w;
    }
  }

  /** Inside single quotes the escaped text reads as the text, quotes and all. */
  lemma {:induction false} EscapedReads(t: Text, sofar: Text, rest: Text)
    ensures Words(Escaped(t) + rest, InSingle, Some(sofar)) == Words(rest, InSingle, Some(sofar + t))
    decreases |t|
  {
    if t == [] {
      assert Escaped(t) + rest == rest && sofar + t == sofar;
    } else {
      var tail := Escaped(t[1..]) + rest;
      EscapedReads(t[1..], sofar + [t[0]], rest);
      assert sofar + [t[0]] + t[1..] == sofar + t;
      if t[0] == QUOTE_1 {
        QuoteReads(sofar, tail);
        assert Escaped(t) + rest == [QUOTE_1, QUOTE_2, QUOTE_1, QUOTE_2, QUOTE_1] + tail;
      } else {
        assert Escaped(t) + rest == [t[0]] + tail;
      }
    }
  }

  lemma {:induction false} QuoteReads(sofar: Text, tail: Text)
    ensures Words([QUOTE_1, QUOTE_2, QUOTE_1, QUOTE_2, QUOTE_1] + tail, InSingle, Some(sofar))
            == Words(tail, InSingle, Some(sofar + [QUOTE_1]))
  {
    var e := [QUOTE_1] + tail;
    var d := [QUOTE_2] + e;
    var c := [QUOTE_1] + d;
    var b := [QUOTE_2] + c;
    assert [QUOTE_1, QUOTE_2, QUOTE_1, QUOTE_2, QUOTE_1] + tail == [QUOTE_1] + b;
    assert ([QUOTE_1] + b)[1..] == b && b[1..] == c && c[1..] == d && d[1..] == e && e[1..] == tail;
    assert Words([QUOTE_1] + b, InSingle, Some(sofar)) == Words(b, Plain, Some(sofar));
    assert Words(b, Plain, Some(sofar)) == Words(c, InDouble, Some(sofar));
    assert Words(c, InDouble, Some(sofar)) == Words(d, InDouble, Some(sofar + [QUOTE_1]));
    assert Words(d, InDouble, Some(sofar + [QUOTE_1])) == Words(e, Plain, Some(sofar + [QUOTE_1]));
  }

  /** A quoted text reads back as itself: at the end, or before a space. */
  lemma {:induction false} QuotedReads(t: Text, rest: Text)
    ensures SplitWords(ShellQuote(t)) == Some([t])
    ensures SplitWords(ShellQuote(t) + [SPACE] + rest)
      == if SplitWords(rest).None? then None else Some([t] + SplitWords(rest).value)
  {
    var end, more := [QUOTE_1], [QUOTE_1] + ([SPACE] + rest);
    EscapedReads(t, [], end);
    EscapedReads(t, [], more);
    assert [] + t == t;
    var s, q := ShellQuote(t), ShellQuote(t) + [SPACE] + rest;
    assert s[1..] == Escaped(t) + end && q[1..] == Escaped(t) + more && q[0] == QUOTE_1;
    assert end[1..] == [] && more[1..] == [SPACE] + rest && ([SPACE] + rest)[1..] == rest;
    assert Words(end, InSingle, Some(t)) == Words([], Plain, Some(t));
    assert Words(more, InSingle, Some(t)) == Words([SPACE] + rest, Plain, Some(t));
  }

  lemma {:induction false} FlagsAreOrdinary()
    ensures AllOrdinary(SIMFILE) && AllOrdinary(RECOVER) && AllOrdinary(JOURNAL_FLAG)
    ensures AllOrdinary(RUN_FLAG) && AllOrdinary(AUTHORITY_FLAG)
  {
  }

  /** A shell splits the command into exactly its eight words, whatever the three values. */
  lemma {:induction false} CommandSplits(path: Text, runId: Text, digest: Text)
    ensures SplitWords(Command(path, runId, digest))
      == Some([Ascii("simfile"), Ascii("recover"), Ascii("--journal"), path, Ascii("--run-id"), runId,
               Ascii("--authority-digest"), digest])
  {
    hide SplitWords, ShellQuote, AllOrdinary;
    FlagsAreOrdinary();
    var w6 := AUTHORITY_FLAG + [SPACE] + ShellQuote(digest);
    var w5 := ShellQuote(runId) + [SPACE] + w6;
    var w4 := RUN_FLAG + [SPACE] + w5;
    var w3 := ShellQuote(path) + [SPACE] + w4;
    var w2 := JOURNAL_FLAG + [SPACE] + w3;
    var w1 := RECOVER + [SPACE] + w2;
    QuotedReads(digest, []);
    PlainThenSpace(AUTHORITY_FLAG, ShellQuote(digest));
    QuotedReads(runId, w6);
    PlainThenSpace(RUN_FLAG, w5);
    QuotedReads(path, w4);
    PlainThenSpace(JOURNAL_FLAG, w3);
    PlainThenSpace(RECOVER, w2);
    PlainThenSpace(SIMFILE, w1);
    Eight(SIMFILE, RECOVER, JOURNAL_FLAG, path, RUN_FLAG, runId, AUTHORITY_FLAG, digest);
    WordsSpelled();
  }

  lemma {:induction false} WordsSpelled()
    ensures SIMFILE == Ascii("simfile") && RECOVER == Ascii("recover") && JOURNAL_FLAG == Ascii("--journal")
    ensures RUN_FLAG == Ascii("--run-id") && AUTHORITY_FLAG == Ascii("--authority-digest")
    ensures SHA256_PREFIX == Ascii("sha256:")
  {
  }

  lemma {:induction false} Eight(a: Text, b: Text, c: Text, d: Text, e: Text, f: Text, g: Text, h: Text)
    ensures [a] + ([b] + ([c] + ([d] + ([e] + ([f] + ([g] + [h])))))) == [a, b, c, d, e, f, g, h]
  {
  }

  /** Printing the recovery command and reading it back as a shell and the command line do returns the
      same three values, if they have their formats, and is refused otherwise. */
  lemma {:induction false} RecoveryRoundTrip(path: Text, runId: Text, digest: Text)
    ensures ReadCommand(Command(path, runId, digest)) ==
      if NormalPath(path) && RunIdText(runId) && DigestText(digest) then Some(Arguments(digest, path, runId)) else None
  {
    hide SplitWords, Command, NormalPath, RunIdText, DigestText;
    CommandSplits(path, runId, digest);
    WordsSpelled();
    var words := [SIMFILE, RECOVER, JOURNAL_FLAG, path, RUN_FLAG, runId, AUTHORITY_FLAG, digest];
    assert words[2..] == [JOURNAL_FLAG, path, RUN_FLAG, runId, AUTHORITY_FLAG, digest];
  }

  // ---- how long it is ----------------------------------------------------------------------------------

  function Quotes(t: Text): nat {
    if t == [] then 0 else (if t[0] == QUOTE_1 then 1 else 0) + Quotes(t[1..])
  }

  lemma {:induction false} EscapedLength(t: Text)
    ensures |Escaped(t)| == |t| + 4 * Quotes(t)
  {
    if t != [] { EscapedLength(t[1..]); }
  }

  lemma {:induction false} NoQuotes(t: Text)
    requires forall i :: 0 <= i < |t| ==> t[i] != QUOTE_1
    ensures Quotes(t) == 0
  {
    if t != [] { NoQuotes(t[1..]); }
  }

  /** The command fits the schema exactly while the path is short enough, each of its single
      quotes counting five times. */
  lemma {:induction false} CommandFitsExactly(path: Text, runId: Text, digest: Text)
    requires RunIdText(runId) && DigestText(digest)
    ensures |Command(path, runId, digest)| == 133 + |path| + 4 * Quotes(path) + |runId|
    ensures |Command(path, runId, digest)| <= MAX_COMMAND <==> |path| + 4 * Quotes(path) + |runId| <= 8059
  {
    EscapedLength(path);
    EscapedLength(runId);
    EscapedLength(digest);
    NoQuotes(runId);
    DigestHasNoQuotes(digest);
    hide Escaped, Quotes, RunIdText, DigestText;
  }

  lemma {:induction false} DigestHasNoQuotes(t: Text)
    requires DigestText(t)
    ensures Quotes(t) == 0
  {
    forall i | 0 <= i < |t| ensures t[i] != QUOTE_1 {
      if i < 7 { assert t[i] == t[..7][i]; }
    }
    NoQuotes(t);
  }

  /** A path of quotes, well within the limit on paths, whose recovery command does not fit: a
      run over it cannot be marked recoverable. */
  lemma {:induction false} QuotedPathDoesNotFit(runId: Text, digest: Text)
    requires RunIdText(runId) && DigestText(digest)
    ensures
      var path := [SLASH] + seq(2000, _ => QUOTE_1);
      NormalPath(path) && |path| <= 4096 && |Command(path, runId, digest)| > MAX_COMMAND
  {
    hide RunIdText, DigestText;
    var quotes: Text := seq(2000, _ => QUOTE_1);
    var path := [SLASH] + quotes;
    assert path[1..] == quotes;
    OnlyQuotes(quotes);
    assert Parts(path) == [[], quotes];
    assert quotes[0] == QUOTE_1;
    CommandFitsExactly(path, runId, digest);
  }

  lemma {:induction false} OnlyQuotes(t: Text)
    requires forall i :: 0 <= i < |t| ==> t[i] == QUOTE_1
    ensures Parts(t) == [t] && Quotes(t) == |t|
  {
    if t != [] {
      OnlyQuotes(t[1..]);
      assert [t[0]] + t[1..] == t;
    }
  }

  /** Without a quote in it a text is only put between two. */
  lemma {:induction false} QuoteFree(t: Text)
    requires forall i :: 0 <= i < |t| ==> t[i] != QUOTE_1
    ensures ShellQuote(t) == [QUOTE_1] + t + [QUOTE_1] && Escaped(t) == t
  {
    if t != [] { QuoteFree(t[1..]); }
  }

  /** The command of a path that the schema admits fits when no quote is in it. */
  lemma {:induction false} QuoteFreeFits(path: Text, runId: Text, digest: Text)
    requires |path| <= 4096 && RunIdText(runId) && DigestText(digest)
    requires forall i :: 0 <= i < |path| ==> path[i] != QUOTE_1
    ensures |Command(path, runId, digest)| <= MAX_COMMAND
  {
    hide Command, DigestText;
    NoQuotes(path);
    CommandFitsExactly(path, runId, digest);
  }

  /** The command with a path as it is, and what is around it. */
  lemma {:induction false} AroundPath(path: Text, runId: Text, digest: Text) returns (before: Text, after: Text)
    requires ShellQuote(path) == [QUOTE_1] + path + [QUOTE_1]
    ensures Command(path, runId, digest) == before + path + after
  {
    hide ShellQuote;
    var tail := RUN_FLAG + [SPACE] + (ShellQuote(runId) + [SPACE] + (AUTHORITY_FLAG + [SPACE] + ShellQuote(digest)));
    before := SIMFILE + [SPACE] + (RECOVER + [SPACE] + (JOURNAL_FLAG + [SPACE] + [QUOTE_1]));
    after := [QUOTE_1] + ([SPACE] + tail);
    var quoted := ShellQuote(path) + [SPACE] + tail;
    assert quoted == [QUOTE_1] + (path + after);
  }
}
