/**
  The speech-recognition hook: the clean-up applied to every recognised
  phrase, the choice among a result's alternatives, the accumulation of final
  and interim text, and the flags that decide whether the engine is restarted
  after it stops or fails. The recognition engine itself is outside the
  model: its events are method calls and the outcome of each `start()` call
  is a parameter.
 */
module SpeechRecognition {
  import opened Optional
  import opened Strings

  // ---------------------------------------------------------------------
  // Post-processing of a transcript
  // ---------------------------------------------------------------------

  /** The correction table as (wrong, right) pairs, in declaration order. */
  const Corrections: seq<(string, string)> := [
    ("Jay script", "JavaScript"),
    ("javascript", "JavaScript"),
    ("react", "React"),
    ("node", "Node"),
    ("G I T", "Git"),
    ("get", "Git"),
    ("github", "GitHub"),
    ("CS S", "CSS"),
    ("H T M L", "HTML"),
    ("their", "there"),
    ("too", "to"),
    ("its", "it's")
  ]

  /** `\b` at position `p`: exactly one of the characters either side of `p` is a word character. */
  predicate IsBoundary(s: string, p: nat)
    requires p <= |s|
  {
    (p > 0 && IsWordChar(s[p - 1])) != (p < |s| && IsWordChar(s[p]))
  }

  /** `/\bw\b/i` matches `s` at `p`: the text compared case-insensitively, with a word boundary at each end. */
  predicate MatchesAt(s: string, p: nat, w: string) {
    && p + |w| <= |s|
    && (forall j :: 0 <= j < |w| ==> LowerChar(s[p + j]) == LowerChar(w[j]))
    && IsBoundary(s, p) && IsBoundary(s, p + |w|)
  }

  /**
    `s.replace(/\bw\b/gi, r)` from position `p` on: the leftmost match is
    replaced, the search resumes after it, and every other character is kept.
    Boundaries are judged on the original string.
   */
  function ReplaceFrom(s: string, w: string, r: string, p: nat): string
    requires |w| > 0 && p <= |s|
    decreases |s| - p
  {
    if p == |s| then []
    else if MatchesAt(s, p, w) then r + ReplaceFrom(s, w, r, p + |w|)
    else [s[p]] + ReplaceFrom(s, w, r, p + 1)
  }

  function ReplaceAll(s: string, w: string, r: string): string
    requires |w| > 0
  {
    ReplaceFrom(s, w, r, 0)
  }

  predicate WellFormedTable(table: seq<(string, string)>) {
    forall i :: 0 <= i < |table| ==> |table[i].0| > 0
  }

  /** The `forEach` over the table: each correction applied, in order, to the result of the previous ones. */
  function ApplyCorrections(text: string, table: seq<(string, string)>): string
    requires WellFormedTable(table)
  {
    if table == [] then text
    else
      var n := |table| - 1;
      ReplaceAll(ApplyCorrections(text, table[..n]), table[n].0, table[n].1)
  }

  /** The first character upper-cased. */
  function Capitalise(s: string): (r: string)
    ensures |r| == |s|
  {
    if |s| > 0 then [UpperChar(s[0])] + s[1..] else s
  }

  predicate IsPunct(c: char) {
    c == '.' || c == ',' || c == '!' || c == '?'
  }

  /** Length of the run of `\s` at the head of `s`. */
  function SpaceRun(s: string): (n: nat)
    ensures n <= |s|
    ensures forall i :: 0 <= i < n ==> IsSpace(s[i])
    ensures n < |s| ==> !IsSpace(s[n])
  {
    if s != [] && IsSpace(s[0]) then 1 + SpaceRun(s[1..]) else 0
  }

  /** `s.replace(/\s+([.,!?])/g, '$1')`: every run of `\s` that ends at a punctuation mark is deleted. */
  function StripSpaceBeforePunct(s: string): string
    decreases |s|
  {
    if s == [] then []
    else
      var n := SpaceRun(s);
      if 0 < n < |s| && IsPunct(s[n]) then [s[n]] + StripSpaceBeforePunct(s[n + 1..])
      else [s[0]] + StripSpaceBeforePunct(s[1..])
  }

  /** `s.replace(/([.,!?])(\w)/g, '$1 $2')`: a space is put between a punctuation mark and a word character after it. */
  function SpaceAfterPunct(s: string): string
    decreases |s|
  {
    if s == [] then []
    else if |s| >= 2 && IsPunct(s[0]) && IsWordChar(s[1]) then [s[0], ' ', s[1]] + SpaceAfterPunct(s[2..])
    else [s[0]] + SpaceAfterPunct(s[1..])
  }

  /** `postProcessTranscript(text)`, as a value. */
  function PostProcessed(text: string): string {
    SpaceAfterPunct(StripSpaceBeforePunct(Capitalise(ApplyCorrections(text, Corrections))))
  }

  /**
    `postProcessTranscript`: the corrections applied one after the other in
    table order, then the first letter capitalised, then the spacing around
    punctuation fixed.
   */
  method PostProcessTranscript(text: string) returns (processed: string)
    ensures processed == PostProcessed(text)
  {
    processed := text;
    for i := 0 to |Corrections|
      invariant processed == ApplyCorrections(text, Corrections[..i])
    {
      assert Corrections[..i + 1][..i] == Corrections[..i];
      processed := ReplaceAll(processed, Corrections[i].0, Corrections[i].1);
    }
    assert Corrections[..|Corrections|] == Corrections;
    if |processed| > 0 {
      processed := [UpperChar(processed[0])] + processed[1..];
    }
    processed := StripSpaceBeforePunct(processed);
    processed := SpaceAfterPunct(processed);
  }

  predicate NoSpaceBeforePunct(s: string) {
    forall i :: 0 <= i < |s| - 1 ==> !(IsSpace(s[i]) && IsPunct(s[i + 1]))
  }

  predicate NoWordAfterPunct(s: string) {
    forall i :: 0 <= i < |s| - 1 ==> !(IsPunct(s[i]) && IsWordChar(s[i + 1]))
  }

  /** What the first character of the stripped text is. */
  lemma StripHead(s: string)
    requires s != []
    ensures var n := SpaceRun(s);
      StripSpaceBeforePunct(s)[0] == if 0 < n < |s| && IsPunct(s[n]) then s[n] else s[0]
  {
  }

  /** After the first spacing fix no `\s` stands directly before a punctuation mark. */
  lemma {:induction false} StripLeavesNoSpaceBeforePunct(s: string)
    ensures NoSpaceBeforePunct(StripSpaceBeforePunct(s))
    decreases |s|
  {
    if s != [] {
      var n := SpaceRun(s);
      var r := StripSpaceBeforePunct(s);
      if 0 < n < |s| && IsPunct(s[n]) {
        StripLeavesNoSpaceBeforePunct(s[n + 1..]);
      } else {
        var rest := s[1..];
        StripLeavesNoSpaceBeforePunct(rest);
        if rest != [] && IsSpace(s[0]) {
          StripHead(rest);
          assert SpaceRun(s) == 1 + SpaceRun(rest);
          assert !IsPunct(StripSpaceBeforePunct(rest)[0]);
        }
        assert forall i :: 1 <= i < |r| ==> r[i] == StripSpaceBeforePunct(rest)[i - 1];
      }
    }
  }

  lemma SpaceAfterPunctHead(s: string)
    requires s != []
    ensures SpaceAfterPunct(s) != [] && SpaceAfterPunct(s)[0] == s[0]
  {
  }

  lemma NoSpaceBeforePunctSuffix(s: string, k: nat)
    requires k <= |s| && NoSpaceBeforePunct(s)
    ensures NoSpaceBeforePunct(s[k..])
  {
    forall i | 0 <= i < |s[k..]| - 1 ensures !(IsSpace(s[k..][i]) && IsPunct(s[k..][i + 1])) {
      assert s[k..][i] == s[k + i] && s[k..][i + 1] == s[k + i + 1];
    }
  }

  /** A punctuation mark and the word character after it are split by a space. */
  lemma SpaceAfterPunctSplitStep(s: string)
    requires |s| >= 2 && IsPunct(s[0]) && IsWordChar(s[1])
    requires NoWordAfterPunct(SpaceAfterPunct(s[2..]))
    requires NoSpaceBeforePunct(s[2..]) ==> NoSpaceBeforePunct(SpaceAfterPunct(s[2..]))
    ensures NoWordAfterPunct(SpaceAfterPunct(s))
    ensures NoSpaceBeforePunct(s) ==> NoSpaceBeforePunct(SpaceAfterPunct(s))
  {
    var t := SpaceAfterPunct(s[2..]);
    var r := SpaceAfterPunct(s);
    assert r == [s[0], ' ', s[1]] + t;
    if |s| > 2 {
      SpaceAfterPunctHead(s[2..]);
      assert r[3] == s[2];
    }
    forall i | 0 <= i < |r| - 1 ensures !(IsPunct(r[i]) && IsWordChar(r[i + 1])) {
      if i > 2 { assert r[i] == t[i - 3] && r[i + 1] == t[i - 2]; }
    }
    if NoSpaceBeforePunct(s) {
      NoSpaceBeforePunctSuffix(s, 2);
      forall i | 0 <= i < |r| - 1 ensures !(IsSpace(r[i]) && IsPunct(r[i + 1])) {
        if i > 2 { assert r[i] == t[i - 3] && r[i + 1] == t[i - 2]; }
      }
    }
  }

  /** Any other character is kept as it is. */
  lemma SpaceAfterPunctKeepStep(s: string)
    requires s != [] && !(|s| >= 2 && IsPunct(s[0]) && IsWordChar(s[1]))
    requires NoWordAfterPunct(SpaceAfterPunct(s[1..]))
    requires NoSpaceBeforePunct(s[1..]) ==> NoSpaceBeforePunct(SpaceAfterPunct(s[1..]))
    ensures NoWordAfterPunct(SpaceAfterPunct(s))
    ensures NoSpaceBeforePunct(s) ==> NoSpaceBeforePunct(SpaceAfterPunct(s))
  {
    var t := SpaceAfterPunct(s[1..]);
    var r := SpaceAfterPunct(s);
    assert r == [s[0]] + t;
    if |s| > 1 {
      SpaceAfterPunctHead(s[1..]);
      assert r[1] == s[1];
    }
    forall i | 0 <= i < |r| - 1 ensures !(IsPunct(r[i]) && IsWordChar(r[i + 1])) {
      if i > 0 { assert r[i] == t[i - 1] && r[i + 1] == t[i]; }
    }
    if NoSpaceBeforePunct(s) {
      NoSpaceBeforePunctSuffix(s, 1);
      forall i | 0 <= i < |r| - 1 ensures !(IsSpace(r[i]) && IsPunct(r[i + 1])) {
        if i > 0 { assert r[i] == t[i - 1] && r[i + 1] == t[i]; }
      }
    }
  }

  /**
    The second spacing fix leaves no punctuation mark directly before a word
    character, and does not undo the first one.
   */
  lemma {:induction false} SpaceAfterPunctFixes(s: string)
    ensures NoWordAfterPunct(SpaceAfterPunct(s))
    ensures NoSpaceBeforePunct(s) ==> NoSpaceBeforePunct(SpaceAfterPunct(s))
    decreases |s|
  {
    if s != [] {
      if |s| >= 2 && IsPunct(s[0]) && IsWordChar(s[1]) {
        SpaceAfterPunctFixes(s[2..]);
        SpaceAfterPunctSplitStep(s);
      } else {
        SpaceAfterPunctFixes(s[1..]);
        SpaceAfterPunctKeepStep(s);
      }
    }
  }

  /**
    Whatever was recognised, the cleaned text has no `\s` directly before
    `.`, `,`, `!` or `?`, and no such mark directly followed by a word character.
   */
  lemma PostProcessedPunctuation(text: string)
    ensures NoSpaceBeforePunct(PostProcessed(text))
    ensures NoWordAfterPunct(PostProcessed(text))
  {
    var stripped := StripSpaceBeforePunct(Capitalise(ApplyCorrections(text, Corrections)));
    StripLeavesNoSpaceBeforePunct(Capitalise(ApplyCorrections(text, Corrections)));
    SpaceAfterPunctFixes(stripped);
  }

  lemma {:induction false} ApplyCorrectionsEmpty(table: seq<(string, string)>)
    requires WellFormedTable(table)
    ensures ApplyCorrections("", table) == ""
  {
    if table != [] {
      ApplyCorrectionsEmpty(table[..|table| - 1]);
    }
  }

  /** An empty transcript stays empty. */
  lemma PostProcessedEmpty()
    ensures PostProcessed("") == ""
  {
    ApplyCorrectionsEmpty(Corrections);
  }

  /** Where the pattern never matches, the replacement leaves the text as it is. */
  lemma {:induction false} ReplaceWithoutMatch(s: string, w: string, r: string, p: nat)
    requires |w| > 0 && p <= |s|
    requires forall q :: p <= q < |s| ==> !MatchesAt(s, q, w)
    ensures ReplaceFrom(s, w, r, p) == s[p..]
    decreases |s| - p
  {
    if p < |s| {
      ReplaceWithoutMatch(s, w, r, p + 1);
    }
  }

  lemma LowerConcat(a: string, b: string)
    ensures Lower(a + b) == Lower(a) + Lower(b)
  {
  }

  lemma SplitAt<T>(t: seq<T>, p: nat, q: nat)
    requires p <= q <= |t|
    ensures t[p..] == t[p..q] + t[q..]
  {
  }

  /** Where the pattern matches, the text there lower-cases to the lower-cased pattern. */
  lemma LowerAtMatch(s: string, p: nat, w: string)
    requires MatchesAt(s, p, w)
    ensures Lower(s)[p..] == Lower(w) + Lower(s)[p + |w|..]
  {
    assert Lower(s)[p..p + |w|] == Lower(w);
    SplitAt(Lower(s), p, p + |w|);
  }

  lemma CaseOnlyAtMatch(s: string, w: string, r: string, p: nat)
    requires |w| > 0 && p <= |s| && Lower(w) == Lower(r) && MatchesAt(s, p, w)
    requires Lower(ReplaceFrom(s, w, r, p + |w|)) == Lower(s)[p + |w|..]
    ensures Lower(ReplaceFrom(s, w, r, p)) == Lower(s)[p..]
  {
    LowerConcat(r, ReplaceFrom(s, w, r, p + |w|));
    LowerAtMatch(s, p, w);
  }

  lemma CaseOnlyElsewhere(s: string, w: string, r: string, p: nat)
    requires |w| > 0 && p < |s| && !MatchesAt(s, p, w)
    requires Lower(ReplaceFrom(s, w, r, p + 1)) == Lower(s)[p + 1..]
    ensures Lower(ReplaceFrom(s, w, r, p)) == Lower(s)[p..]
  {
    LowerConcat([s[p]], ReplaceFrom(s, w, r, p + 1));
    SplitAt(Lower(s), p, p + 1);
    assert Lower(s)[p..p + 1] == Lower([s[p]]);
  }

  /**
    A correction that only changes letter case (`javascript`, `react`,
    `node`, `github`) leaves the lower-cased text unchanged, from any
    position on.
   */
  lemma {:induction false} CaseOnlyReplacement(s: string, w: string, r: string, p: nat)
    requires |w| > 0 && p <= |s|
    requires Lower(w) == Lower(r)
    ensures Lower(ReplaceFrom(s, w, r, p)) == Lower(s)[p..]
    decreases |s| - p
  {
    if p < |s| {
      if MatchesAt(s, p, w) {
        CaseOnlyReplacement(s, w, r, p + |w|);
        CaseOnlyAtMatch(s, w, r, p);
      } else {
        CaseOnlyReplacement(s, w, r, p + 1);
        CaseOnlyElsewhere(s, w, r, p);
      }
    }
  }

  /** The whole text: a case-only correction never changes the lower-cased text. */
  lemma CaseOnlyCorrection(s: string, w: string, r: string)
    requires |w| > 0 && Lower(w) == Lower(r)
    ensures Lower(ReplaceAll(s, w, r)) == Lower(s)
  {
    CaseOnlyReplacement(s, w, r, 0);
  }

  // ---------------------------------------------------------------------
  // Choosing among alternatives and accumulating the transcript
  // ---------------------------------------------------------------------

  /** One recognition alternative; the engine may leave its confidence out. */
  datatype Alternative = Alternative(transcript: string, confidence: Option<real>)

  /** `alt.confidence || 0` */
  function Confidence(a: Alternative): real {
    if a.confidence.Some? then a.confidence.value else 0.0
  }

  /** The engine delivers every result with at least one alternative. */
  type Alternatives = alts: seq<Alternative> | |alts| > 0 witness [Alternative("", None)]

  /** One entry of the event's result list: its alternatives and whether it is final. */
  datatype RecognitionResult = RecognitionResult(alternatives: Alternatives, isFinal: bool)

  /** Alternative `k` has the highest confidence and every earlier one a strictly lower confidence. */
  predicate IsFirstMaximal(alts: seq<Alternative>, k: nat) {
    && k < |alts|
    && (forall j :: 0 <= j < |alts| ==> Confidence(alts[j]) <= Confidence(alts[k]))
    && (forall j :: 0 <= j < k ==> Confidence(alts[j]) < Confidence(alts[k]))
  }

  /** The alternative the scan keeps: a later one replaces the best so far only when strictly more confident. */
  function BestAlternative(alts: seq<Alternative>): (k: nat)
    requires |alts| > 0
    ensures k < |alts|
  {
    if |alts| == 1 then 0
    else
      var k := BestAlternative(alts[..|alts| - 1]);
      if Confidence(alts[|alts| - 1]) > Confidence(alts[k]) then |alts| - 1 else k
  }

  /** The scan keeps the first alternative of maximal confidence; ties go to the earlier one. */
  lemma {:induction false} BestAlternativeIsFirstMaximal(alts: seq<Alternative>)
    requires |alts| > 0
    ensures IsFirstMaximal(alts, BestAlternative(alts))
  {
    if |alts| > 1 {
      var init := alts[..|alts| - 1];
      BestAlternativeIsFirstMaximal(init);
      assert forall j :: 0 <= j < |init| ==> init[j] == alts[j];
    }
  }

  /** There is only one first maximal alternative. */
  lemma FirstMaximalUnique(alts: seq<Alternative>, k: nat, k': nat)
    requires IsFirstMaximal(alts, k) && IsFirstMaximal(alts, k')
    ensures k == k'
  {
    assert Confidence(alts[k]) == Confidence(alts[k']);
  }

  /** The alternative loop of `onresult`: the best transcript and its confidence. */
  method SelectBestAlternative(alts: seq<Alternative>) returns (best: nat, transcript: string, confidence: real)
    requires |alts| > 0
    ensures best == BestAlternative(alts) && IsFirstMaximal(alts, best)
    ensures transcript == alts[best].transcript && confidence == Confidence(alts[best])
  {
    best := 0;
    transcript := alts[0].transcript;
    confidence := Confidence(alts[0]);
    for j := 1 to |alts|
      invariant best == BestAlternative(alts[..j])
      invariant transcript == alts[best].transcript && confidence == Confidence(alts[best])
    {
      assert alts[..j + 1][..j] == alts[..j];
      var conf := Confidence(alts[j]);
      if conf > confidence {
        best := j;
        transcript := alts[j].transcript;
        confidence := conf;
      }
    }
    assert alts[..|alts|] == alts;
    BestAlternativeIsFirstMaximal(alts);
  }

  /** The cleaned text of a result's best alternative. */
  function Heard(r: RecognitionResult): string {
    PostProcessed(r.alternatives[BestAlternative(r.alternatives)].transcript)
  }

  /** A space is needed before new final text exactly when the text so far is non-empty and does not end in a space. */
  predicate NeedsSpace(acc: string) {
    |acc| > 0 && acc[|acc| - 1] != ' '
  }

  /** A final result appended to the accumulated final text. */
  function AppendFinal(acc: string, cleaned: string): (r: string)
    ensures |r| == |acc| + |cleaned| + (if NeedsSpace(acc) then 1 else 0)
  {
    acc + (if NeedsSpace(acc) then " " else "") + cleaned
  }

  /** The text shown: final text, a space only when both parts are non-empty, then the interim text. */
  function Combined(final: string, interim: string): (r: string)
    ensures |r| == |final| + |interim| + (if final != [] && interim != [] then 1 else 0)
  {
    final + (if interim != [] && final != [] then " " else "") + interim
  }

  /** Appending keeps the text so far at the head and the new text at the tail. */
  lemma AppendFinalKeepsBoth(acc: string, cleaned: string)
    ensures var r := AppendFinal(acc, cleaned);
      r[..|acc|] == acc && r[|r| - |cleaned|..] == cleaned
  {
  }

  /** The shown text starts with the final text and ends with the interim text. */
  lemma CombinedKeepsBoth(final: string, interim: string)
    ensures var r := Combined(final, interim);
      r[..|final|] == final && r[|r| - |interim|..] == interim
  {
  }

  /** The final text after the results `rs` have been taken in order. */
  function FinalAfter(final: string, rs: seq<RecognitionResult>): string
  {
    if rs == [] then final
    else
      var n := |rs| - 1;
      var f := FinalAfter(final, rs[..n]);
      if rs[n].isFinal then AppendFinal(f, Heard(rs[n])) else f
  }

  /** The interim text of the results `rs`: their cleaned texts run together. */
  function InterimOf(rs: seq<RecognitionResult>): string
  {
    if rs == [] then ""
    else
      var n := |rs| - 1;
      InterimOf(rs[..n]) + (if rs[n].isFinal then "" else Heard(rs[n]))
  }

  /**
    One pass of `onresult`'s loop: the best alternative is chosen and cleaned;
    a final result's text is appended to the final text, with a space when
    needed, an interim result's text to the interim text.
   */
  method TakeResult(final: string, interim: string, result: RecognitionResult) returns (newFinal: string, newInterim: string)
    ensures newFinal == if result.isFinal then AppendFinal(final, Heard(result)) else final
    ensures newInterim == interim + (if result.isFinal then "" else Heard(result))
  {
    var best, bestTranscript, bestConfidence := SelectBestAlternative(result.alternatives);
    var cleaned := PostProcessTranscript(bestTranscript);
    newFinal, newInterim := final, interim;
    if result.isFinal {
      var needsSpace := |final| > 0 && final[|final| - 1] != ' ';
      newFinal := final + (if needsSpace then " " else "") + cleaned;
    } else {
      newInterim := interim + cleaned;
    }
  }

  /**
    The loop of `onresult` over the results from `event.resultIndex` on,
    taken in order: final ones appended to `final`, interim ones collected.
   */
  method TakeResults(final: string, rs: seq<RecognitionResult>) returns (newFinal: string, interim: string)
    ensures newFinal == FinalAfter(final, rs)
    ensures interim == InterimOf(rs)
  {
    newFinal, interim := final, "";
    for i := 0 to |rs|
      invariant newFinal == FinalAfter(final, rs[..i])
      invariant interim == InterimOf(rs[..i])
    {
      TakeOneMore(final, rs, i);
      newFinal, interim := TakeResult(newFinal, interim, rs[i]);
    }
    assert rs[..|rs|] == rs;
  }

  /** Taking in one more result of the event's list. */
  lemma TakeOneMore(final: string, rs: seq<RecognitionResult>, i: nat)
    requires i < |rs|
    ensures FinalAfter(final, rs[..i + 1]) ==
      if rs[i].isFinal then AppendFinal(FinalAfter(final, rs[..i]), Heard(rs[i]))
      else FinalAfter(final, rs[..i])
    ensures InterimOf(rs[..i + 1]) == InterimOf(rs[..i]) + (if rs[i].isFinal then "" else Heard(rs[i]))
  {
    assert rs[..i + 1][..i] == rs[..i];
  }

  /** Interim results never change the final text. */
  lemma {:induction false} InterimKeepsFinal(final: string, rs: seq<RecognitionResult>)
    requires forall i :: 0 <= i < |rs| ==> !rs[i].isFinal
    ensures FinalAfter(final, rs) == final
  {
    if rs != [] {
      InterimKeepsFinal(final, rs[..|rs| - 1]);
    }
  }

  /** The final text only grows: what was final stays at its head. */
  lemma {:induction false} FinalGrows(final: string, rs: seq<RecognitionResult>)
    ensures |final| <= |FinalAfter(final, rs)| && FinalAfter(final, rs)[..|final|] == final
  {
    if rs != [] {
      var n := |rs| - 1;
      FinalGrows(final, rs[..n]);
      var f := FinalAfter(final, rs[..n]);
      if rs[n].isFinal {
        var g := AppendFinal(f, Heard(rs[n]));
        AppendFinalKeepsBoth(f, Heard(rs[n]));
        assert g[..|final|] == g[..|f|][..|final|];
      }
    }
  }

  // ---------------------------------------------------------------------
  // The hook's state and its event handlers
  // ---------------------------------------------------------------------

  /** The messages the hook shows; `MessageText` gives their wording. */
  datatype ErrorMessage =
    | NotSupported | NotSupportedShort | MicrophoneDenied | NoSpeechDetected | NoMicrophone
    | NetworkError | EngineError(code: string) | StartFailed | StoppedUnexpectedly

  function MessageText(m: ErrorMessage): string {
    match m
    case NotSupported => "Speech recognition is not supported in your browser. Please use Chrome, Edge, or Safari."
    case NotSupportedShort => "Speech recognition is not supported in your browser."
    case MicrophoneDenied => "Microphone permission denied. Please allow microphone access in your browser settings."
    case NoSpeechDetected => "No speech detected. Please try speaking."
    case NoMicrophone => "No microphone found. Please connect a microphone and try again."
    case NetworkError => "Network error. Speech recognition requires an internet connection."
    case EngineError(code) => "Speech recognition error: " + code
    case StartFailed => "Failed to start speech recognition. Please try again."
    case StoppedUnexpectedly => "Speech recognition stopped unexpectedly. Please try again."
  }

  /** The engine's error codes as the `switch` in `onerror` tells them apart. */
  datatype ErrorKind = NotAllowed | PermissionDenied | NoSpeech | AudioCapture | Network | Aborted | OtherError

  function Classify(code: string): ErrorKind {
    if code == "not-allowed" then NotAllowed
    else if code == "permission-denied" then PermissionDenied
    else if code == "no-speech" then NoSpeech
    else if code == "audio-capture" then AudioCapture
    else if code == "network" then Network
    else if code == "aborted" then Aborted
    else OtherError
  }

  /** The errors after which the hook gives up listening. */
  predicate IsFatal(k: ErrorKind) {
    k == NotAllowed || k == PermissionDenied || k == AudioCapture
  }

  /** The message `onerror` sets for an error it reports. */
  function ErrorMessageFor(k: ErrorKind, code: string): ErrorMessage {
    match k
    case NotAllowed => MicrophoneDenied
    case PermissionDenied => MicrophoneDenied
    case NoSpeech => NoSpeechDetected
    case AudioCapture => NoMicrophone
    case Network => NetworkError
    case Aborted => EngineError(code)
    case OtherError => EngineError(code)
  }

  /** Which handler scheduled a pending restart: `onerror` (after 500 ms) or `onend` (after 100 ms). */
  datatype RestartTimer = AfterError | AfterEnd

  /** How a call to the engine's `start()` turned out. */
  datatype StartOutcome = Started | InvalidState | OtherFailure

  class Recognizer {
    var transcript: string
    var isListening: bool
    /** Whether the browser offers recognition; decided once, when the hook mounts. */
    const isSupported: bool
    var error: Option<ErrorMessage>
    var shouldRestart: bool
    var finalTranscript: string
    /** The user-agent test, decided once, when the hook mounts. */
    const isMobile: bool
    /** Restart timers that have been scheduled and have not yet run. */
    var pending: seq<RestartTimer>

    /**
      The final text is always the head of the shown transcript, and without
      an engine nothing listens, restarts or waits to restart.
     */
    ghost predicate Valid()
      reads this
    {
      && |finalTranscript| <= |transcript| && transcript[..|finalTranscript|] == finalTranscript
      && (!isSupported ==> !isListening && !shouldRestart && pending == [])
    }

    /** The hook after its mount effect has run. */
    constructor (supported: bool, mobile: bool)
      ensures Valid()
      ensures isSupported == supported && isMobile == mobile
      ensures transcript == "" && finalTranscript == "" && !isListening && !shouldRestart && pending == []
      ensures error == (if supported then None else Some(NotSupported))
    {
      transcript := "";
      isListening := false;
      isSupported := supported;
      error := if supported then None else Some(NotSupported);
      shouldRestart := false;
      finalTranscript := "";
      isMobile := mobile;
      pending := [];
    }

    /** `onstart` */
    method OnStart()
      requires Valid() && isSupported
      modifies this
      ensures Valid()
      ensures isListening && error == None
      ensures transcript == old(transcript) && finalTranscript == old(finalTranscript)
      ensures shouldRestart == old(shouldRestart) && pending == old(pending)
    {
      error := None;
      isListening := true;
    }

    /**
      `onresult`: the results from `resultIndex` on are taken in order; each
      one's best alternative is cleaned, final ones are appended to the final
      text and interim ones collected, and the shown transcript is rebuilt.
     */
    method OnResult(resultIndex: nat, results: seq<RecognitionResult>)
      requires Valid() && isSupported
      requires resultIndex <= |results|
      modifies this
      ensures Valid()
      ensures finalTranscript == FinalAfter(old(finalTranscript), results[resultIndex..])
      ensures transcript == Combined(finalTranscript, InterimOf(results[resultIndex..]))
      ensures isListening == old(isListening) && error == old(error)
      ensures shouldRestart == old(shouldRestart) && pending == old(pending)
    {
      var interim;
      finalTranscript, interim := TakeResults(finalTranscript, results[resultIndex..]);
      transcript := finalTranscript + (if interim != "" && finalTranscript != "" then " " else "") + interim;
    }

    /**
      `onerror`: permission and microphone errors stop listening for good;
      `aborted`, and `no-speech` on a mobile device, are ignored; any other
      error is reported and, while a restart is wanted, a restart is scheduled.
     */
    method OnError(code: string)
      requires Valid() && isSupported
      modifies this
      ensures Valid()
      ensures transcript == old(transcript) && finalTranscript == old(finalTranscript)
      ensures var k := Classify(code);
        if k == Aborted || (k == NoSpeech && isMobile) then
          && error == old(error) && isListening == old(isListening)
          && shouldRestart == old(shouldRestart) && pending == old(pending)
        else if IsFatal(k) then
          && error == Some(ErrorMessageFor(k, code)) && !isListening
          && !shouldRestart && pending == old(pending)
        else
          && error == Some(ErrorMessageFor(k, code)) && isListening == old(isListening)
          && shouldRestart == old(shouldRestart)
          && pending == old(pending) + (if old(shouldRestart) then [AfterError] else [])
    {
      var kind := Classify(code);
      var message: ErrorMessage;
      match kind {
        case NotAllowed =>
          message := MicrophoneDenied;
          shouldRestart := false;
          isListening := false;
        case PermissionDenied =>
          message := MicrophoneDenied;
          shouldRestart := false;
          isListening := false;
        case NoSpeech =>
          message := NoSpeechDetected;
          if isMobile {
            return;
          }
        case AudioCapture =>
          message := NoMicrophone;
          shouldRestart := false;
          isListening := false;
        case Network =>
          message := NetworkError;
        case Aborted =>
          return;
        case OtherError =>
          message := EngineError(code);
      }
      error := Some(message);
      if shouldRestart && !IsFatal(kind) {
        pending := pending + [AfterError];
      } else if IsFatal(kind) {
        isListening := false;
        shouldRestart := false;
      }
    }

    /** `onend`: while a restart is wanted one is scheduled, otherwise listening stops. */
    method OnEnd()
      requires Valid() && isSupported
      modifies this
      ensures Valid()
      ensures old(shouldRestart) ==> pending == old(pending) + [AfterEnd] && isListening == old(isListening)
      ensures !old(shouldRestart) ==> pending == old(pending) && !isListening
      ensures shouldRestart == old(shouldRestart) && error == old(error)
      ensures transcript == old(transcript) && finalTranscript == old(finalTranscript)
    {
      if shouldRestart {
        pending := pending + [AfterEnd];
      } else {
        isListening := false;
      }
    }

    /**
      The body of the restart timer at position `i`: it tries to restart the
      engine only if a restart is still wanted. A failed restart after an
      error stops listening; after an end, a failure other than "already
      started" also gives up restarting and reports it.
     */
    method FireRestart(i: nat, outcome: StartOutcome) returns (attempted: bool)
      requires Valid() && i < |pending|
      modifies this
      ensures Valid()
      ensures pending == old(pending[..i] + pending[i + 1..])
      ensures attempted == old(shouldRestart)
      ensures (!attempted || outcome == Started || (outcome == InvalidState && old(pending[i]) == AfterEnd)) ==>
          && isListening == old(isListening) && shouldRestart == old(shouldRestart) && error == old(error)
      ensures attempted && old(pending[i]) == AfterError && outcome != Started ==>
          && !isListening && shouldRestart == old(shouldRestart) && error == old(error)
      ensures attempted && old(pending[i]) == AfterEnd && outcome == OtherFailure ==>
          && !isListening && !shouldRestart && error == Some(StoppedUnexpectedly)
      ensures transcript == old(transcript) && finalTranscript == old(finalTranscript)
    {
      var timer := pending[i];
      pending := pending[..i] + pending[i + 1..];
      attempted := shouldRestart;
      if attempted {
        match outcome
        case Started =>
        case InvalidState =>
          if timer == AfterError {
            isListening := false;
          }
        case OtherFailure =>
          isListening := false;
          if timer == AfterEnd {
            shouldRestart := false;
            error := Some(StoppedUnexpectedly);
          }
      }
    }

    /**
      `startListening`: without an engine only an error is set; when already
      listening nothing happens; otherwise the text and error are cleared,
      restarts are wanted from now on, and the engine is started.
     */
    method StartListening(outcome: StartOutcome)
      requires Valid()
      modifies this
      ensures Valid()
      ensures !isSupported ==>
        && error == Some(NotSupportedShort) && transcript == old(transcript)
        && finalTranscript == old(finalTranscript) && shouldRestart == old(shouldRestart)
        && isListening == old(isListening)
      ensures isSupported && old(isListening) ==>
        && error == old(error) && transcript == old(transcript)
        && finalTranscript == old(finalTranscript) && shouldRestart == old(shouldRestart)
        && isListening
      ensures isSupported && !old(isListening) ==>
        && transcript == "" && finalTranscript == "" && shouldRestart
        && isListening == (outcome == InvalidState)
        && error == (if outcome == OtherFailure then Some(StartFailed) else None)
      ensures pending == old(pending)
    {
      if !isSupported {
        error := Some(NotSupportedShort);
        return;
      }
      if !isListening {
        finalTranscript := "";
        transcript := "";
        error := None;
        shouldRestart := true;
        match outcome
        case Started =>
        case InvalidState =>
          isListening := true;
        case OtherFailure =>
          error := Some(StartFailed);
      }
    }

    /** `stopListening`: while listening, restarts stop being wanted and listening ends. */
    method StopListening()
      requires Valid()
      modifies this
      ensures Valid()
      ensures old(isListening) ==> !shouldRestart && !isListening
      ensures !old(isListening) ==> shouldRestart == old(shouldRestart) && !isListening
      ensures error == old(error) && pending == old(pending)
      ensures transcript == old(transcript) && finalTranscript == old(finalTranscript)
    {
      if isSupported && isListening {
        shouldRestart := false;
        isListening := false;
      }
    }

    /** `resetTranscript` */
    method ResetTranscript()
      requires Valid()
      modifies this
      ensures Valid()
      ensures transcript == "" && finalTranscript == "" && error == None
      ensures isListening == old(isListening) && shouldRestart == old(shouldRestart) && pending == old(pending)
    {
      finalTranscript := "";
      transcript := "";
      error := None;
    }

    /** The effect's clean-up on unmount: restarts stop being wanted and the engine is aborted. */
    method Dispose()
      requires Valid()
      modifies this
      ensures Valid()
      ensures !shouldRestart
      ensures isListening == old(isListening) && error == old(error) && pending == old(pending)
      ensures transcript == old(transcript) && finalTranscript == old(finalTranscript)
    {
      shouldRestart := false;
    }
  }

  /**
    An explicit stop suppresses every restart already scheduled: once
    `stopListening` has run while listening, each pending timer fires without
    restarting the engine, whatever `start()` would have done.
   */
  method StopSuppressesRestarts(r: Recognizer, outcomes: seq<StartOutcome>) returns (restarts: nat)
    requires r.Valid() && r.isListening && |outcomes| == |r.pending|
    modifies r
    ensures r.Valid()
    ensures restarts == 0
    ensures r.pending == [] && !r.isListening && !r.shouldRestart
  {
    r.StopListening();
    restarts := 0;
    var k := 0;
    while r.pending != []
      invariant r.Valid() && !r.isListening && !r.shouldRestart
      invariant restarts == 0
      invariant k + |r.pending| == |outcomes|
      decreases |r.pending|
    {
      var attempted := r.FireRestart(0, outcomes[k]);
      restarts := restarts + (if attempted then 1 else 0);
      k := k + 1;
    }
  }
}
