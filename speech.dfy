/**
  The free text-to-speech hook: the voice it prefers, the chunks it cuts a
  long text into on iOS, and the flags its `stop`, `speak` and per-chunk
  callbacks keep. The browser's speech engine is modelled by its queue of
  utterances; its start, end and error events and the next-chunk timers are
  steps the caller takes.
 */
module TextToSpeech {
  import opened Optional
  import opened Strings

  // ---------------------------------------------------------------------------
  // Voice selection
  // ---------------------------------------------------------------------------

  /** The fields of `SpeechSynthesisVoice` the selection looks at. */
  datatype Voice = Voice(name: string, lang: string, isDefault: bool)

  /** The conditions of the `voices.find(...)` calls, one per priority tier. */
  datatype Tier =
    | SamanthaOrKaren         // en, "Samantha" or "Karen"
    | GoogleUsUk              // en, "Google" and "US" or "UK"
    | NaturalPremiumEnhanced  // en, "Natural", "Premium" or "Enhanced"
    | MicrosoftNatural        // en, "Microsoft" and "Natural"
    | DefaultEnUs             // lang exactly "en-US", the platform default
    | EnUs                    // lang starts with "en-US"
    | English                 // lang starts with "en"

  predicate Satisfies(v: Voice, t: Tier) {
    match t
    case SamanthaOrKaren =>
      StartsWith(v.lang, "en") && (Contains(v.name, "Samantha") || Contains(v.name, "Karen"))
    case GoogleUsUk =>
      StartsWith(v.lang, "en") && Contains(v.name, "Google") && (Contains(v.name, "US") || Contains(v.name, "UK"))
    case NaturalPremiumEnhanced =>
      StartsWith(v.lang, "en")
      && (Contains(v.name, "Natural") || Contains(v.name, "Premium") || Contains(v.name, "Enhanced"))
    case MicrosoftNatural =>
      StartsWith(v.lang, "en") && Contains(v.name, "Microsoft") && Contains(v.name, "Natural")
    case DefaultEnUs => v.lang == "en-US" && v.isDefault
    case EnUs => StartsWith(v.lang, "en-US")
    case English => StartsWith(v.lang, "en")
  }

  /** The tiers tried on a mobile device, highest priority first. */
  const MobileOrder: seq<Tier> := [SamanthaOrKaren, GoogleUsUk, DefaultEnUs, EnUs, English]

  /** The tiers tried on a desktop, highest priority first. */
  const DesktopOrder: seq<Tier> := [GoogleUsUk, NaturalPremiumEnhanced, MicrosoftNatural, DefaultEnUs, EnUs, English]

  /** `voices.find(...)`: the first voice, in list order, that meets the tier. */
  function Find(voices: seq<Voice>, t: Tier): Option<Voice> {
    if voices == [] then None
    else if Satisfies(voices[0], t) then Some(voices[0])
    else Find(voices[1..], t)
  }

  /** `find(...) || find(...) || ...`: the result of the first tier that finds a voice. */
  function Select(voices: seq<Voice>, tiers: seq<Tier>): Option<Voice> {
    if tiers == [] then None
    else
      match Find(voices, tiers[0])
      case Some(v) => Some(v)
      case None => Select(voices, tiers[1..])
  }

  function TierOrder(isMobile: bool): seq<Tier> {
    if isMobile then MobileOrder else DesktopOrder
  }

  /** `preferredVoice`, chosen after the voices have loaded. */
  function PreferredVoice(voices: seq<Voice>, isMobile: bool): Option<Voice> {
    Select(voices, TierOrder(isMobile))
  }

  predicate Unsatisfiable(voices: seq<Voice>, t: Tier) {
    forall i :: 0 <= i < |voices| ==> !Satisfies(voices[i], t)
  }

  /** Voice `i` meets the tier and no voice before it does. */
  predicate FirstSatisfying(voices: seq<Voice>, t: Tier, i: int) {
    && 0 <= i < |voices| && Satisfies(voices[i], t)
    && forall j :: 0 <= j < i ==> !Satisfies(voices[j], t)
  }

  /** `find` gives nothing exactly when no voice meets the tier, and otherwise the first that does. */
  lemma {:induction false} FindFirst(voices: seq<Voice>, t: Tier)
    ensures Find(voices, t).None? <==> Unsatisfiable(voices, t)
    ensures Find(voices, t).Some? ==> exists i :: FirstSatisfying(voices, t, i) && Find(voices, t).value == voices[i]
  {
    if voices != [] {
      var rest := voices[1..];
      FindFirst(rest, t);
      if Satisfies(voices[0], t) {
        assert FirstSatisfying(voices, t, 0);
      } else if Find(rest, t).Some? {
        var i :| FirstSatisfying(rest, t, i) && Find(rest, t).value == rest[i];
        forall j | 0 <= j < i + 1 ensures !Satisfies(voices[j], t) {
          if j > 0 { assert voices[j] == rest[j - 1]; }
        }
        assert FirstSatisfying(voices, t, i + 1);
      } else {
        forall i | 0 <= i < |voices| ensures !Satisfies(voices[i], t) {
          if i > 0 { assert voices[i] == rest[i - 1]; }
        }
      }
    }
  }

  /**
    The `||` chain gives nothing exactly when no tier is met by any voice;
    otherwise it gives the first voice, in list order, of the first tier that
    some voice meets.
   */
  lemma {:induction false} SelectFirstOfFirstTier(voices: seq<Voice>, tiers: seq<Tier>)
    ensures Select(voices, tiers).None? <==> forall k :: 0 <= k < |tiers| ==> Unsatisfiable(voices, tiers[k])
    ensures Select(voices, tiers).Some? ==>
      exists k, i :: 0 <= k < |tiers| && FirstSatisfying(voices, tiers[k], i)
        && Select(voices, tiers).value == voices[i]
        && forall j :: 0 <= j < k ==> Unsatisfiable(voices, tiers[j])
  {
    if tiers != [] {
      var rest := tiers[1..];
      FindFirst(voices, tiers[0]);
      SelectFirstOfFirstTier(voices, rest);
      assert forall k :: 0 < k < |tiers| ==> tiers[k] == rest[k - 1];
      if Find(voices, tiers[0]).Some? {
        var i :| FirstSatisfying(voices, tiers[0], i) && Find(voices, tiers[0]).value == voices[i];
        assert !Unsatisfiable(voices, tiers[0]);
        assert 0 < |tiers| && FirstSatisfying(voices, tiers[0], i) && Select(voices, tiers).value == voices[i];
      } else if Select(voices, rest).Some? {
        var k, i :| 0 <= k < |rest| && FirstSatisfying(voices, rest[k], i)
          && Select(voices, rest).value == voices[i]
          && forall j :: 0 <= j < k ==> Unsatisfiable(voices, rest[j]);
        assert FirstSatisfying(voices, tiers[k + 1], i);
        assert forall j :: 0 <= j < k + 1 ==> Unsatisfiable(voices, tiers[j]);
      }
    }
  }

  /** Every tier asks for an English voice. */
  lemma TierIsEnglish(v: Voice, t: Tier)
    requires Satisfies(v, t)
    ensures StartsWith(v.lang, "en")
  {
    if t == EnUs {
      assert v.lang[..2] == v.lang[..5][..2];
    }
  }

  /**
    A voice is preferred exactly when some voice's language starts with "en",
    and the preferred voice is one of the voices and is English.
   */
  lemma PreferredVoiceIsEnglish(voices: seq<Voice>, isMobile: bool)
    ensures PreferredVoice(voices, isMobile).Some? <==>
      exists i :: 0 <= i < |voices| && StartsWith(voices[i].lang, "en")
    ensures PreferredVoice(voices, isMobile).Some? ==>
      PreferredVoice(voices, isMobile).value in voices && StartsWith(PreferredVoice(voices, isMobile).value.lang, "en")
  {
    var tiers := TierOrder(isMobile);
    SelectFirstOfFirstTier(voices, tiers);
    var last := |tiers| - 1;
    assert tiers[last] == English;
    if exists i :: 0 <= i < |voices| && StartsWith(voices[i].lang, "en") {
      var i :| 0 <= i < |voices| && StartsWith(voices[i].lang, "en");
      assert !Unsatisfiable(voices, tiers[last]);
    }
    if PreferredVoice(voices, isMobile).Some? {
      var k, i :| 0 <= k < |tiers| && FirstSatisfying(voices, tiers[k], i)
        && PreferredVoice(voices, isMobile).value == voices[i]
        && forall j :: 0 <= j < k ==> Unsatisfiable(voices, tiers[j]);
      TierIsEnglish(voices[i], tiers[k]);
    }
  }

  /** A Microsoft "Natural" voice already meets the Natural/Premium/Enhanced tier. */
  lemma MicrosoftTierSubsumed(voices: seq<Voice>)
    requires Unsatisfiable(voices, NaturalPremiumEnhanced)
    ensures Unsatisfiable(voices, MicrosoftNatural)
  {
  }

  /**
    On a desktop the Microsoft tier never decides: leaving it out of the
    order selects the same voice.
   */
  lemma MicrosoftTierNeverDecides(voices: seq<Voice>)
    ensures PreferredVoice(voices, false) ==
      Select(voices, [GoogleUsUk, NaturalPremiumEnhanced, DefaultEnUs, EnUs, English])
  {
    var tail := [DefaultEnUs, EnUs, English];
    var fromNatural, fromMicrosoft := [NaturalPremiumEnhanced, MicrosoftNatural] + tail, [MicrosoftNatural] + tail;
    var short := [GoogleUsUk, NaturalPremiumEnhanced] + tail;
    assert DesktopOrder[1..] == fromNatural && fromNatural[1..] == fromMicrosoft && fromMicrosoft[1..] == tail;
    assert short[1..] == [NaturalPremiumEnhanced] + tail && ([NaturalPremiumEnhanced] + tail)[1..] == tail;
    assert Select(voices, fromMicrosoft) ==
      if Find(voices, MicrosoftNatural).Some? then Find(voices, MicrosoftNatural) else Select(voices, tail);
    assert Select(voices, fromNatural) ==
      if Find(voices, NaturalPremiumEnhanced).Some? then Find(voices, NaturalPremiumEnhanced) else Select(voices, fromMicrosoft);
    assert Select(voices, [NaturalPremiumEnhanced] + tail) ==
      if Find(voices, NaturalPremiumEnhanced).Some? then Find(voices, NaturalPremiumEnhanced) else Select(voices, tail);
    if Find(voices, NaturalPremiumEnhanced).None? {
      FindFirst(voices, NaturalPremiumEnhanced);
      MicrosoftTierSubsumed(voices);
      FindFirst(voices, MicrosoftNatural);
    }
  }

  // ---------------------------------------------------------------------------
  // Chunking
  // ---------------------------------------------------------------------------

  /** The longest chunk `.{1,200}` lets through before its trailing `\s`. */
  const ChunkWidth: nat := 200

  /**
    The number of characters `.` (anything but a line terminator) matches
    from `p` on, at most `cap`.
   */
  function DotRun(s: string, p: nat, cap: nat): (n: nat)
    requires p <= |s|
    ensures n <= cap && p + n <= |s|
    decreases cap
  {
    if cap == 0 || p == |s| || IsLineTerminator(s[p]) then 0 else 1 + DotRun(s, p + 1, cap - 1)
  }

  /** `.{n}` matched from `p` can be followed by `(?:\s|$)`. */
  predicate Fits(s: string, p: nat, n: nat) {
    p + n == |s| || (p + n < |s| && IsSpace(s[p + n]))
  }

  /** The length of the whole match once `.{n}` fits: the `\s` is part of it, `$` is not. */
  function MatchLength(s: string, p: nat, n: nat): nat {
    if p + n == |s| then n else n + 1
  }

  /**
    The backtracking of the greedy `.{1,w}`: the widths `w`, `w - 1`, ..., 1
    are tried in turn and the first one followed by `\s` or the end of the
    text gives the match.
   */
  function Backtrack(s: string, p: nat, w: nat): (r: Option<nat>)
    requires p + w <= |s|
    ensures r.Some? ==> 1 <= r.value <= w + 1 && p + r.value <= |s|
    decreases w
  {
    if w == 0 then None
    else if Fits(s, p, w) then Some(MatchLength(s, p, w))
    else Backtrack(s, p, w - 1)
  }

  /** The match at `p`, if `.{1,200}(?:\s|$)` matches there. */
  function MatchAt(s: string, p: nat): (r: Option<nat>)
    requires p <= |s|
    ensures r.Some? ==> 1 <= r.value <= ChunkWidth + 1 && p + r.value <= |s|
    ensures r.Some? ==> p + r.value == |s| || IsSpace(s[p + r.value - 1])
  {
    var w := DotRun(s, p, ChunkWidth);
    BacktrackEnds(s, p, w);
    Backtrack(s, p, w)
  }

  /** The positions `[start, end)` of one match in the text. */
  datatype Span = Span(start: nat, end: nat)

  /**
    The successive matches of the global regular expression from `p` on: the
    leftmost match, then the leftmost one after it, and so on; a position
    where nothing matches is skipped.
   */
  function MatchSpans(s: string, p: nat): seq<Span>
    requires p <= |s|
    decreases |s| - p
  {
    if p == |s| then []
    else
      var next := MatchAt(s, p);
      if next.None? then MatchSpans(s, p + 1)
      else [Span(p, p + next.value)] + MatchSpans(s, p + next.value)
  }

  function Slices(s: string, spans: seq<Span>): (r: seq<string>)
    requires forall k :: 0 <= k < |spans| ==> spans[k].start <= spans[k].end <= |s|
    ensures |r| == |spans|
    ensures forall k :: 0 <= k < |spans| ==> r[k] == s[spans[k].start..spans[k].end]
  {
    seq(|spans|, k requires 0 <= k < |spans| => s[spans[k].start..spans[k].end])
  }

  /**
    `chunks`: on iOS a text longer than 200 characters is cut into the
    matches of `/.{1,200}(?:\s|$)/g`, or kept whole if there is none;
    anywhere else it is one chunk.
   */
  function ChunkText(text: string, isIOS: bool): (chunks: seq<string>)
    ensures chunks != []
  {
    if isIOS && |text| > ChunkWidth then
      var spans := MatchSpans(text, 0);
      SpansOrdered(text, 0);
      OrderedChunksShape(text, 0, spans);
      if spans == [] then [text] else Slices(text, spans)
    else [text]
  }

  /**
    The greedy width: nothing matches exactly when no width from 1 to `w`
    fits, and otherwise the match is the one of the widest width that fits.
   */
  lemma {:induction false} BacktrackIsGreedy(s: string, p: nat, w: nat)
    requires p + w <= |s|
    ensures Backtrack(s, p, w).None? <==> forall n :: 1 <= n <= w ==> !Fits(s, p, n)
    ensures Backtrack(s, p, w).Some? ==>
      exists n :: 1 <= n <= w && Fits(s, p, n) && Backtrack(s, p, w).value == MatchLength(s, p, n)
        && forall n' :: n < n' <= w ==> !Fits(s, p, n')
  {
    if w > 0 {
      if Fits(s, p, w) {
        assert Backtrack(s, p, w).value == MatchLength(s, p, w);
      } else {
        BacktrackIsGreedy(s, p, w - 1);
        assert Backtrack(s, p, w) == Backtrack(s, p, w - 1);
        if Backtrack(s, p, w - 1).Some? {
          var n :| 1 <= n <= w - 1 && Fits(s, p, n) && Backtrack(s, p, w - 1).value == MatchLength(s, p, n)
            && forall n' :: n < n' <= w - 1 ==> !Fits(s, p, n');
          assert forall n' :: n < n' <= w ==> !Fits(s, p, n');
        }
      }
    }
  }

  /**
    Spans in text order that do not overlap, each starting at `p` or later,
    1 to 201 characters long and ending with a `\s` or at the end of the text.
   */
  predicate OrderedChunks(s: string, p: nat, r: seq<Span>)
    decreases |r|
  {
    r != [] ==>
      && p <= r[0].start < r[0].end <= |s| && r[0].end - r[0].start <= ChunkWidth + 1
      && (r[0].end == |s| || IsSpace(s[r[0].end - 1]))
      && OrderedChunks(s, r[0].end, r[1..])
  }

  /** The same shape stated span by span. */
  lemma {:induction false} OrderedChunksShape(s: string, p: nat, r: seq<Span>)
    requires OrderedChunks(s, p, r)
    ensures forall k :: 0 <= k < |r| ==>
      && p <= r[k].start < r[k].end <= |s| && r[k].end - r[k].start <= ChunkWidth + 1
      && (r[k].end == |s| || IsSpace(s[r[k].end - 1]))
    ensures forall k :: 0 <= k < |r| - 1 ==> r[k].end <= r[k + 1].start
    decreases |r|
  {
    if r != [] {
      OrderedChunksShape(s, r[0].end, r[1..]);
      assert forall k :: 1 <= k < |r| ==> r[k] == r[1..][k - 1];
    }
  }

  lemma SkipPosition(s: string, p: nat)
    requires p < |s| && MatchAt(s, p).None?
    ensures MatchSpans(s, p) == MatchSpans(s, p + 1)
  {
  }

  lemma TakeMatch(s: string, p: nat, m: nat)
    requires p < |s| && MatchAt(s, p) == Some(m)
    ensures p + m <= |s|
    ensures MatchSpans(s, p) == [Span(p, p + m)] + MatchSpans(s, p + m)
  {
  }

  lemma HeadAndTail<T>(x: T, t: seq<T>)
    ensures ([x] + t)[0] == x && ([x] + t)[1..] == t
  {
    assert ([x] + t)[1..] == t;
  }

  /** A match ends with its `\s`, or at the end of the text. */
  lemma {:induction false} BacktrackEnds(s: string, p: nat, w: nat)
    requires p + w <= |s|
    ensures var r := Backtrack(s, p, w); r.Some? ==> p + r.value == |s| || IsSpace(s[p + r.value - 1])
  {
    if w > 0 && !Fits(s, p, w) {
      BacktrackEnds(s, p, w - 1);
    }
  }

  /** The matches are in text order, do not overlap and are well shaped. */
  lemma {:induction false} SpansOrdered(s: string, p: nat)
    requires p <= |s|
    ensures OrderedChunks(s, p, MatchSpans(s, p))
    decreases |s| - p
  {
    if p < |s| {
      var next := MatchAt(s, p);
      if next.None? {
        SkipPosition(s, p);
        SpansOrdered(s, p + 1);
      } else {
        var m := next.value;
        TakeMatch(s, p, m);
        HeadAndTail(Span(p, p + m), MatchSpans(s, p + m));
        SpansOrdered(s, p + m);
      }
    }
  }

  /**
    Outside iOS, and for a text of at most 200 characters, the text is one
    chunk; otherwise the chunks are the text's matches in order, each 1 to
    201 characters long, unless there is none.
   */
  lemma ChunkTextShape(text: string, isIOS: bool)
    ensures !isIOS || |text| <= ChunkWidth ==> ChunkText(text, isIOS) == [text]
    ensures OrderedChunks(text, 0, MatchSpans(text, 0))
    ensures forall k :: 0 <= k < |MatchSpans(text, 0)| ==>
      MatchSpans(text, 0)[k].start < MatchSpans(text, 0)[k].end <= |text|
    ensures isIOS && |text| > ChunkWidth && MatchSpans(text, 0) != [] ==>
      && ChunkText(text, isIOS) == Slices(text, MatchSpans(text, 0))
      && forall k :: 0 <= k < |ChunkText(text, isIOS)| ==> 1 <= |ChunkText(text, isIOS)[k]| <= ChunkWidth + 1
    ensures isIOS && |text| > ChunkWidth && MatchSpans(text, 0) == [] ==> ChunkText(text, isIOS) == [text]
  {
    SpansOrdered(text, 0);
    OrderedChunksShape(text, 0, MatchSpans(text, 0));
  }

  /** Over a stretch with no line terminator, `.` matches as far as the cap or the text allows. */
  lemma {:induction false} DotRunOverPlainText(s: string, p: nat, cap: nat)
    requires p <= |s|
    requires forall i :: p <= i < |s| ==> !IsLineTerminator(s[i])
    ensures DotRun(s, p, cap) == if cap <= |s| - p then cap else |s| - p
    decreases cap
  {
    if cap > 0 && p < |s| {
      DotRunOverPlainText(s, p + 1, cap - 1);
    }
  }

  /**
    The chunks need not cover the text: 201 characters with no `\s` give a
    single chunk that leaves out the first one, since no match starts at 0.
   */
  lemma LongWordLosesItsHead(s: string)
    requires |s| == ChunkWidth + 1
    requires forall i :: 0 <= i < |s| ==> !IsSpace(s[i]) && !IsLineTerminator(s[i])
    ensures ChunkText(s, true) == [s[1..]]
  {
    assert MatchAt(s, 0).None? by {
      DotRunOverPlainText(s, 0, ChunkWidth);
      BacktrackIsGreedy(s, 0, ChunkWidth);
    }
    assert MatchAt(s, 1) == Some(ChunkWidth) by {
      DotRunOverPlainText(s, 1, ChunkWidth);
    }
    var head := [Span(1, ChunkWidth + 1)];
    assert MatchSpans(s, 1) == head + MatchSpans(s, ChunkWidth + 1);
    assert MatchSpans(s, 0) == head;
    assert ChunkText(s, true) == Slices(s, head);
    assert Slices(s, head)[0] == s[1..];
  }

  // ---------------------------------------------------------------------------
  // Playback
  // ---------------------------------------------------------------------------

  /**
    A `SpeechSynthesisUtterance` for chunk `index`, together with what its
    callbacks capture: the chunk list and the preferred voice.
   */
  datatype Utterance = Utterance(text: string, voice: Option<Voice>, index: nat, chunks: seq<string>)

  /** A next-chunk timer: `speakChunk(index)` over the captured chunk list. */
  datatype NextChunk = NextChunk(chunks: seq<string>, index: nat, voice: Option<Voice>)

  /** The utterance speaks one of its own chunks. */
  predicate Speakable(u: Utterance) {
    u.index < |u.chunks| && u.text == u.chunks[u.index]
  }

  class Speaker {
    var isSpeaking: bool
    var isLoading: bool
    var availableVoices: seq<Voice>
    var selectedVoice: Option<Voice>
    /** `utteranceRef.current` */
    var current: Option<Utterance>
    /** The user-agent tests, decided once, when the hook mounts. */
    const isIOS: bool
    const isMobile: bool
    /** The speech engine's queue: the utterance being spoken first. */
    var queue: seq<Utterance>
    /** Next-chunk timers that have been scheduled and have not yet run, in firing order. */
    var timers: seq<NextChunk>
    /** The texts handed to the engine, in order. */
    ghost var spoken: seq<string>

    /** Every utterance speaks one of its chunks, and every timer points at a later chunk of its list. */
    ghost predicate Valid()
      reads this
    {
      && (forall u :: u in queue ==> Speakable(u))
      && (forall t :: t in timers ==> 0 < t.index < |t.chunks|)
      && (current.Some? ==> Speakable(current.value))
    }

    /** The hook after its mount effect has run. */
    constructor (ios: bool, mobile: bool)
      ensures Valid()
      ensures isIOS == ios && isMobile == mobile
      ensures !isSpeaking && !isLoading && availableVoices == [] && selectedVoice == None
      ensures current == None && queue == [] && timers == [] && spoken == []
    {
      isSpeaking := false;
      isLoading := false;
      availableVoices := [];
      selectedVoice := None;
      current := None;
      isIOS := ios;
      isMobile := mobile;
      queue := [];
      timers := [];
      spoken := [];
    }

    /**
      `stop`: the engine is cancelled and both flags are cleared. The current
      utterance and any next-chunk timer are left as they were.
     */
    method Stop()
      requires Valid()
      modifies this
      ensures Valid()
      ensures !isSpeaking && !isLoading && queue == []
      ensures current == old(current) && timers == old(timers) && spoken == old(spoken)
      ensures availableVoices == old(availableVoices) && selectedVoice == old(selectedVoice)
    {
      queue := [];
      isSpeaking := false;
      isLoading := false;
    }

    /**
      `speakChunk(index)`: past the last chunk speaking is over; otherwise an
      utterance for the chunk becomes the current one and is queued.
     */
    method SpeakChunk(chunks: seq<string>, index: nat, voice: Option<Voice>)
      requires Valid()
      modifies this
      ensures Valid()
      ensures index >= |chunks| ==>
        !isSpeaking && current == None && queue == old(queue) && spoken == old(spoken)
      ensures index < |chunks| ==>
        var u := Utterance(chunks[index], voice, index, chunks);
        && current == Some(u) && queue == old(queue) + [u] && spoken == old(spoken) + [chunks[index]]
        && isSpeaking == old(isSpeaking)
      ensures isLoading == old(isLoading) && timers == old(timers)
      ensures availableVoices == old(availableVoices) && selectedVoice == old(selectedVoice)
    {
      if index >= |chunks| {
        isSpeaking := false;
        current := None;
        return;
      }
      var u := Utterance(chunks[index], voice, index, chunks);
      current := Some(u);
      queue := queue + [u];
      spoken := spoken + [chunks[index]];
    }

    /**
      `speak(text)` once the voices are in: stop, mark loading, keep the
      voices and the preferred one, cut the text into chunks and speak the
      first.
     */
    method Speak(text: string, voices: seq<Voice>)
      requires Valid()
      modifies this
      ensures Valid()
      ensures isLoading && !isSpeaking
      ensures availableVoices == voices && selectedVoice == PreferredVoice(voices, isMobile)
      ensures var chunks := ChunkText(text, isIOS);
        var u := Utterance(chunks[0], selectedVoice, 0, chunks);
        && queue == [u] && current == Some(u) && spoken == old(spoken) + [chunks[0]]
      ensures timers == old(timers)
    {
      Stop();
      isLoading := true;
      availableVoices := voices;
      var preferred := PreferredVoice(voices, isMobile);
      selectedVoice := preferred;
      var chunks := ChunkText(text, isIOS);
      SpeakChunk(chunks, 0, preferred);
    }

    /** The engine starts the utterance at the head of its queue: only the first chunk's start changes the flags. */
    method OnChunkStart()
      requires Valid() && queue != []
      modifies this
      ensures Valid()
      ensures old(queue[0].index) == 0 ==> !isLoading && isSpeaking
      ensures old(queue[0].index) != 0 ==> isLoading == old(isLoading) && isSpeaking == old(isSpeaking)
      ensures queue == old(queue) && current == old(current) && timers == old(timers) && spoken == old(spoken)
      ensures availableVoices == old(availableVoices) && selectedVoice == old(selectedVoice)
    {
      if queue[0].index == 0 {
        isLoading := false;
        isSpeaking := true;
      }
    }

    /**
      The engine finishes the head utterance: a next-chunk timer is scheduled
      if there is a later chunk, otherwise speaking is over.
     */
    method OnChunkEnd()
      requires Valid() && queue != []
      modifies this
      ensures Valid()
      ensures queue == old(queue[1..])
      ensures var u := old(queue[0]);
        if u.index < |u.chunks| - 1 then
          && timers == old(timers) + [NextChunk(u.chunks, u.index + 1, u.voice)]
          && isSpeaking == old(isSpeaking) && current == old(current)
        else
          timers == old(timers) && !isSpeaking && current == None
      ensures isLoading == old(isLoading) && spoken == old(spoken)
      ensures availableVoices == old(availableVoices) && selectedVoice == old(selectedVoice)
    {
      var u := queue[0];
      assert u in queue;
      queue := queue[1..];
      if u.index < |u.chunks| - 1 {
        timers := timers + [NextChunk(u.chunks, u.index + 1, u.voice)];
      } else {
        isSpeaking := false;
        current := None;
      }
    }

    /** The engine reports an error on the head utterance: both flags and the current utterance are cleared. */
    method OnChunkError()
      requires Valid() && queue != []
      modifies this
      ensures Valid()
      ensures queue == old(queue[1..]) && !isSpeaking && !isLoading && current == None
      ensures timers == old(timers) && spoken == old(spoken)
      ensures availableVoices == old(availableVoices) && selectedVoice == old(selectedVoice)
    {
      queue := queue[1..];
      isSpeaking := false;
      isLoading := false;
      current := None;
    }

    /** The oldest next-chunk timer fires and speaks its chunk. */
    method FireTimer()
      requires Valid() && timers != []
      modifies this
      ensures Valid()
      ensures var t := old(timers[0]);
        var u := Utterance(t.chunks[t.index], t.voice, t.index, t.chunks);
        && timers == old(timers[1..])
        && queue == old(queue) + [u] && current == Some(u) && spoken == old(spoken) + [u.text]
      ensures isSpeaking == old(isSpeaking) && isLoading == old(isLoading)
      ensures availableVoices == old(availableVoices) && selectedVoice == old(selectedVoice)
    {
      var t := timers[0];
      assert t in timers;
      timers := timers[1..];
      SpeakChunk(t.chunks, t.index, t.voice);
    }
  }

  /** The log grown by the next element of `xs` is the log of one more element of `xs`. */
  lemma LogOneMore<T>(before: seq<T>, xs: seq<T>, i: nat)
    requires i < |xs|
    ensures (before + xs[..i]) + [xs[i]] == before + xs[..i + 1]
  {
    assert xs[..i + 1] == xs[..i] + [xs[i]];
  }

  /**
    One chunk of an uninterrupted run: the engine starts it and finishes it,
    and the timer its end scheduled speaks the next one.
   */
  method PlayChunk(speaker: Speaker, chunks: seq<string>, voice: Option<Voice>, i: nat)
    requires speaker.Valid() && i < |chunks|
    requires speaker.queue == [Utterance(chunks[i], voice, i, chunks)] && speaker.timers == []
    modifies speaker
    ensures speaker.Valid() && speaker.timers == [] && speaker.selectedVoice == old(speaker.selectedVoice)
    ensures speaker.isLoading == (i != 0 && old(speaker.isLoading))
    ensures i < |chunks| - 1 ==>
      && speaker.queue == [Utterance(chunks[i + 1], voice, i + 1, chunks)]
      && speaker.spoken == old(speaker.spoken) + [chunks[i + 1]]
      && speaker.isSpeaking == (i == 0 || old(speaker.isSpeaking))
    ensures i == |chunks| - 1 ==>
      && speaker.queue == [] && speaker.spoken == old(speaker.spoken)
      && !speaker.isSpeaking && speaker.current == None
  {
    speaker.OnChunkStart();
    speaker.OnChunkEnd();
    if i < |chunks| - 1 {
      speaker.FireTimer();
    }
  }

  /**
    A text spoken to the end with no interruption: the engine receives the
    chunks one after the other in index order, only the first chunk's start
    raises `isSpeaking`, which stays up until the last chunk ends, and
    afterwards nothing is speaking, loading or queued.
   */
  method SpeakThrough(speaker: Speaker, text: string, voices: seq<Voice>)
    requires speaker.Valid() && speaker.timers == []
    modifies speaker
    ensures speaker.Valid()
    ensures speaker.spoken == old(speaker.spoken) + ChunkText(text, speaker.isIOS)
    ensures !speaker.isSpeaking && !speaker.isLoading && speaker.current == None
    ensures speaker.queue == [] && speaker.timers == []
    ensures speaker.selectedVoice == PreferredVoice(voices, speaker.isMobile)
  {
    var chunks := ChunkText(text, speaker.isIOS);
    ghost var before := speaker.spoken;
    speaker.Speak(text, voices);
    var voice := speaker.selectedVoice;
    var i := 0;
    while i < |chunks|
      invariant 0 <= i <= |chunks|
      invariant speaker.Valid() && speaker.selectedVoice == voice && speaker.timers == []
      invariant i < |chunks| ==>
        speaker.queue == [Utterance(chunks[i], voice, i, chunks)] && speaker.spoken == before + chunks[..i + 1]
      invariant i == 0 ==> speaker.isLoading && !speaker.isSpeaking
      invariant 0 < i < |chunks| ==> !speaker.isLoading && speaker.isSpeaking
      invariant i == |chunks| ==>
        && speaker.queue == [] && speaker.spoken == before + chunks
        && !speaker.isSpeaking && !speaker.isLoading && speaker.current == None
    {
      PlayChunk(speaker, chunks, voice, i);
      if i < |chunks| - 1 {
        LogOneMore(before, chunks, i + 1);
      } else {
        assert chunks[..i + 1] == chunks;
      }
      i := i + 1;
    }
  }

  /**
    `stop` between two chunks does not clear the timer the first chunk's end
    scheduled: when it fires the second chunk is handed to the engine, and
    its start leaves `isSpeaking` down while it plays.
   */
  method StopBetweenChunks(speaker: Speaker, text: string, voices: seq<Voice>)
    requires speaker.Valid() && speaker.timers == []
    requires |ChunkText(text, speaker.isIOS)| >= 2
    modifies speaker
    ensures var chunks := ChunkText(text, speaker.isIOS);
      && speaker.queue == [Utterance(chunks[1], speaker.selectedVoice, 1, chunks)]
      && speaker.spoken == old(speaker.spoken) + [chunks[0], chunks[1]]
      && !speaker.isSpeaking && !speaker.isLoading
  {
    speaker.Speak(text, voices);
    speaker.OnChunkStart();
    speaker.OnChunkEnd();
    speaker.Stop();
    speaker.FireTimer();
    speaker.OnChunkStart();
  }

  /** `stop` twice leaves the hook as `stop` once does. */
  method StopIsIdempotent(speaker: Speaker)
    requires speaker.Valid()
    modifies speaker
    ensures speaker.Valid()
    ensures !speaker.isSpeaking && !speaker.isLoading && speaker.queue == []
    ensures speaker.current == old(speaker.current) && speaker.timers == old(speaker.timers)
    ensures speaker.spoken == old(speaker.spoken)
    ensures speaker.availableVoices == old(speaker.availableVoices)
    ensures speaker.selectedVoice == old(speaker.selectedVoice)
  {
    speaker.Stop();
    speaker.Stop();
  }
}
