# Mock interview trainer: scoring, interview flow and voice helpers in Dafny

This project models the logic of a browser-based mock interview trainer. The
trainer asks ten frontend-development questions and scores each answer with
keyword heuristics. It collects the answers by typing or by speech
recognition, reads the questions aloud, and ends with a report.

The model has four parts.

- **Questions** (`questions.dfy`): the question and topic tables, the answer
  evaluator `evaluateAnswer` and the report builder `calculateFinalResult`.
  Scores are exact integers. An answer's score is computed in half-points,
  `min(20, 6 + 3k + 2b)`, then +2 beyond 30 words and +1 beyond 50 words,
  each capped at 20, rounded by `(x2 + 1) / 2`. The overall score is kept in
  tenths, `(20 * sum + n) / (2 * n)`. Lemmas tie both back to the source's
  real-valued formulas.
- **Interview** (`interview.dfy`): the interview page as a class `Session`
  with the page's seven state fields and the answer the submit timer's
  closure captures. Its methods are the answer setter, the four handlers and
  the body of the submit timer. An invariant links the phase, the question
  index, the number of scores and the pending evaluation.
- **SpeechRecognition** (`recognition.dfy`): the transcript clean-up
  (`postProcessTranscript`), the choice of the best alternative, and how
  final and interim text accumulate. The class `Recognizer` holds the hook's
  flags; its methods are the engine callbacks (`onstart`, `onresult`,
  `onerror`, `onend`), the restart timers, `startListening`,
  `stopListening`, `resetTranscript` and the unmount clean-up.
- **TextToSpeech** (`speech.dfy`): the prioritised voice choice for mobile
  and desktop, and the iOS chunking by `/.{1,200}(?:\s|$)/g` as an explicit
  backtracking matcher. The class `Speaker` covers `stop`, `speak`,
  `speakChunk` and the per-chunk callbacks. The speech engine is a queue of
  utterances, and next-chunk timers are a list of pending calls.

`strings.dfy` holds the JavaScript string primitives the source relies on
(`trim`, `toLowerCase`, `includes`, `startsWith`, whitespace splitting),
restricted to ASCII.

Browser engines are modelled as events. Each engine event and each timer
body is a method the caller runs as one atomic step. The outcome of the
recognition engine's `start()` is a parameter, and so is the list of voices
the synthesis engine reports. Device detection is a pair of booleans fixed
at construction (see "Left out" for how that differs from the source).

## Model

| member | source | states |
|---|---|---|
| Strings.TrimEmptyIffBlank | src/pages/Index.tsx:32 | `!answer.trim()` holds exactly for answers made only of whitespace |
| Strings.TrimStartDropsSpaces | src/data/interviewQuestions.ts:65 | trimming the start removes a prefix made only of whitespace and keeps the rest |
| Strings.TrimEndDropsSpaces | src/data/interviewQuestions.ts:65 | trimming the end removes a suffix made only of whitespace and keeps the rest |
| Strings.Trim | src/data/interviewQuestions.ts:65 | `trim()`: leading and trailing whitespace removed; the properties are in the two lemmas above |
| Strings.Lower | src/data/interviewQuestions.ts:65 | `toLowerCase()`: the same length, each character mapped on its own, and no upper-case letter left |
| Strings.TokensAreWords | src/data/interviewQuestions.ts:66 | every token of `split(/\s+/).filter(w => w.length > 0)` is non-empty and holds no whitespace |
| Strings.Tokens | src/data/interviewQuestions.ts:66 | `split(/\s+/).filter(w => w.length > 0)`: the maximal runs of non-whitespace characters, in order |
| Strings.WordCount | src/data/interviewQuestions.ts:66 | `wordCount`: the number of those runs |
| Strings.WordCountIsWordStarts | src/data/interviewQuestions.ts:66 | the word count equals the number of positions that hold a non-whitespace character at the start of the text or right after whitespace |
| Strings.WordCountZeroIffBlank | src/data/interviewQuestions.ts:66 | the word count is zero exactly when the answer is blank |
| Strings.LowerNeverContainsUpper | src/data/interviewQuestions.ts:131-132 | a lower-cased text never contains a needle that has an upper-case letter |
| Questions.KeywordSets | src/data/interviewQuestions.ts:85-128 | the keyword and bonus-keyword lists of questions 0 to 9, and two empty lists for any other index |
| Questions.CountMatches | src/data/interviewQuestions.ts:131-132 | `keywords.filter(k => text.includes(k)).length`: how many entries occur as substrings, never more than the list length |
| Questions.KeywordMatches | src/data/interviewQuestions.ts:131 | the keyword count on the trimmed, lower-cased answer |
| Questions.BonusMatches | src/data/interviewQuestions.ts:132 | the bonus-keyword count on the trimmed, lower-cased answer |
| Questions.CountMatchesExtremes | src/data/interviewQuestions.ts:131-132 | the keyword count is 0 exactly when no keyword occurs as a substring, and equals the list length exactly when every keyword occurs |
| Questions.CountMatchesMissing | src/data/interviewQuestions.ts:131-132 | one keyword that does not occur keeps the count below the list length |
| Questions.RoundHalfPoints | src/data/interviewQuestions.ts:142 | `Math.round` of a half-point value: the doubled value is `2 * score` or `2 * score - 1`, so halves round up |
| Questions.HalfPoints | src/data/interviewQuestions.ts:135-139 | twice the unrounded score: the capped base and the two capped word-count bonuses, in half-points |
| Questions.AnswerScore | src/data/interviewQuestions.ts:75-142 | the score is in 1..10; it is 1 exactly when there are fewer than 5 words, otherwise at least 3 |
| Questions.EvaluateAnswer | src/data/interviewQuestions.ts:59-168 | the score is in 1..10; fewer than 5 words give the fixed "too brief" evaluation (score 1, no strengths, the two fixed improvements) for every question index; otherwise the score is at least 3 |
| Questions.HalfPointsExact | src/data/interviewQuestions.ts:135-139 | the half-point value is exactly twice the source's real-valued `min(10, 3 + 1.5k + b)` with its word-count bonuses |
| Questions.ScoreIsRoundedRawScore | src/data/interviewQuestions.ts:135-142 | for 5+ words the score is the real-valued score rounded to the nearest integer, halves up |
| Questions.ScoreAndCountBounds | src/data/interviewQuestions.ts:131-142 | for 5+ words the score is in 3..10, `k` is at most the keyword count and `b` at most the bonus-keyword count |
| Questions.ScoreMonotone | src/data/interviewQuestions.ts:135-142 | more keyword matches, bonus matches or words never lower the score |
| Questions.Grade | src/data/interviewQuestions.ts:144-167 | the feedback sentence, strengths and improvements of each score tier, with the score kept |
| Questions.GradeTiers | src/data/interviewQuestions.ts:145-165 | each tier's lists: at 8+ no improvements and 1 to 3 strengths, terminology exactly when `b > 0`, thoroughness exactly beyond 30 words; at 6-7 one strength and two improvements; at 4-5 two improvements and a strength exactly when `k > 0`; below 4 no strength and three improvements |
| Questions.FeedbackTiers | src/data/interviewQuestions.ts:145-165 | the same tiers stated for `EvaluateAnswer` of any answer of 5+ words |
| Questions.NoKeywordsOutOfRange | src/data/interviewQuestions.ts:128 | a question index outside 0..9 has no keyword matches and no bonus matches |
| Questions.OutOfRangeQuestion | src/data/interviewQuestions.ts:128-142 | a 5+-word answer to a question outside 0..9 scores 3, 4 or 5, decided by its word count alone |
| Questions.UseStateNeverMatches | src/data/interviewQuestions.ts:110-132 | "useState" never occurs in the lower-cased answer, so question 6 counts at most 3 of its 4 bonus keywords |
| Questions.OverallTenths | src/data/interviewQuestions.ts:178 | `Math.round(sum / n * 10)` on integers: the mean in tenths, halves rounded up |
| Questions.OverallTenthsRounds | src/data/interviewQuestions.ts:178 | the overall score in tenths is within half a tenth of the mean: `2nt - n <= 20s < 2nt + n` |
| Questions.LevelOf | src/data/interviewQuestions.ts:180-183 | Strong from 7.5, Intermediate from 5.0, otherwise Beginner, on the rounded overall score |
| Questions.LevelFromMean | src/data/interviewQuestions.ts:178-183 | the level is Strong exactly when the mean is at least 7.45 and Beginner exactly when it is below 4.95 |
| Questions.OverallWithinScoreRange | src/data/interviewQuestions.ts:178 | scores of 1 to 10 give an overall score between 1.0 and 10.0 |
| Questions.StrongAreas | src/data/interviewQuestions.ts:197-203 | the topics of the positions scoring 7 or more, in position order |
| Questions.WeakAreas | src/data/interviewQuestions.ts:197-203 | the topics of the positions scoring below 5, in position order |
| Questions.Recommendations | src/data/interviewQuestions.ts:205-213 | the focus entry when there are weak areas, the two fixed entries, then the course advice below Strong |
| Questions.FinalReport | src/data/interviewQuestions.ts:170-225 | `calculateFinalResult` as a value: overall score, level, summary, areas and recommendations |
| Questions.InIndicesIn | src/data/interviewQuestions.ts:200-203 | a position is listed in a band exactly when its score falls in that band |
| Questions.IndicesInIncreasing | src/data/interviewQuestions.ts:200-203 | the positions of a band are listed in increasing order |
| Questions.TopicLabelsDistinct | src/data/interviewQuestions.ts:185-196 | the ten topic label strings are pairwise distinct: two positions with the same label are the same position |
| Questions.TopicInTopicsAt | src/data/interviewQuestions.ts:185-203 | a topic appears among the topics of some positions exactly when its own position is one of them |
| Questions.AreasStep | src/data/interviewQuestions.ts:200-203 | one more iteration of the `forEach` appends topic `i` to its band's list and leaves the earlier entries unchanged |
| Questions.CalculateFinalResult | src/data/interviewQuestions.ts:170-225 | the loop-built report equals the report function: mean in tenths, level, summary, strong and weak areas, recommendations |
| Questions.AreaMembership | src/data/interviewQuestions.ts:200-203 | topic `i` is a strong area exactly when its score is at least 7, and a weak area exactly when its score is below 5 |
| Questions.AreaLabelMembership | src/data/interviewQuestions.ts:197-203 | on the label strings the source stores: the label of topic `i` is among the strong areas exactly when its score is at least 7, and among the weak areas exactly when it is below 5 |
| Questions.AreasDisjointAndOrdered | src/data/interviewQuestions.ts:197-203 | strong and weak areas are disjoint, and each lists its topics in question order |
| Questions.RecommendationsShape | src/data/interviewQuestions.ts:205-213 | there are 2 + [weak areas exist] + [level is not Strong] recommendations; "Focus on improving" comes first exactly when there are weak areas and names them; the course advice comes last exactly when the level is not Strong |
| Questions.SummaryByLevel | src/data/interviewQuestions.ts:215-222 | two reports have the same summary exactly when they have the same level |
| Questions.AllTens | src/data/interviewQuestions.ts:170-225 | ten scores of 10 give 10.0, Strong, every topic strong, no weak area and the two fixed recommendations |
| Questions.AllOnes | src/data/interviewQuestions.ts:170-225 | ten scores of 1 give 1.0, Beginner, every topic weak and all four recommendations |
| Interview.Session.Valid | src/pages/Index.tsx:16-117 | the page's invariant: the index is in range; loading only on the question view with a non-blank submitted answer; the phase fixes the number of scores; the feedback shown is that of the last score |
| Interview.Session.constructor | src/pages/Index.tsx:16-22 | the initial state: welcome phase, question 0, empty answer, not loading, no evaluation, no scores, no report |
| Interview.Session.QuestionShown | src/pages/Index.tsx:86-117 | in the question and feedback phases the question index is in range, so the shown question exists |
| Interview.Session.Start | src/pages/Index.tsx:24-29 | `handleStart`: question phase, index 0, no scores, empty answer; loading flag, evaluation and report untouched |
| Interview.Session.SetAnswer | src/pages/Index.tsx:94-99 | `setAnswer`, from typing or from the transcript effect, which may run while an evaluation is pending: only the answer changes |
| Interview.Session.Submit | src/pages/Index.tsx:31-37 | `handleSubmit`: loading starts exactly when the answer is not blank, and then the timer captures the answer; nothing else changes |
| Interview.Session.CompleteSubmission | src/pages/Index.tsx:37-43 | the timer body: the evaluation of the answer captured at submission is stored, its score appended, loading ends and the phase is feedback; the index and the answer box are unchanged |
| Interview.Session.Next | src/pages/Index.tsx:46-59 | `handleNext`: at the last question the report of the scores is stored and the phase is results, with 10 scores and the index unchanged; otherwise the index advances, the answer and evaluation are cleared and the phase is question; scores unchanged |
| Interview.Session.Restart | src/pages/Index.tsx:61-68 | `handleRestart`: back to the initial welcome state |
| Interview.AnswerQuestion | src/pages/Index.tsx:31-59 | one round appends exactly the score of the given answer; it moves to the next question, or after the last one to results with the report of all scores |
| Interview.TranscriptWhileEvaluating | src/pages/Index.tsx:31-43 | a transcript that replaces the answer while the evaluation is pending stays in the answer box, but the score appended is that of the answer submitted |
| Interview.RunInterview | src/pages/Index.tsx:24-59 | a whole interview ends with exactly 10 scores, score `i` the evaluation of answer `i`, and the report computed from them |
| SpeechRecognition.ReplaceAll | src/hooks/useSpeechRecognition.ts:27-28 | `replace(/\bw\b/gi, r)`: every leftmost case-insensitive whole-word match is replaced and the search resumes after it |
| SpeechRecognition.ApplyCorrections | src/hooks/useSpeechRecognition.ts:25-29 | the corrections applied one after another, in table order |
| SpeechRecognition.Capitalise | src/hooks/useSpeechRecognition.ts:31-34 | the first character upper-cased, the length kept |
| SpeechRecognition.StripSpaceBeforePunct | src/hooks/useSpeechRecognition.ts:37 | every run of whitespace directly before `.`, `,`, `!` or `?` is deleted |
| SpeechRecognition.SpaceAfterPunct | src/hooks/useSpeechRecognition.ts:38 | a space is put between such a mark and a word character after it |
| SpeechRecognition.PostProcessed | src/hooks/useSpeechRecognition.ts:4-41 | `postProcessTranscript` as a value: corrections, capital, then the two spacing fixes |
| SpeechRecognition.PostProcessTranscript | src/hooks/useSpeechRecognition.ts:4-41 | the loop applies the corrections in table order, each as a case-insensitive whole-word replacement; then it capitalises the first letter and fixes the spacing |
| SpeechRecognition.ApplyCorrectionsEmpty | src/hooks/useSpeechRecognition.ts:25-29 | the corrections leave an empty text empty |
| SpeechRecognition.PostProcessedEmpty | src/hooks/useSpeechRecognition.ts:4-41 | an empty transcript stays empty |
| SpeechRecognition.ReplaceWithoutMatch | src/hooks/useSpeechRecognition.ts:27-28 | where the pattern never matches, the replacement leaves the text unchanged |
| SpeechRecognition.CaseOnlyReplacement | src/hooks/useSpeechRecognition.ts:27-28 | a replacement that only changes letter case leaves the lower-cased text unchanged from any position on |
| SpeechRecognition.CaseOnlyCorrection | src/hooks/useSpeechRecognition.ts:10-16 | corrections such as "react" to "React" never change the lower-cased text |
| SpeechRecognition.StripLeavesNoSpaceBeforePunct | src/hooks/useSpeechRecognition.ts:37 | after the first spacing fix no whitespace stands directly before `.`, `,`, `!` or `?` |
| SpeechRecognition.SpaceAfterPunctFixes | src/hooks/useSpeechRecognition.ts:38 | the second fix leaves no such mark directly before a word character, and keeps the first fix's property |
| SpeechRecognition.PostProcessedPunctuation | src/hooks/useSpeechRecognition.ts:36-38 | any cleaned transcript has no whitespace before a punctuation mark and no punctuation mark directly before a word character |
| SpeechRecognition.BestAlternative | src/hooks/useSpeechRecognition.ts:114-126 | the scan: a later alternative replaces the best so far only when strictly more confident; the index is in range |
| SpeechRecognition.BestAlternativeIsFirstMaximal | src/hooks/useSpeechRecognition.ts:114-126 | the scan keeps an alternative of maximal confidence that no earlier alternative ties; a missing confidence counts as 0 |
| SpeechRecognition.FirstMaximalUnique | src/hooks/useSpeechRecognition.ts:114-126 | there is exactly one such first maximal alternative |
| SpeechRecognition.SelectBestAlternative | src/hooks/useSpeechRecognition.ts:115-126 | the loop returns the first maximal alternative, its transcript and its confidence |
| SpeechRecognition.Heard | src/hooks/useSpeechRecognition.ts:114-129 | the cleaned transcript of a result's best alternative |
| SpeechRecognition.AppendFinal | src/hooks/useSpeechRecognition.ts:133-135 | appending grows the final text by the new text plus one space exactly when the text so far is non-empty and does not end in a space |
| SpeechRecognition.AppendFinalKeepsBoth | src/hooks/useSpeechRecognition.ts:131-135 | after appending, the earlier final text is the head and the new text is the tail |
| SpeechRecognition.Combined | src/hooks/useSpeechRecognition.ts:141-143 | the shown text has one separating space exactly when both final and interim text are non-empty |
| SpeechRecognition.CombinedKeepsBoth | src/hooks/useSpeechRecognition.ts:141-145 | the shown text starts with the final text and ends with the interim text |
| SpeechRecognition.FinalAfter | src/hooks/useSpeechRecognition.ts:131-135 | the final text after results taken in order, each final one appended with its joining space |
| SpeechRecognition.InterimOf | src/hooks/useSpeechRecognition.ts:136-138 | the cleaned texts of the interim results, run together |
| SpeechRecognition.TakeResult | src/hooks/useSpeechRecognition.ts:104-138 | one pass of the loop: a final result's cleaned best text is appended to the final text, an interim one's to the interim text |
| SpeechRecognition.TakeResults | src/hooks/useSpeechRecognition.ts:101-139 | the loop over the results gives the final text after all of them, in order, and their interim texts run together |
| SpeechRecognition.InterimKeepsFinal | src/hooks/useSpeechRecognition.ts:131-138 | interim results never change the final text |
| SpeechRecognition.FinalGrows | src/hooks/useSpeechRecognition.ts:131-138 | the final text only grows: the earlier final text stays at its head |
| SpeechRecognition.Classify | src/hooks/useSpeechRecognition.ts:153-181 | the cases of `onerror`'s `switch`: six named error codes, every other code the default case |
| SpeechRecognition.ErrorMessageFor | src/hooks/useSpeechRecognition.ts:153-181 | the message each case sets, the default one naming the code |
| SpeechRecognition.Recognizer.Valid | src/hooks/useSpeechRecognition.ts:54-60 | the hook's invariant: the final text is the head of the shown transcript; without an engine nothing listens, restarts or waits to restart |
| SpeechRecognition.Recognizer.constructor | src/hooks/useSpeechRecognition.ts:54-241 | after the mount effect: empty texts, not listening, no restart wanted or pending, and the "not supported" message exactly when there is no engine |
| SpeechRecognition.Recognizer.OnStart | src/hooks/useSpeechRecognition.ts:93-97 | `onstart` clears the error and sets listening |
| SpeechRecognition.Recognizer.OnResult | src/hooks/useSpeechRecognition.ts:99-146 | `onresult` takes the results from `resultIndex` on into the final text, and shows final plus interim text; the flags are untouched |
| SpeechRecognition.Recognizer.OnError | src/hooks/useSpeechRecognition.ts:148-207 | `aborted`, and `no-speech` on mobile, change nothing; permission and microphone errors set their message, stop listening, stop wanting restarts and schedule none; any other error sets its message and schedules a restart exactly when one is wanted |
| SpeechRecognition.Recognizer.OnEnd | src/hooks/useSpeechRecognition.ts:209-235 | `onend` schedules a restart when one is wanted, otherwise stops listening |
| SpeechRecognition.Recognizer.FireRestart | src/hooks/useSpeechRecognition.ts:192-231 | a restart timer tries the engine only while a restart is wanted; a failure after an error stops listening; after an end, "already started" is ignored and any other failure stops listening, stops restarts and reports it |
| SpeechRecognition.Recognizer.StartListening | src/hooks/useSpeechRecognition.ts:255-281 | without an engine only the error is set; while listening nothing changes; otherwise texts and error are cleared, restarts are wanted, and the start outcome decides listening and the error |
| SpeechRecognition.Recognizer.StopListening | src/hooks/useSpeechRecognition.ts:283-296 | while listening, restarts stop being wanted and listening ends; otherwise nothing changes |
| SpeechRecognition.Recognizer.ResetTranscript | src/hooks/useSpeechRecognition.ts:298-303 | both texts and the error are cleared; the flags are untouched |
| SpeechRecognition.Recognizer.Dispose | src/hooks/useSpeechRecognition.ts:243-252 | the unmount clean-up stops wanting restarts |
| SpeechRecognition.StopSuppressesRestarts | src/hooks/useSpeechRecognition.ts:283-296 | after `stopListening` while listening, every pending restart timer fires without starting the engine, whatever `start()` would do |
| TextToSpeech.Find | src/hooks/useTTSFree.ts:88-103 | `voices.find(...)` for one tier's condition |
| TextToSpeech.Select | src/hooks/useTTSFree.ts:86-129 | the `find` calls joined by logical or: the first tier that finds a voice decides |
| TextToSpeech.PreferredVoice | src/hooks/useTTSFree.ts:83-130 | the mobile or the desktop tier order applied to the voices |
| TextToSpeech.FindFirst | src/hooks/useTTSFree.ts:88-103 | `find` gives nothing exactly when no voice meets the condition, and otherwise the first voice in list order that does |
| TextToSpeech.SelectFirstOfFirstTier | src/hooks/useTTSFree.ts:86-129 | the `||` chain gives nothing exactly when no tier is met; otherwise it gives the first voice of the first tier some voice meets |
| TextToSpeech.TierIsEnglish | src/hooks/useTTSFree.ts:86-129 | every tier's condition implies a language starting with "en" |
| TextToSpeech.PreferredVoiceIsEnglish | src/hooks/useTTSFree.ts:86-133 | on mobile and desktop a voice is chosen exactly when some voice's language starts with "en", and the chosen voice is one of the voices and is English |
| TextToSpeech.MicrosoftTierSubsumed | src/hooks/useTTSFree.ts:114-123 | if no voice meets the Natural/Premium/Enhanced tier, none meets the Microsoft Natural tier |
| TextToSpeech.MicrosoftTierNeverDecides | src/hooks/useTTSFree.ts:107-129 | the desktop choice is unchanged when the Microsoft tier is dropped from the order |
| TextToSpeech.BacktrackIsGreedy | src/hooks/useTTSFree.ts:147 | the pattern with `.{1,w}` at one position fails exactly when no width from 1 to `w` is followed by whitespace or the end; otherwise it matches with the widest such width |
| TextToSpeech.BacktrackEnds | src/hooks/useTTSFree.ts:147 | a match ends with its whitespace character or at the end of the text |
| TextToSpeech.MatchAt | src/hooks/useTTSFree.ts:147 | a match at a position is 1 to 201 characters long, lies inside the text and ends with whitespace or at the end |
| TextToSpeech.MatchSpans | src/hooks/useTTSFree.ts:147 | the successive matches of the global pattern, with positions where nothing matches skipped |
| TextToSpeech.Slices | src/hooks/useTTSFree.ts:147 | the matched substrings, one per match, in order |
| TextToSpeech.SpansOrdered | src/hooks/useTTSFree.ts:147 | the successive global matches are in text order, do not overlap, are 1 to 201 characters long and end with whitespace or at the end of the text |
| TextToSpeech.ChunkText | src/hooks/useTTSFree.ts:146-148 | there is always at least one chunk |
| TextToSpeech.ChunkTextShape | src/hooks/useTTSFree.ts:146-148 | off iOS, or for at most 200 characters, the only chunk is the text; otherwise the chunks are the matches in order, each 1 to 201 characters, or the whole text when nothing matches |
| TextToSpeech.LongWordLosesItsHead | src/hooks/useTTSFree.ts:147 | the chunks need not cover the text: 201 characters without whitespace give one chunk that leaves out the first character |
| TextToSpeech.Speaker.Valid | src/hooks/useTTSFree.ts:152-204 | the hook's invariant: every queued utterance and the current one speak one of their chunks, and every timer points at a later chunk of its list |
| TextToSpeech.Speaker.constructor | src/hooks/useTTSFree.ts:13-30 | the hook once its mount effect has set the device flags: nothing speaking or loading, no voices, no utterance |
| TextToSpeech.Speaker.Stop | src/hooks/useTTSFree.ts:32-36 | `stop` empties the engine's queue and clears both flags; the current utterance and pending timers stay |
| TextToSpeech.Speaker.SpeakChunk | src/hooks/useTTSFree.ts:152-204 | past the last chunk speaking ends and the utterance is cleared; otherwise an utterance for the chunk becomes current and is queued |
| TextToSpeech.Speaker.Speak | src/hooks/useTTSFree.ts:38-207 | `speak` stops, sets loading, stores the voices and the preferred voice, and queues chunk 0 of the text's chunks |
| TextToSpeech.Speaker.OnChunkStart | src/hooks/useTTSFree.ts:170-176 | only chunk 0's start clears loading and sets speaking |
| TextToSpeech.Speaker.OnChunkEnd | src/hooks/useTTSFree.ts:178-189 | a chunk's end schedules the next chunk when there is one, otherwise ends speaking and clears the utterance |
| TextToSpeech.Speaker.OnChunkError | src/hooks/useTTSFree.ts:191-200 | a chunk error clears both flags and the utterance |
| TextToSpeech.Speaker.FireTimer | src/hooks/useTTSFree.ts:183 | the oldest next-chunk timer queues its chunk |
| TextToSpeech.PlayChunk | src/hooks/useTTSFree.ts:170-189 | a chunk that starts and ends queues the next chunk, or after the last one leaves nothing speaking |
| TextToSpeech.SpeakThrough | src/hooks/useTTSFree.ts:152-207 | an uninterrupted `speak` hands the engine exactly the text's chunks, in index order, and ends with nothing speaking, loading or queued |
| TextToSpeech.StopBetweenChunks | src/hooks/useTTSFree.ts:178-183 | a `stop` between two chunks does not cancel the next-chunk timer: the second chunk is still queued, with `isSpeaking` false |
| TextToSpeech.StopIsIdempotent | src/hooks/useTTSFree.ts:32-36 | `stop` twice leaves the same state as `stop` once |

## Left out

- The React rendering, the UI components and the text-to-speech HTTP proxy (`server.js`, `api/tts.js`) are not part of this model. They hold rendering and network I/O only.
- `src/hooks/useTextToSpeech.ts` is not part of this model. No modelled code uses it.
- Floating point: scores are exact integers (half-points and tenths). `HalfPointsExact` and `ScoreIsRoundedRawScore` relate them to the real-valued formula. IEEE rounding is not modelled.
- Case mapping is ASCII only: `toLowerCase`, `toUpperCase` and the `i` flag of the correction patterns change only the letters A to Z. There is no Unicode case mapping or normalisation. `\s` and `trim()` use JavaScript's full whitespace set; `\w` and `\b` are ASCII in JavaScript as well.
- Lengths and positions count Unicode characters, not UTF-16 code units. A text with characters outside the Basic Multilingual Plane is measured differently by `text.length > 200` and by `.{1,200}`.
- Timers are atomic steps that the caller runs. The submit timer (1000 ms) and the restart timers (500 and 100 ms) may run in any order with other events. Next-chunk timers all have the same delay for one hook (100 ms on iOS, 0 elsewhere), so `Speaker.FireTimer` runs the oldest first. The delays themselves are not modelled.
- The waiting in `speak` for the voice list (`getVoices`, `onvoiceschanged`, the one-second fallback) is done in one step. The voices are a parameter of `Speak`.
- The `catch` branch of `speak` is not modelled. It only clears `isLoading` when the engine fails, and engine failures are outside this model.
- Device detection by user-agent regular expressions is replaced by the booleans `isIOS` and `isMobile`, fixed when a `Speaker` is constructed. In the source both start false and a mount effect sets them (src/hooks/useTTSFree.ts:18-30), and `speak` is rebuilt when they change (line 212). The question card's auto-speak timer (src/components/interview/QuestionCard.tsx:20-31) keeps the `speak` of the card's first render, so questions read out automatically use the desktop voice order and no iOS chunking; that corresponds to `new Speaker(false, false)`. Only the card's speak button reaches the detected values.
- Utterance `rate`, `pitch` and `volume`, and all console logging, are left out.
- Engine callbacks arrive only for the engine's current utterance or recognition. A stale callback from an utterance that `stop` cancelled is not delivered.
- The long question texts are left out; only the topics, difficulties and the count of ten matter.
- Questions.CalculateFinalResult: requires 1 to 10 scores. With no scores the source yields `NaN`, and beyond ten scores it files `undefined` topics; the page never calls it that way.
- SpeechRecognition.Recognizer.OnResult: requires `resultIndex` to be at most the number of results, and every result to carry at least one alternative (the `Alternatives` subset type). The engine guarantees both.
- Interview.Session.Submit: requires `!isLoading`. The submit button, and the answer box that takes Ctrl+Enter, are disabled while an evaluation is pending, so the handler itself does not check it. `SetAnswer` carries no such requirement, because the effect that copies each new transcript into the answer also runs while loading.
- Interview.Session.Valid does not record which answers produced the scores. `RunInterview` states that relation for a whole interview.
