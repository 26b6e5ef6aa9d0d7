# TTS job pipeline: a Dafny model

This project models the job core of a Flask text-to-speech server written in Python. The server turns a text, or a list of chapters, into audio files. The model covers these parts:

- **The SQLite store** (`database.py`): the pronunciation dictionary and the dictionary normaliser, the `jobs` table with its JSON columns, and the per-chapter `job_chapters` table.
- **Text analysis** (`flask_app/helpers.py`): the speaker-tag expression `[name]…[/name]`, tag stripping, and `_analyze_text`.
- **The chapter worker** (`flask_app/worker.py`): `_process_chapter`. One task runs per chapter. It checks for cancel and pause before each chunk, picks a voice, synthesises the chunk, pads it, writes the chapter file, increments the completed-chapter counter, and lets the last finisher finalise the job.
- **The artifact pipeline** (`flask_app/artifacts.py`): the gating of the denoise, trim and validation stages, and the widen/clamp/merge of the non-silent intervals.
- **The blueprint routes** (`flask_app/routes.py`): `api_generate`, and pause, resume, cancel and delete.
- **The single-process server** (`app.py`): the in-memory `job_flags` and `_process_job`.

## How the model is built

**State.** State the source changes in place is a class:

- `Database.Store` holds the three tables as maps.
- `LocalApp.Runtime` holds `job_flags`.

Each Python function that writes becomes a method with `modifies` and an `ensures` that states the new state. Each read-only or pure computation becomes a function, and lemmas state its properties.

**Concurrency.** Other clients can pause, resume, cancel or delete a job while a worker runs. The model represents those requests as a schedule (`events`). A request is served only just before a store or flag read of the worker, and every lemma about a worker holds for every schedule. A request that arrives between a read and the write that follows it, or after the worker's last read, is not modelled; "## Left out" says what the source does then.

**Foreign code.** The synthesis engine, sentence chunker, time-stretch, RNNoise, `librosa.effects.split`, Whisper, the file writes and the clock are parameters (`Synthesis.Engine`, `Synthesis.Clock`). A foreign call whose exception reaches the worker's `try` (the engine, `time_stretch` and the file writes) returns a `Synth`, a `Result` or an `Option` that carries the message, and that message fails the job as in the source. RNNoise, `librosa.effects.split` and Whisper return an `Option` whose `None` is the failure the source catches around them.

**The segment fallback.** `_process_chapter` uses the tag-stripped text only when no run is found, which happens only for blank text (`Speakers.FallbackOnlyForBlank`). A chapter with stray, unpaired tags keeps them in its single `default` run.

## Model

| member | source | states |
|---|---|---|
| Database.Store.DictionaryCount | database.py:98-101 | the count is the number of distinct words stored |
| Database.Store.AddWord | database.py:104-110 | insert-or-replace: the word maps to the new replacement; every other entry and both job tables are unchanged |
| Database.Store.DeleteWord | database.py:113-116 | the word is removed and nothing else changes; deleting an absent word is a no-op |
| Database.Store.ClearDictionary | database.py:119-122 | the dictionary is empty and its count is 0; the job tables are unchanged |
| Database.Store.ImportDictionary | database.py:125-132 | the dictionary becomes the old one overlaid with the entries, and imported values win |
| Database.Store.ApplyDictionary | database.py:135-159 | the loop over the sorted entries returns exactly `Normaliser.Normalise(dictionary, text)`, which is the text itself for an empty dictionary |
| Database.RowToJob | database.py:265-273 | a row decodes exactly when all three JSON columns parse; the decoded job keeps id, status, progress and counters; `split_by_chapter` is the column being non-zero |
| Database.Store.GetJob | database.py:233-236 | `None` exactly for an unknown id; otherwise the job with that id and status |
| Database.NewRow | database.py:181-201 | the inserted row decodes to a fresh job: queued, zero progress, chunks and chapters done, no output files, no error; it keeps the caller's title, text, assignments and chapters |
| Database.Store.CreateJob | database.py:166-203 | fails exactly when the id already exists, leaving the table unchanged; otherwise adds the new row, and the returned job is what `_row_to_job` reads back |
| Database.Store.IncrementCompletedChapters | database.py:205-210 | for a stored job, the counter goes up by one and the new value is returned; for an unknown job, 0 and no change |
| Database.Store.UpdateJob | database.py:213-230 | the table becomes `Updated(old, id, fields)`: no fields or an unknown id changes nothing; otherwise the named columns of that row are written in order; every row stays decodable |
| Database.ApplyFieldWrites | database.py:219-225 | one keyword writes its column, JSON-encoded for the three JSON keywords |
| Database.ApplyFieldKeeps | database.py:219-225 | one keyword leaves every other column unchanged |
| Database.UpdateKeepsOtherColumns | database.py:213-230 | columns not named in the update keep their values |
| Database.UpdateWritesGivenColumns | database.py:213-230 | after the whole update, each named column holds the value given for it |
| Database.FieldsKeepRowDecodable | database.py:213-230 | any update keeps a decodable row decodable under the same id |
| Database.UpdateKeepsGood | database.py:213-230 | after an update every stored row still decodes |
| Database.StatusUpdated | database.py:213-230 | an update of the status alone changes exactly that column of that row |
| Database.OutputFilesReadBack | database.py:219-223 | output files written through an update come back from `_row_to_job` as written |
| Database.OutputFilesColumnRead | database.py:270 | a column holding the JSON of a file list decodes to that list |
| Database.Store.DeleteJob | database.py:258-262 | returns true exactly when the row existed; the row is gone and the chapter rows stay |
| Database.Store.ActiveCount | database.py:250-255 | definition, no contract of its own: the number of rows whose status is `queued`, `processing` or `paused`; `ActiveCountGrows` and `ActiveCountShrinks` state that inserting an active row adds one and deleting a row removes it from the count |
| Database.ActiveCountGrows | database.py:250-255 | a new queued, processing or paused row raises the active count by one |
| Database.ActiveCountShrinks | database.py:250-255 | removing a row lowers the active count by one if it was active, else leaves it |
| Database.Store.UpdateChapterState | database.py:280-294 | upsert: the `(job, index)` row holds exactly the new values; every other chapter row is unchanged |
| Database.ChapterStatesOf | database.py:297-300 | the result lists every chapter row of the job and no other, in strictly ascending index order |
| Database.Store.GetChapterStates | database.py:297-300 | definition, no contract of its own: the job's chapter rows, which `ChapterStatesOf` states are exactly the stored rows of that job in ascending index order |
| Json.StringRoundTrip | database.py:223 | a string encoded as `json.dumps(ensure_ascii=False)` writes it parses back to itself, with the rest of the input kept |
| Json.EncodeStringList | database.py:197 | definition, no contract of its own: `json.dumps` of a list of strings, `["a", "b"]`; `StringListRoundTrip` states that decoding it gives the list back |
| Json.EncodeObject | database.py:194 | definition, no contract of its own: `json.dumps` of a dict with its keys in a fixed order; `ObjectRoundTrip` states that decoding it gives the map back |
| Json.Decode | database.py:269-271 | definition, no contract of its own: `json.loads`: one value with only whitespace around it, `None` otherwise; the column round trips state that it inverts the encoders |
| Json.StringListRoundTrip | database.py:197 | a list of strings encoded as JSON parses back to the same list |
| Json.ObjectRoundTrip | database.py:194 | a JSON object whose value encoding is invertible parses back to the same map |
| Json.StringListColumnRoundTrip | database.py:270-271 | `json.loads(json.dumps(xs)) == xs` for the output-files and chapters columns |
| Json.AssignmentsColumnRoundTrip | database.py:269 | `json.loads(json.dumps(a)) == a` for the voice-assignments column |
| Text.OrderedKeysSorted | database.py:144-149 | `OrderedKeys` lists the dictionary's words, each exactly once, longest first; words of equal length keep the `ORDER BY word` order, because Python's sort is stable |
| Text.OrderedKeys | database.py:144-149 | definition, no contract of its own: the keys in the order the dictionary applies them; `OrderedKeysSorted` states it lists every key once, longest first |
| Text.LexLessTotal | database.py:94 | any two distinct words are ordered one way or the other by code point |
| Text.Fold | database.py:157 | case folding for `IGNORECASE`: ASCII capitals map to their small letters, small ASCII letters stay |
| Text.Strip | flask_app/helpers.py:81 | `str.strip()`: the result is no longer than the input; `StripEmptyIffBlank` and `StripIdempotent` state the rest |
| Text.Split | flask_app/helpers.py:82 | definition, no contract of its own: `str.split()`; `SplitTokens`, `SplitEmptyIffBlank` and `SplitKeepsNonSpace` state that it gives the non-empty whitespace-free runs, and every non-space character |
| Text.StripEmptyIffBlank | flask_app/helpers.py:81 | `strip()` gives the empty string exactly when every character is whitespace |
| Text.StripIdempotent | flask_app/routes.py:103-106 | stripping twice is stripping once |
| Text.SplitTokens | flask_app/helpers.py:82 | every token of `split()` is non-empty and has no whitespace |
| Text.SplitEmptyIffBlank | flask_app/helpers.py:82 | `split()` is empty exactly when the text is all whitespace |
| Text.SplitKeepsNonSpace | flask_app/helpers.py:82 | the tokens together hold exactly the non-whitespace characters |
| Text.FirstLine | flask_app/routes.py:105 | `split("\n")[0]`: the longest prefix without a newline, ending at the first newline |
| Text.Take | flask_app/routes.py:105 | `[:50]`: the first `min(len, 50)` characters |
| Text.NatToString | flask_app/worker.py:202 | `str(n)`: a non-empty string of decimal digits; `NatToStringInjective` states that distinct numbers give distinct strings |
| Normaliser.MatchAt | database.py:156 | a match at `p`: the left boundary is a line start or one kept space or hyphen; then the word, case-insensitively; then the end of a line, whitespace or one of `!?.,;:-` |
| Normaliser.Search | database.py:157 | the leftmost match at or after `from`, with no match at any position before it; `None` exactly when there is none |
| Normaliser.SubstituteFrom | database.py:157 | definition, no contract of its own: `re.sub` from a position with the pattern `(^|[\s\-])word(?=$|[\s!?.,;:\-])`, case-insensitive, and the replacement `group(1) + repl`; `NoMatchCopies`, `ReplacedOnce` and `InsideTokenUnchanged` state what it does |
| Normaliser.Substitute | database.py:151-157 | definition, no contract of its own: one dictionary entry applied to the whole text; `NoMatchUnchanged`, `KeyCaseIrrelevant`, `SameFoldSubstitutesAlike` and `CatInsideConcatenate` state its properties |
| Normaliser.Normalise | database.py:135-159 | definition, no contract of its own: `db_apply_dictionary`: the text unchanged for an empty dictionary, otherwise the entries applied longest key first; `EmptyDictionaryIsIdentity`, `LongestKeyFirst`, `LongerKeyFirst` and `PhraseBeforeItsPrefix` state this |
| Normaliser.NoMatchCopies | database.py:157 | with no match from `from` on, the rest of the text is copied unchanged |
| Normaliser.NoMatchUnchanged | database.py:157 | a key that matches nowhere leaves the text unchanged |
| Normaliser.InsideTokenUnchanged | database.py:151-157 | a key that does not start the text, in a text with no space or hyphen, is never replaced |
| Normaliser.CatInsideConcatenate | database.py:151-157 | the key "cat" leaves "concatenate" unchanged |
| Normaliser.KeyCaseIrrelevant | database.py:157 | two keys that differ only in letter case substitute identically |
| Normaliser.SameFoldSubstitutesAlike | database.py:157 | the same, from any position, with either `mustAdvance` state |
| Normaliser.ReplacedOnce | database.py:157 | a single match is replaced, with its boundary character kept and the rest copied |
| Normaliser.SearchLandsAt | database.py:157 | a search finds the first position where a match starts |
| Normaliser.EmptyDictionaryIsIdentity | database.py:144-146 | an empty dictionary returns the text unchanged |
| Normaliser.LongestKeyFirst | database.py:148-149 | one key per dictionary entry, applied longest first; equal lengths go by ascending word |
| Normaliser.HyphenKeptCaseIgnored | database.py:151-157 | "Ala-KOT." with kot→pies becomes "Ala-pies.": the hyphen is kept and case is ignored |
| Normaliser.PhraseReplaced | database.py:151-157 | "w san francisco" with "san francisco"→"SF" becomes "w SF" |
| Normaliser.LongerKeyFirst | database.py:148-149 | "san francisco" is ordered before "san" |
| Normaliser.PrefixFindsNothing | database.py:151-157 | after that replacement, "san" no longer matches in "w SF" |
| Normaliser.PhraseBeforeItsPrefix | database.py:142-159 | {"san francisco": "SF", "san": "S."} turns "w san francisco" into "w SF": the longer phrase wins over its prefix |
| Speakers.NameEnd | flask_app/helpers.py:74 | the greedy `[\w-]*` run: every character up to the end is a name character, and the next one is not |
| Speakers.OpenerAt | flask_app/helpers.py:74 | a result is an opening tag `[name]` at that position, with `name` matching `\w[\w-]*` |
| Speakers.CloserFrom | flask_app/helpers.py:74 | the lazy `.*?`: the first `[/name]` at or after the position, with no earlier one; `None` exactly when there is none |
| Speakers.MatchAt | flask_app/helpers.py:74 | a match is an opener, a body containing no closer of the same name, and that closer (the `\1` back-reference, with `DOTALL`) |
| Speakers.FindFrom | flask_app/helpers.py:74 | the leftmost match at or after the position, with none before it |
| Speakers.FindAll | flask_app/helpers.py:79 | `finditer`: ordered, non-overlapping matches, each a match at its start |
| Speakers.Matches | flask_app/worker.py:65 | definition, no contract of its own: `SPEAKER_TAG_RE.finditer` over the whole text; `FindAll` states that the matches are in order, do not overlap, and each is the match at its start |
| Speakers.Names | flask_app/helpers.py:79-80 | the tag names of the matches, in order |
| Speakers.Dedup | flask_app/helpers.py:80 | `dict.fromkeys`: the same set of names, each once |
| Speakers.DedupKeepsFirstAppearance | flask_app/helpers.py:80 | the deduplicated names appear in the order of their first occurrence |
| Speakers.StripTags | flask_app/helpers.py:81 | removing the tag markers never lengthens the text |
| Speakers.Clean | flask_app/helpers.py:81 | definition, no contract of its own: tags removed, then `strip()`; `CleanIsStripped` states that stripping it again changes nothing |
| Speakers.OpenerStripped | flask_app/helpers.py:81 | an opening tag is removed whole |
| Speakers.CloserStripped | flask_app/helpers.py:81 | a closing tag is removed whole |
| Speakers.NoBracketUnstripped | flask_app/helpers.py:81 | a text without `[` is left unchanged |
| Speakers.CleanIsStripped | flask_app/helpers.py:81 | the clean text has no leading or trailing whitespace |
| Speakers.WordCount | flask_app/helpers.py:82 | the number of `split()` tokens; 0 exactly when the clean text is empty |
| Speakers.ChunkEstimate | flask_app/helpers.py:87-88 | `max(1, ceil(chars / chunk_size))`: at least 1, covers every character, and one fewer would not |
| Speakers.CeilingDivision | flask_app/helpers.py:88 | `(n + d - 1) // d` is the ceiling of `n / d` |
| Speakers.Analyze | flask_app/helpers.py:77-98 | speakers are the deduplicated tag names in first-appearance order; the speaker count is their number, or 1 when there are none; the word count is `len(clean.split())` of the tag-stripped, stripped text, so 0 exactly when that text is empty; the chunk count is the ceiling estimate |
| Speakers.Summarise | flask_app/helpers.py:87-95 | the summary fields for given speakers and a clean text: the speakers as given, the speaker count, the word count `len(clean.split())` (0 exactly for empty text) and the ceiling chunk estimate |
| Speakers.Gap | flask_app/worker.py:66-69 | the text before a tag contributes at most one `default` run, and never an empty one |
| Speakers.RunsUpToStep | flask_app/worker.py:65-71 | each match adds its gap run, if any, and then its own run |
| Speakers.ParseSegments | flask_app/worker.py:62-76 | the segment loop returns exactly `Segments(text)` |
| Speakers.Segments | flask_app/worker.py:62-76 | definition, no contract of its own: the speaker runs of a chapter, or one `default` run of the tag-stripped text when there are none; `ParseSegments`, `UntaggedChapterIsOneRun` and `FallbackOnlyForBlank` state this |
| Speakers.CollectRuns | flask_app/worker.py:64-74 | the `finditer` loop with its trailing remainder returns exactly `Runs(text, matches)`, and every run it yields is either a non-empty `default` run or carries a tag name that occurs in the text |
| Speakers.CollectTagged | flask_app/worker.py:64-71 | the loop over the matches returns exactly the runs of all matches and the scan position after the last one; every run is a non-empty `default` run or a tagged run of one of the matches |
| Speakers.TextBefore | flask_app/worker.py:66-69 | the stripped text before a match, as a `default` run when non-empty |
| Speakers.TextAfter | flask_app/worker.py:72-74 | the stripped remainder after the last match, as a `default` run when non-empty |
| Speakers.UntaggedChapterIsOneRun | flask_app/worker.py:72-76 | a chapter without tag pairs is one `default` run of its stripped text |
| Speakers.FallbackOnlyForBlank | flask_app/worker.py:75-76 | the tag-stripping fallback is taken only for blank text, where it yields an empty `default` run |
| Speakers.ClosingNameMustAgree | flask_app/helpers.py:74 | "[a]x[/b]" has no match: the closing name must repeat the opening one |
| Speakers.BodySpansLines | flask_app/helpers.py:74 | a tag body may contain newlines (`DOTALL`) |
| Synthesis.PromptOf | flask_app/worker.py:114 | `audio_prompt_path` if present, else `voice`, else none |
| Synthesis.WorkerPrompt | flask_app/worker.py:113-125 | definition, no contract of its own: the speaker's own prompt, else the `default` assignment's, else the global voice; `OwnPromptWins` and `FallbackOrder` state this |
| Synthesis.LanguageOf | flask_app/worker.py:115 | definition, no contract of its own: the speaker's `lang_code`, else the configured language; `LanguageIgnoresDefault` states that the `default` assignment is never consulted |
| Synthesis.OwnPromptWins | flask_app/worker.py:113-125 | a speaker with its own non-empty prompt gets it, whatever the `default` assignment and the global voice are |
| Synthesis.FallbackOrder | flask_app/worker.py:120-125 | without its own prompt, a speaker gets the `default` assignment's prompt, else the global default voice; it ends with a prompt exactly when one of those is non-empty |
| Synthesis.LanguageIgnoresDefault | flask_app/worker.py:115 | the language comes from the speaker's own assignment only, else the configured default |
| Synthesis.PromptPath | flask_app/worker.py:127-132 | a prompt path is used only for a non-empty prompt whose file exists under the reference directory, and always then |
| Synthesis.JoinPath | flask_app/worker.py:129-130 | definition, no contract of its own: `ref_dir / name`, where an absolute name replaces the directory; `PromptPath` states the prompt file through it |
| Synthesis.Labelled | flask_app/worker.py:81-83 | each chunk of a segment is paired with the segment's speaker, in order |
| Synthesis.ChunkSegments | flask_app/worker.py:78-85 | the nested chunking loop returns exactly `ChunksOf(segments)` |
| Synthesis.ChunksOfAppend | flask_app/worker.py:81-83 | chunking distributes over concatenated segment lists |
| Synthesis.ChunkSpeakers | flask_app/worker.py:81-87 | every chunk comes from a segment with the same speaker; the list is non-empty when any segment yields a chunk |
| Synthesis.Extension | flask_app/worker.py:175 | `mp3`, `wav` or `ogg` is kept; any other format becomes `wav` |
| Synthesis.ChapterFileName | flask_app/worker.py:202 | definition, no contract of its own: `f"{i + 1}.{ext}"`; `DigitsBeforeDot` and `OutputListDistinct` state that different chapters get different names |
| Synthesis.ChapterUrl | flask_app/worker.py:214 | definition, no contract of its own: `f"/outputs/{job_id}/{i + 1}.{ext}"`; `OutputList` states the list of these URLs |
| Synthesis.TestFileName | flask_app/worker.py:185 | definition, no contract of its own: `f"test_{timestamp}_{job_id[:8]}.{ext}"`; `FinishTest` states that the test-pipeline output is written under it |
| Synthesis.OutputList | flask_app/worker.py:212-214 | `n` URLs, the i-th being `/outputs/<job>/<i+1>.<ext>` |
| Synthesis.OutputListDistinct | flask_app/worker.py:212-214 | no two chapters share an output URL |
| Synthesis.NatToStringInjective | flask_app/worker.py:202 | different chapter numbers give different decimal names |
| Synthesis.DigitsBeforeDot | flask_app/worker.py:202 | two names `<digits>.<ext>` with the same extension are equal only when their digits are |
| Synthesis.FlattenAppend | flask_app/worker.py:174 | concatenating parts distributes over joined part lists |
| Synthesis.Zeros | flask_app/worker.py:170 | the padding is `n` zero samples |
| Synthesis.PauseSamplesNonNegative | flask_app/worker.py:167-169 | a positive pause gives a non-negative sample count, and at least one when `sr * ms >= 1000` |
| Synthesis.PauseSamples | flask_app/worker.py:169 | definition, no contract of its own: `int(sr * (pause_ms / 1000.0))`, truncated toward zero; `PauseSamplesNonNegative` states that it is never negative for a positive pause |
| Artifacts.Clamp01 | flask_app/artifacts.py:66-67 | the strength is clamped into `[0, 1]`, and a value inside is kept |
| Artifacts.Trunc | flask_app/artifacts.py:89 | `int()` on a float truncates toward zero |
| Artifacts.MarginSamples | flask_app/artifacts.py:89 | definition, no contract of its own: `int(margin * sample_rate)`, truncated toward zero as `Trunc` states |
| Artifacts.TrimSettings | flask_app/artifacts.py:80-81 | test mode fixes threshold 4.0 and margin 0.2; otherwise both come from the configuration |
| Artifacts.Widen | flask_app/artifacts.py:93-94 | a widened interval lies within `[0, len]` and contains the original one |
| Artifacts.WidenAll | flask_app/artifacts.py:92-94 | every interval is widened and clamped, in order |
| Artifacts.MergeIntervals | flask_app/artifacts.py:88-103 | the merge loop returns exactly `Merge(WidenAll(intervals))` |
| Artifacts.Step | flask_app/artifacts.py:96-103 | definition, no contract of its own: one pass of the merge loop; `StepSeparates` and `StepCovers` state that it keeps the list separated and covers the new interval |
| Artifacts.Merge | flask_app/artifacts.py:92-103 | definition, no contract of its own: the merged list after every interval; `MergeSeparates`, `MergeCovers` and `TrimKeepsFoundSamples` state that the result is separated and covers exactly the samples the widened intervals cover |
| Artifacts.WidenKeepsShape | flask_app/artifacts.py:92-94 | with a non-negative margin, sorted intervals within the audio stay sorted and within it |
| Artifacts.MergeSeparates | flask_app/artifacts.py:96-103 | merged intervals lie within the audio and neither overlap nor touch |
| Artifacts.StepSeparates | flask_app/artifacts.py:99-103 | one merge step keeps the list separated and within the audio |
| Artifacts.MergeCovers | flask_app/artifacts.py:96-103 | merging covers exactly the samples the intervals covered |
| Artifacts.StepCovers | flask_app/artifacts.py:99-103 | one merge step covers the old samples plus those of the new interval |
| Artifacts.SliceIndex | flask_app/artifacts.py:105 | a Python slice bound is normalised into `[0, len]` |
| Artifacts.Slice | flask_app/artifacts.py:105 | `a[s:e]` with in-range bounds is the plain subsequence |
| Artifacts.Joined | flask_app/artifacts.py:105-107 | definition, no contract of its own: `np.concatenate` of the slices; `JoinedWithinLastEnd` states that for separated intervals inside the audio it is no longer than where the last interval ends |
| Artifacts.JoinedWithinLastEnd | flask_app/artifacts.py:105-107 | separated intervals select no more samples than the position where the last one ends |
| Artifacts.Pipeline | flask_app/artifacts.py:29-124 | outside test mode with artifacts disabled, or for empty audio, the audio comes back as is; a transcript exists only when validation runs, and it is of the returned audio |
| Artifacts.ApplyPipeline | flask_app/artifacts.py:29-124 | the staged method returns exactly `Pipeline(...)` |
| Artifacts.NoIntervalsKeepsAudio | flask_app/artifacts.py:88-110 | when `split` finds no interval, the trimmer returns the audio unchanged |
| Artifacts.TestModeFixesTrim | flask_app/artifacts.py:77-115 | in test mode the trimmer always runs with threshold 4.0 and margin 0.2, and no transcription happens |
| Artifacts.ValidationKeepsAudio | flask_app/artifacts.py:115-122 | the transcription never changes the returned audio |
| Artifacts.FailuresKeepAudio | flask_app/artifacts.py:71-112 | when every stage fails, the audio comes back untouched; the pipeline never raises |
| Artifacts.PipelineNoLonger | flask_app/artifacts.py:29-124 | when the denoiser keeps the length, the output is never longer than the input |
| Artifacts.TrimmedNoLonger | flask_app/artifacts.py:76-112 | the trimmer never lengthens the audio |
| Artifacts.TrimKeepsFoundSamples | flask_app/artifacts.py:88-107 | the merged intervals cover exactly the widened found samples, and are separated and within the audio |
| Routes.ChapterCount | flask_app/routes.py:118 | `len(chapters) if chapters else 1`: at least 1 |
| Routes.FirstLineTitle | flask_app/routes.py:105-106 | the fallback, or a non-empty stripped title of at most 50 characters with no newline |
| Routes.Title | flask_app/routes.py:103-106 | the stripped given title when non-empty, else the first-line title with fallback "Brak nazwy projektu"; never empty |
| Routes.Enqueue | flask_app/routes.py:128-129 | one task per chapter index `0..n-1`, in ascending order |
| Routes.Generate | flask_app/routes.py:93-132 | 400 "Tekst jest pusty" when there are no chapters and the stripped text is empty; 500 with no change when the id exists; otherwise the fresh queued row, one task per chapter, and the active count including the new job |
| Routes.Pause | flask_app/routes.py:164-170 | 404 exactly for an unknown job; otherwise only that row's status becomes `paused` |
| Routes.Resume | flask_app/routes.py:173-179 | 404 exactly for an unknown job; otherwise the status becomes `processing`, whatever it was |
| Routes.Cancel | flask_app/routes.py:182-188 | 404 exactly for an unknown job; otherwise the status becomes `cancelled` |
| Routes.Delete | flask_app/routes.py:191-201 | 404 exactly when no row was removed; the row goes and the chapter rows stay |
| Routes.Serve | flask_app/routes.py:164-201 | serving a control request leaves the jobs table as `Controlled(old, id, request)` |
| Routes.Controlled | flask_app/routes.py:164-201 | definition, no contract of its own: the job rows after a pause, resume, cancel or delete; `Serve` states that each route leaves exactly this, and `ControlKeepsCounter` that no request touches the completed-chapter counter |
| Routes.ControlKeepsCounter | flask_app/routes.py:164-201 | no control request changes the completed-chapter counter; only delete removes a row, and only its own |
| Worker.Observe | flask_app/worker.py:97-98 | a store read first serves the next scheduled request, if any |
| Worker.Next | flask_app/worker.py:97-98 | definition, no contract of its own: the rows after the next concurrent request of the schedule; `Observe` states that serving the request leaves them |
| Worker.WorkerFieldsKeep | flask_app/worker.py:28-227 | the worker never writes the title, total chapters, assignments or chapters of a job |
| Worker.StartFields | flask_app/worker.py:37 | the first write sets status `processing`, start time, worker name and chapter number |
| Worker.ChapterFields | flask_app/worker.py:60 | the second write sets the chapter number and status `processing` |
| Worker.CountFields | flask_app/worker.py:89 | the chunk-total write does not touch the status |
| Worker.ChunkFields | flask_app/worker.py:110 | the per-chunk write sets status `processing` and the chunk number |
| Worker.CompletionReadBack | flask_app/worker.py:216-222 | after the finalising write the row reads back as completed, progress 100, with the given output files |
| Worker.CompletionUpdate | flask_app/worker.py:216-222 | the finalising write changes no other job, keeps the counter, and the job reads back completed with its files |
| Worker.CancelAfterLastReadOverwritten | flask_app/worker.py:173-222 | as written: the final writes read no status, so a cancel served after the last chunk gate is overwritten, and the job reads back completed with all output files |
| Worker.FailureWritten | flask_app/worker.py:226 | the failure write sets status `failed` and the exception text |
| Worker.CancelledJobRestarts | flask_app/worker.py:37-58 | as written: a job cancelled before pickup passes the cancel check as `processing`, and its first chunk gate lets it through |
| Worker.StartAsWritten | flask_app/worker.py:37-58 | as written: the `processing` write, one concurrent request, then the cancel check; the run goes on only for a job that was there and is not cancelled after the write, and no other job changes |
| Worker.Start | flask_app/worker.py:31-58 | corrected start (Findings, worker.py:37-58): a job cancelled at pickup is left exactly as it is and the run stops; a run goes on only for a job not cancelled at pickup nor after the write; no other job changes |
| Worker.StartAgreesUnlessCancelled | flask_app/worker.py:31-58 | the corrected start equals `StartAsWritten` for every job that is missing or not cancelled at pickup |
| Worker.PausePollAsWritten | flask_app/worker.py:101-108 | as written: the poll leaves for a job that is there and not paused, whether or not it is cancelled; stops only on a missing job; stalls on a paused job when the schedule runs out |
| Worker.ChunkGateAsWritten | flask_app/worker.py:96-108 | as written: the cancel check, then the poll as written; it goes on with a job that is not paused, possibly cancelled, and stops on a missing or cancelled job |
| Worker.PausePollWithoutCancel | flask_app/worker.py:101-108 | on a job not cancelled and a schedule with no cancel request, the corrected poll and the poll as written give the same decision, rows and remaining schedule |
| Worker.ChunkGateWithoutCancel | flask_app/worker.py:96-108 | on every schedule with no cancel request, the corrected gate and the gate as written agree |
| Worker.PausePoll | flask_app/worker.py:101-108 | corrected pause poll (Findings, worker.py:101-111): the poll goes on only with a job that is there and neither paused nor cancelled, stops on a missing or cancelled job, stalls on a paused job when the schedule runs out, and changes no other job; the source loop leaves on any status but `paused` (`PausePollAsWritten`) |
| Worker.ChunkGate | flask_app/worker.py:96-108 | corrected pause poll (Findings, worker.py:101-111): the cancel check then the pause poll; with no concurrent request, a processing job goes on unchanged |
| Worker.CancelWhilePausedIsLost | flask_app/worker.py:101-111 | as written: pause then cancel lets the poll exit on `cancelled`, and the chunk write puts `processing` back; the corrected gate halts |
| Worker.Await | flask_app/worker.py:96-108 | corrected pause poll (Findings, worker.py:101-111): the store after the gate is exactly `ChunkGate(...)` of the old store |
| Worker.ChapterSource | flask_app/worker.py:47-50 | the job's text when there are no chapters; an `IndexError` exactly when the chapter index is past the list |
| Worker.ChapterChunks | flask_app/worker.py:47-87 | definition, no contract of its own: dictionary, speaker runs, then sentence chunks; `ReadChapter` states that the worker's loop builds exactly these, and `HealthyChapter` that a healthy engine gives at least one |
| Worker.Padding | flask_app/worker.py:166-171 | no padding for a non-positive pause; otherwise one run of zeros |
| Worker.ChunkAudio | flask_app/worker.py:113-171 | definition, no contract of its own: one chunk's parts and sample rate, or the message of the exception raised by the engine or by `time_stretch` (lines 150-151); `ProduceStep` and `ReadChunk` state how each chunk extends the parts |
| Worker.Produce | flask_app/worker.py:95-171 | definition, no contract of its own: the parts of all chunks, or the first exception; `ProduceOutcome`, `ProduceFailure` and `ProduceLength` state when it fails and how many parts it gives |
| Worker.ProduceStep | flask_app/worker.py:95-171 | each chunk adds its audio and padding, or stops the chapter with its exception |
| Worker.ProduceOutcome | flask_app/worker.py:134-171 | chunk synthesis fails exactly when some chunk raises, in the engine or in `time_stretch`, with the first such chunk's message; otherwise one part per voiced chunk, two with padding |
| Worker.ProduceFailure | flask_app/worker.py:134-171 | chunk synthesis fails exactly when some chunk raises, in the engine or in `time_stretch`, and then with the message of the first chunk that raises |
| Worker.ProduceLength | flask_app/worker.py:144-171 | a successful synthesis holds one part per voiced chunk, two when a pause follows each part |
| Worker.ProduceErrPersists | flask_app/worker.py:95-171 | once a chunk has raised, later chunks change nothing |
| Worker.HealthyChapter | flask_app/worker.py:78-87 | with a chunker that always yields chunks, no chapter is empty |
| Worker.HealthyProduce | flask_app/worker.py:95-171 | with an engine that always yields audio and a time-stretch that never raises, every chapter produces audio |
| Worker.Begin | flask_app/worker.py:31-60 | as written: an `IndexError` exactly for an index past the chapter list; a stop only for a missing or cancelled job; otherwise the normalised chapter text and status `processing`; for a chapter that exists, whether it goes on and the rows it leaves are those of `StartAsWritten` (then the second `processing` write) |
| Worker.ReadChunk | flask_app/worker.py:96-171 | corrected pause poll (Findings, worker.py:101-111): one chunk: a stop on cancel, a suspension while paused, its exception, or its audio with the chapter row at `i + 1` of `total` |
| Worker.SynthesizeChunks | flask_app/worker.py:92-171 | corrected pause poll (Findings, worker.py:101-111): the chunk loop returns exactly the parts `Produce` computes, or the first exception, or a cancel or pause stop |
| Worker.Finish | flask_app/worker.py:173-222 | no audio leaves the store unchanged; otherwise the test output, a counted chapter, or the write error |
| Worker.FinishTest | flask_app/worker.py:177-199 | the test file name from timestamp and id prefix; the job completed with that one file; the chapter row completed; the counter untouched |
| Worker.FinishChapter | flask_app/worker.py:201-222 | the chapter file `<i+1>.<ext>`; the counter up by one; finalised with the full ordered output list exactly when the count reaches the chapter total |
| Worker.Fail | flask_app/worker.py:224-227 | the job becomes `failed` with the message; the chapter row becomes `failed` with zero chunks |
| Worker.ProcessChapter | flask_app/worker.py:28-227 | corrected start and pause poll (Findings, worker.py:37-58 and 101-111): missing job means no change; a job cancelled at pickup is left untouched; the counter rises by one exactly for a counted chapter; only this chapter's row changes |
| Worker.Attempt | flask_app/worker.py:35-227 | corrected pause poll (Findings, worker.py:101-111): the body inside the exception handler: every exit's effect on the job and chapter rows, and success with no concurrent requests and a healthy engine |
| Worker.Run | flask_app/worker.py:39-222 | corrected pause poll (Findings, worker.py:101-111): the same as `Attempt`, before the exception handler |
| Worker.ReadChapter | flask_app/worker.py:62-85 | the chunks of the normalised chapter text are `ChapterChunks` |
| Worker.Chapter | flask_app/worker.py:85-222 | corrected pause poll (Findings, worker.py:101-111): the chapter from its chunk list on |
| Worker.Voice | flask_app/worker.py:89-222 | corrected pause poll (Findings, worker.py:101-111): the chapter from its chunk-count write on |
| Worker.Prepare | flask_app/worker.py:89-90 | writes the chunk total and opens the chapter row as `processing` at chunk 0 |
| Worker.CountChapter | flask_app/worker.py:28-222 | corrected start and pause poll (Findings, worker.py:37-58 and 101-111): a healthy, uncancelled chapter raises the counter by one and completes its row |
| Worker.CompleteChapter | flask_app/worker.py:205-222 | the k-th finisher sees count `k+1` and finalises exactly when that is the total |
| Worker.RunJob | flask_app/worker.py:207-222 | corrected start and pause poll (Findings, worker.py:37-58 and 101-111): chapter tasks run in any order: exits `ChapterDone(1..n-1)` then `Finalised(n)`; the job ends completed with the full ordered output list; every chapter row completed |
| Worker.FanIn | flask_app/worker.py:207-222 | the fan-in loop keeps its invariant for any completion order, and the exits are `FanInExits(n, n)` |
| Worker.FanInExitsAt | flask_app/worker.py:210-222 | only the n-th completion finalises |
| Worker.FanInStep | flask_app/worker.py:208-222 | one completion raises the count by one and finalises with the output list at the last one |
| Worker.RowsCompleted | flask_app/worker.py:207 | completed chapter rows stay completed as other chapters finish |
| Worker.EveryChapterCompleted | flask_app/worker.py:207 | when every task has finished, every chapter row is completed |
| LocalApp.FlagsOf | app.py:221 | a job without a flags entry reads as neither cancelled nor paused |
| LocalApp.Generate | app.py:404-440 | the request as `Inserted` describes it (400 on empty input; otherwise the fresh row titled from the first line, else "Bez tytułu", and the active count); on success the job's flags start cleared, and nothing else changes |
| LocalApp.Insert | app.py:406-429 | the stripped text and the chapters: 400 "Tekst jest pusty" when both are empty, 500 on a clashing id, otherwise exactly one new row with the computed title, chapter count and `split_by_chapter`, and the active count after it |
| LocalApp.Runtime.Register | app.py:432-433 | the new job's flags are `_cancel` and `_paused` both false; every other job's flags are kept |
| LocalApp.Pause | app.py:469-478 | 404 exactly for an unknown job; otherwise only `_paused` is set |
| LocalApp.Resume | app.py:481-490 | 404 exactly for an unknown job; otherwise only `_paused` is cleared |
| LocalApp.Cancel | app.py:493-503 | 404 exactly for an unknown job; otherwise `_cancel` is set and `_paused` cleared |
| LocalApp.Delete | app.py:506-517 | 404 exactly when no row was removed; the row and the flags entry are gone |
| LocalApp.Serve | app.py:469-517 | serving a request is `Requested(old jobs, old flags, id, request)` |
| LocalApp.RequestConfined | app.py:469-517 | a request touches only its own job's row and flags, and only delete changes the row |
| LocalApp.CancelSticks | app.py:493-503 | after a cancel the flags read cancelled and not paused; a set cancel survives everything but delete |
| LocalApp.Texts | app.py:200-210 | one normalised text per chapter, or the whole normalised text when there are no chapters |
| LocalApp.AppPrompt | app.py:279-288 | definition, no contract of its own: the speaker's own prompt only; `NoDefaultVoice` states where it differs from the chapter worker |
| LocalApp.Part | app.py:289-303 | definition, no contract of its own: one chunk's part: its waveform, nothing, or the exception's message |
| LocalApp.Parts | app.py:260-303 | definition, no contract of its own: the parts of all chunks in order, or the first exception; `PartsStep` and `PartsErrPersists` state how it grows and that an exception ends it |
| LocalApp.NoDefaultVoice | app.py:279-288 | unlike the chapter worker, a speaker without its own prompt gets none, even when a `default` assignment has one |
| LocalApp.PartsStep | app.py:260-303 | each chunk adds its waveform, nothing without one, or stops with its exception |
| LocalApp.PartsErrPersists | app.py:260-303 | once a chunk has raised, later chunks change nothing |
| LocalApp.CollectStep | app.py:309-317 | a chapter that wrote a file adds its index, a silent one adds nothing, an exception stops the job |
| LocalApp.CollectInOrder | app.py:218-317 | the written chapter indices are strictly ascending, and an index is present exactly when that chapter wrote a file |
| LocalApp.CollectErrPersists | app.py:218-317 | once a chapter has raised, later chapters change nothing |
| LocalApp.OutputsNamed | app.py:309-317 | output indices ascend, and chapters without chunks or audio are skipped without renumbering |
| LocalApp.Outputs | app.py:218-317 | definition, no contract of its own: the chapters that wrote a file, or the first exception; `OutputsNamed` and `CollectInOrder` state that they are in chapter order |
| LocalApp.Urls | app.py:317 | one `/outputs/<job>/<k+1>.<ext>` URL per written chapter |
| LocalApp.Verdict | app.py:309-329 | definition, no contract of its own: a crash on an exception, no audio for an empty list, otherwise the URL list; `ProcessJob` states that the run ends with it |
| LocalApp.ProgressGrows | app.py:306-307 | progress never decreases within a chapter and stays within 0..99 |
| LocalApp.ProgressCappedAtEnd | app.py:306-307 | the last chunk computes 100 and is written as 99 |
| LocalApp.ProgressAt | app.py:306-307 | definition, no contract of its own: `min(int((ch_idx * total_chunks + i + 1) / (total_chapters * total_chunks) * 100), 99)` in integer arithmetic; `ProgressGrows` and `ProgressCappedAtEnd` state that it stays in 0..99, never decreases from one chunk to the next and reaches 99 at the last chunk |
| LocalApp.Observe | app.py:220-221 | a flags read first serves the next scheduled request, if any |
| LocalApp.Gate | app.py:269-275 | the pause spin: passes only when not paused; a job still paused when the schedule ends shows `paused` |
| LocalApp.ReadChunk | app.py:260-307 | one chunk: a cancel stop exactly when `_cancel` is set, the pause gate, its exception, or its audio with status `processing` and the capped progress |
| LocalApp.ReadChunks | app.py:260-307 | the chunk loop returns exactly `Parts(...)`, or a cancel, pause or exception stop |
| LocalApp.EnterChapter | app.py:219-226 | stops, writing `cancelled`, exactly when `_cancel` is set; otherwise writes the chapter number and `processing` |
| LocalApp.SplitChapter | app.py:228-249 | the chunks of a chapter text are its speaker runs cut into sentence chunks |
| LocalApp.ChapterAudio | app.py:251-317 | a chapter without chunks or audio is skipped, and one with audio writes its file |
| LocalApp.Chapter | app.py:218-317 | one chapter: a stop, a skip or a written file, as `ChapterOutcome` says |
| LocalApp.Chapters | app.py:218-317 | the chapter loop returns exactly `Outputs(...)`, or a cancel, pause or exception stop |
| LocalApp.ChapterTexts | app.py:203-210 | the loop that applies the dictionary returns exactly `Texts(...)` |
| LocalApp.Work | app.py:193-333 | the whole run: `cancelled`, `failed` with the no-audio message, `failed` with the exception text, or `completed` with progress 100 and the ordered output list |
| LocalApp.StartWork | app.py:194-212 | writes `processing`, the start time and the chapter total, and returns the normalised texts |
| LocalApp.FailJob | app.py:319-321 | `status="failed"` and the error message on this job's row only; every other row and column stays |
| LocalApp.CompleteJob | app.py:323-329 | writes the output list, `completed`, progress 100 and the completion time |
| LocalApp.CompletionUpdated | app.py:323-329 | the completion write changes only those four columns of that row |
| LocalApp.ProcessJob | app.py:187-348 | as written: a missing job returns before the `try`, so its flags entry stays; every other exit except a suspension pops it |
| LocalApp.ProcessJobCorrected | app.py:187-348 | corrected: the flags entry is dropped on every exit except a suspension, the missing-job return included |
| LocalApp.DeleteBeforeFlags | app.py:187-191 | a delete that lands between `db_create_job` and the flags write: the thread finds no job, and the flags entry stays exactly when the thread is the one as written |

## Left out

- Text.Fold: `\w` and the `IGNORECASE` folding cover only U+0000..U+017F: ASCII, Latin-1 and Latin Extended-A, plus the pairs İ/ı and ſ. Python's `re` covers all of Unicode.
- Json.ReadAssignments: the values of `voice_assignments` are maps of string to string. The source stores any JSON value there.
- Json.EncodeObject: `json.dumps` writes object keys in insertion order. The model writes them in `Text.OrderedKeys` order. The stored text can differ, but it decodes to the same map.
- Artifacts.MarginSamples: `int(margin * sample_rate)` is computed over exact reals, not IEEE floats. Float rounding can give one sample less: `0.29 * 100` is 28 in Python and 29 here.
- Synthesis.PauseSamples: the same holds for `int(sr * (pause_ms / 1000.0))`.
- LocalApp.ProgressAt: `int(a / b * 100)` is computed as the exact floor `a * 100 // b`. Float rounding can make Python's value one lower.
- Worker.Await: the source polls a paused job every second without end. The model stops when the schedule of concurrent requests runs out, with the exit `Suspended`.
- LocalApp.Gate: the same for the 0.5-second pause spin of `_process_job`, which rewrites `paused` on every turn.
- Database.Store.IncrementCompletedChapters: the UPDATE and the SELECT that follows it are one step here. In the source another worker's increment can fall between them, so two workers may both read the final count and both finalise the job.
- Worker.FanIn: chapter tasks run one after another here. Parallel RQ workers, whose store writes interleave at the level of single statements, are not modelled.
- Speakers.Analyze: `chapter_count` (the heading expression, including a caller-supplied heading) and `estimated_duration` (a rounded float) are not computed.
- Worker.ChapterChunks: `utils.chunk_text_by_sentences` is the parameter `Engine.chunker`, and its output is taken as given.
- Worker.ChunkAudio: time-stretching (whose exception is `Engine.stretch` returning `Err`), RNNoise, `librosa.effects.split` and Whisper are parameters, and the audio encoder and file writes are the parameter `Engine.write`. Samples are integers, not float32.
- Worker.ProcessChapter, Worker.Attempt, Worker.Run, Worker.Chapter, Worker.Voice: requests that arrive in a window with no status read are not modelled. These windows are between the check at flask_app/worker.py:56-58 and the write at line 60, between the poll at line 102 and the write at line 110, and from the last chunk gate to the final writes at lines 173-222. In the source, a cancel or pause in the last window of the final chapter is overwritten with `completed` at lines 216-222 (`Worker.CancelAfterLastReadOverwritten`). On any other chapter the worker ends with the job `cancelled` or `paused`. The `Worker.Outcome` clause that a finished chapter leaves the job `processing` holds only because of this abstraction.
- Worker.ProcessChapter: the VRAM cleanup in `finally`, logging, `mkdir` and `config_manager.load_config()` are left out. They have no effect on the store.
- Database.Store: `db_get_jobs`, which lists jobs by creation time, and `db_get_dictionary` are not separate members. Readers use the `jobs` and `dictionary` fields directly. `init_db` and the connection handling are left out.
- Routes.Generate: the Redis connection and the RQ queue are the returned task list. Request parsing and the defaults of `data.get` are the caller's parameters. The job id is a parameter instead of `uuid4`.
- LocalApp.Generate: the thread start is the separate call `LocalApp.ProcessJob`.
- Routes.Delete: removing the job's output directory is file-system work and is left out. The same holds for `LocalApp.Delete`.
- worker_chapters.py is not part of this model.

## Findings

| source | as written | input that shows it | evidently intended | confidence | as-written member | corrected member |
|---|---|---|---|---|---|---|
| flask_app/worker.py:37-58 | The first update writes `status="processing"` unconditionally. The cancellation check at lines 55-58 then reads back `processing`. | A job cancelled while still queued, whose chapter task is then picked up. The chapter runs, can raise the counter and can complete the job. | A job cancelled before pickup stays cancelled, and its chapter is not processed. | not executed | Worker.CancelledJobRestarts | Worker.ProcessChapter |
| flask_app/worker.py:101-111 | The pause poll leaves on any status other than `paused`, `cancelled` included. Line 110 then writes `processing` again and synthesises the chunk. | A processing job is paused, and then cancelled while the worker polls. | A cancel seen in the pause poll stops the chapter, as the check at lines 96-99 does. | not executed | Worker.CancelWhilePausedIsLost | Worker.Await |
| app.py:189-191 | The missing-job `return` comes before the `try`, so the `finally` at lines 346-348 does not run. The job's `job_flags` entry stays. | The whole of `api_delete_job` runs after `db_create_job` (lines 418-429) and before the flags are set (lines 432-433). Its `pop` at lines 515-516 finds no entry, the flags write then adds one, and the thread finds no row. A delete that lands after the flags write pops the entry itself. Pause, resume and cancel of a missing row answer 404 and add no flags. | The flags entry is removed on every exit. The impact is low: one small dictionary entry leaks per such job. | not executed | LocalApp.ProcessJob | LocalApp.ProcessJobCorrected |
