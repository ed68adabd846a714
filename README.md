# new-asr-service, modelled in Dafny

A model of the core of an audio speech-recognition service and proofs about it. The service:

1. downloads an audio file to a path derived from the MD5 of its URL;
2. cuts it into fixed-size, possibly overlapping segments, with a short-tail merge rule;
3. transcribes each segment with a Whisper model in a thread pool;
4. concatenates the per-segment results in submission order, sorting the keys inside each result by the number in the file name.

As written, step 3 fails: `do_transcription` calls `transcribe_segment` without its `options` argument (service.py:56), so every task raises TypeError and no offset is ever computed. The corrected `Assembly.HandleAsrTask` passes each segment its own offset and shifts the fragment times by it; that rebasing exists only in the correction (see Findings).

The model also covers the part of the Whisper tokenizer wrapper that does not call into the foreign `tokenizers` library.

The files:

- `wrappers.dfy` (module `Wrappers`): `Option` and `Result`.
- `text.dfy` (module `Text`): decimal rendering and parsing, the POSIX path helpers `basename`, `dirname` and `splitext`, `str.strip` and substring search.
- `segmenter.dfy` (module `Segmenter`, from `split_audio_files.py`):
  - the planning loop as a method, proved against the specification function `Plan`;
  - the plan's closed form, with lemmas on starts, lengths, count, coverage and the merge rule;
  - segment file naming;
  - the `RequestData` class.
- `transcriber.py` → `transcriber.dfy` (module `Transcription`):
  - the options record;
  - the `Transcriber` class and its constructor constants;
  - the rebasing loop of `transcribe_segment`, proved against `Rebased`.
- `lib/faster_whisper/tokenizer.py` → `tokenizer.dfy` (module `WhisperTokenizer`). The tokenizer is a value, because its fields never change after `__init__`. Modelled:
  - constructor validation;
  - the special token ids and `sot_sequence`;
  - the `decode` filter;
  - the grouping loop of `decode_with_timestamps`;
  - the three word splitters, each a loop method proved against a specification function;
  - `get_char_lang` against `_UNICODE_RANGE`.
- `service.py` → `assembly.dfy` (module `Assembly`):
  - `extract_number`;
  - the stable key sort and `sort_and_concat_numeric_keys` as nested loops;
  - collecting the futures in submission order;
  - the download path;
  - the two defects of `handle_asr_task` (see Findings), as written;
  - `handle_asr_task` with those defects corrected.

Foreign capabilities become parameters:

- the speech model is a function from a request to fragments;
- the tokenizer backend is a pair of functions (`token_to_id`, `decode`);
- MD5 is a function from string to string;
- the file-existence test is a predicate;
- the probed duration is an integer;
- an existing segment listing is an `Option`;
- the order in which pool tasks finish is a sequence of task indices.

## Model

| member | source | states |
|---|---|---|
| Text.NatToString | split_audio_files.py:71 | `f"{index}"` is a non-empty string of decimal digits |
| Text.DigitsValueOfNatToString | service.py:38 | `int(str(n)) == n` |
| Text.NatToStringInjective | split_audio_files.py:71 | distinct indices render to distinct digit strings |
| Text.Basename | service.py:58 | the result is the suffix of the path after its last `/` and contains no `/` |
| Text.Dirname | split_audio_files.py:52 | the directory is a prefix of the path: empty when the path has no `/`; otherwise non-empty, ending at or before the last `/`, with only `/` between its end and that `/`; it ends in `/` only for an all-slash head |
| Text.DirnameOfJoin | split_audio_files.py:52 | the directory of `dir + "/" + name` is `dir`, for a non-empty `dir` not ending in `/` and a `name` without `/` |
| Text.Extension | split_audio_files.py:56 | the suffix is empty or starts with `.`, is a suffix of the path, and has no `/`; a non-empty suffix starts at the last `.`, which lies after the last `/` with a non-dot character between them; an empty one, when such a `.` exists, means only dots precede it in the last component |
| Text.ExtensionOfName | split_audio_files.py:56 | the extension of `stem + "." + ext` is `"." + ext`, when `ext` has no `.` or `/` and the stem's last component has a non-dot character |
| Text.BasenameOfJoin | service.py:58 | the basename of `dir + "/" + name` is `name` when `name` has no `/` |
| Text.StripStart | lib/faster_whisper/tokenizer.py:203 | `strip()` removes exactly the leading run of whitespace |
| Text.StripEnd | lib/faster_whisper/tokenizer.py:203 | `strip()` removes exactly the trailing run of whitespace |
| Text.IsSubstringAt | lib/faster_whisper/tokenizer.py:203 | Python's `a in b` on strings holds iff `a` occurs in `b` at some position |
| Segmenter.PlanFrom | split_audio_files.py:61-74 | the windows `range(i, duration, sd)` yields from `i` on, for either sign of `sd`; the merged window ends the walk |
| Segmenter.FloorMod | split_audio_files.py:58 | Python's `%`: the remainder lies in `[0, b)` for a positive divisor and in `(b, 0]` for a negative one |
| Segmenter.FloorModCongruent | split_audio_files.py:58 | the remainder differs from the dividend by a multiple of the divisor |
| Segmenter.Plan | split_audio_files.py:57-75 | the windows of one file, with the merge flag computed before the loop |
| Segmenter.PlanFromClosedForm | split_audio_files.py:61-74 | from offset `m*sd`, the loop emits exactly the closed-form windows `m, m+1, …` |
| Segmenter.PlanClosedForm | split_audio_files.py:57-74 | the plan has `ClipCount` windows; window k starts at `k*sd`; its length is `sd+overlap`, or `sd+100` for a merged last window |
| Segmenter.PlanFromStartsInRange | split_audio_files.py:61 | starts emitted from `i` lie in `[i, duration)` and strictly increase |
| Segmenter.PlanStarts | split_audio_files.py:61 | start offsets are exactly `0, sd, 2sd, …`, for either sign of `sd` |
| Segmenter.PlanFromDescending | split_audio_files.py:61-72 | with a negative step the walk from `i` yields `i, i+sd, …` while above `duration`, every window of length `sd+overlap`; none when `i <= duration` |
| Segmenter.PlanNegativeStep | split_audio_files.py:57-72 | a negative `sd` always sets the merge flag yet never merges; window k is `(k*sd, sd+overlap)` above `duration`; a non-negative duration gives no clip |
| Segmenter.PlanStartsInRange | split_audio_files.py:61 | starts lie in `[0, duration)` and strictly increase; a non-positive duration gives no clip |
| Segmenter.PlanLengths | split_audio_files.py:63-72 | every clip but the last has length `sd+overlap`; the last has `sd+100` exactly when the merge fires, whatever the overlap |
| Segmenter.PlanCount | split_audio_files.py:57-74 | the merge fires iff the flag is set, the remainder is non-zero and `duration > sd`; the count is `ceil(duration/sd)`, minus one when it fires |
| Segmenter.PlanCoversDuration | split_audio_files.py:61-72 | with `overlap >= 0` the last clip reaches `duration` |
| Segmenter.ShortTailExample | split_audio_files.py:58-68 | 650 s at 600 s gives one 700 s clip |
| Segmenter.NoSpuriousMergeExample | split_audio_files.py:58-63 | a 100 s remainder is not merged: three nominal clips |
| Segmenter.ClipsFor | split_audio_files.py:66-72 | one `create_clip` call per window |
| Segmenter.SegmentFiles | split_audio_files.py:65-74 | n segment paths |
| Segmenter.SegmentFilesIndex | split_audio_files.py:71-74 | the k-th returned path is `{dir}/segments/{k}{suffix}`: the index is dense and in emission order |
| Segmenter.ClipsForAppend | split_audio_files.py:72-74 | emitting one more window appends one `create_clip` call, written to the next index |
| Segmenter.SegmentFileNaming | split_audio_files.py:71 | a segment file's basename is `{index}{suffix}`; distinct indices give distinct files |
| Segmenter.SegmentPathInjective | split_audio_files.py:71 | in one directory with one suffix, distinct indices name distinct files |
| Segmenter.EmitSegments | split_audio_files.py:61-74 | the loop returns the segment paths and clips of exactly the planned windows, indexed densely, for either sign of `sd` |
| Segmenter.FreshSplit | split_audio_files.py:52-75 | one segment file per planned window, path k being that of index k, and one `create_clip` call per window with its start and length |
| Segmenter.FreshSplitIndex | split_audio_files.py:71-74 | the k-th path of a first run is the segment file of index k |
| Segmenter.ListedSegments | split_audio_files.py:53-54 | a reused directory returns `{dir}/segments/{entry}` for each listing entry |
| Segmenter.ListedSegmentsNames | split_audio_files.py:54 | one path per listing entry, and each path's basename is its entry |
| Segmenter.SplitAudioFileIntoSegments | split_audio_files.py:47-75 | an existing directory returns its listing with no clip; `sd == 0` raises ZeroDivisionError; any other `sd`, negative included, returns `FreshSplit` |
| Segmenter.RequestData.constructor | split_audio_files.py:11-14 | all three fields start as None |
| Segmenter.RequestData.ParseFromRequestJson | split_audio_files.py:16-19 | the keys are copied in order; the first missing key raises KeyError and leaves the earlier fields set |
| Segmenter.Run | split_audio_files.py:78-81 | on the request's path, segment duration and overlap: the listing of an existing directory with no clip; ZeroDivisionError for a zero duration; otherwise `FreshSplit` |
| Transcription.Rebased | transcriber.py:41-43 | one output fragment per input fragment |
| Transcription.RebasedAt | transcriber.py:43 | fragment k is shifted by the offset, with its text unchanged |
| Transcription.RebasedAppend | transcriber.py:41-43 | rebasing distributes over concatenation |
| Transcription.RebasedCompose | transcriber.py:43 | two shifts equal one shift by their sum |
| Transcription.RebasedZero | transcriber.py:43 | a zero offset changes nothing |
| Transcription.RebasedInverse | transcriber.py:43 | shifting back recovers the model's own times |
| Transcription.Transcriber.constructor | transcriber.py:17-25 | device and compute type follow CUDA availability; fixed prompts; threshold -0.7 |
| Transcription.Transcriber.RequestFor | transcriber.py:30-39 | the option fields pass to the model unmodified; prompts and threshold come from the constructor |
| Transcription.Transcriber.TranscribeSegment | transcriber.py:28-43 | one result per model segment, in order; start and end shifted by the offset; text carried through |
| WhisperTokenizer.CharLang | lib/faster_whisper/tokenizer.py:243-277 | the script of a code point: the first block, in the source's test order, that holds it; `other` when none does (its contract is stated by the three lemmas below) |
| WhisperTokenizer.CharLangInTable | lib/faster_whisper/tokenizer.py:243-277 | a non-`other` answer lies in one of that script's `_UNICODE_RANGE` blocks |
| WhisperTokenizer.CharLangOther | lib/faster_whisper/tokenizer.py:243-277 | `other` is answered exactly for code points outside every block of the table |
| WhisperTokenizer.CjkIsChinese | lib/faster_whisper/tokenizer.py:246-247 | U+4E00–U+9FFF is `zh`, although the `ja` table also lists it |
| WhisperTokenizer.NewTokenizer | lib/faster_whisper/tokenizer.py:13-45 | construction succeeds iff not multilingual or task and language are valid; the task name is checked first; ids are the backend's; non-multilingual means no ids and `"en"` |
| WhisperTokenizer.SotSequence | lib/faster_whisper/tokenizer.py:79-89 | starts with sot; length 1 to 3; the language token then the task token appended only when present |
| WhisperTokenizer.SotSequenceShape | lib/faster_whisper/tokenizer.py:26-45 | a constructed tokenizer has both ids iff multilingual, and neither otherwise |
| WhisperTokenizer.TimestampBegin | lib/faster_whisper/tokenizer.py:75-77 | the id after the no-timestamps special token (a definition; `Grouped`, `GroupedShape` and `DecodeWithTimestamps` state what it does) |
| WhisperTokenizer.Decode | lib/faster_whisper/tokenizer.py:94-96 | the backend's decoding of the tokens below eot (a definition; `TextTokens` and its lemmas state the filter) |
| WhisperTokenizer.TextTokens | lib/faster_whisper/tokenizer.py:95 | the filtered tokens are all below eot and no more than the input |
| WhisperTokenizer.TextTokensAppend | lib/faster_whisper/tokenizer.py:95 | filtering distributes over concatenation, so input order is kept |
| WhisperTokenizer.TextTokensCount | lib/faster_whisper/tokenizer.py:95 | each token below eot survives as often as it occurs; no other token survives |
| WhisperTokenizer.TextTokensAllText | lib/faster_whisper/tokenizer.py:95 | an all-text input is kept whole |
| WhisperTokenizer.TextTokensIdempotent | lib/faster_whisper/tokenizer.py:95 | filtering twice is filtering once |
| WhisperTokenizer.Grouped | lib/faster_whisper/tokenizer.py:99-107 | the outputs list starts and ends with a token list |
| WhisperTokenizer.UngroupGrouped | lib/faster_whisper/tokenizer.py:99-107 | the grouped pieces stand for exactly the input tokens, in order |
| WhisperTokenizer.GroupedShape | lib/faster_whisper/tokenizer.py:99-107 | token lists and timestamps alternate; token lists hold only tokens below timestamp_begin |
| WhisperTokenizer.TwoDigits | lib/faster_whisper/tokenizer.py:103 | two decimal digits whose value is n |
| WhisperTokenizer.TimestampText | lib/faster_whisper/tokenizer.py:103 | the text opens with the two-character marker `<` + bar and closes with bar + `>`, with a `.` before its two final digits |
| WhisperTokenizer.TimestampTextValue | lib/faster_whisper/tokenizer.py:103 | the timestamp text reads back as `2*index` hundredths of a second |
| WhisperTokenizer.JoinPieces | lib/faster_whisper/tokenizer.py:108-111 | `"".join` over the pieces' texts, in order (a definition) |
| WhisperTokenizer.DecodedWithTimestamps | lib/faster_whisper/tokenizer.py:98-111 | the joined text of the grouped pieces (a definition; `DecodeWithTimestamps` is proved against it) |
| WhisperTokenizer.DecodeWithTimestamps | lib/faster_whisper/tokenizer.py:98-111 | the loop builds the grouped pieces; the result is their joined text |
| WhisperTokenizer.IndexOf | lib/faster_whisper/tokenizer.py:176-180 | the first occurrence of the character, or -1 where `str.index` raises |
| WhisperTokenizer.UnicodeStep | lib/faster_whisper/tokenizer.py:173-189 | the pending run plus the token is flushed exactly when the flush test holds for its decoding at the current offset (no U+FFFD, or one that the full decoding also has there); a flush appends that decoding as a word and the run as its group and advances the offset by the word's length; otherwise the token joins the pending run and nothing else changes |
| WhisperTokenizer.UnicodeRun | lib/faster_whisper/tokenizer.py:172-189 | as many groups as words; groups plus pending tokens number no more than the tokens read |
| WhisperTokenizer.UnicodeStepInvariant | lib/faster_whisper/tokenizer.py:172-189 | one iteration keeps the invariant: groups non-empty, words decode their groups, groups plus pending tokens equal the input read, offset is the words' length |
| WhisperTokenizer.UnicodeRunInvariant | lib/faster_whisper/tokenizer.py:172-189 | the invariant holds after any prefix of the tokens |
| WhisperTokenizer.UnicodeIteration | lib/faster_whisper/tokenizer.py:173-189 | one iteration of the loop moves the state (words, groups, pending tokens, offset) exactly as `UnicodeStep` does |
| WhisperTokenizer.UnicodeSplit | lib/faster_whisper/tokenizer.py:161-191 | equal counts of words and groups; every group is non-empty; each word decodes its group; the groups concatenate to a prefix of the tokens (where the cuts fall: `UnicodeSplitCuts`) |
| WhisperTokenizer.UnicodeCutsFlush | lib/faster_whisper/tokenizer.py:182-189 | a flushing iteration adds a group cut at its first flush, judged at the length of the words before it, and leaves an empty pending run |
| WhisperTokenizer.UnicodeCutsHold | lib/faster_whisper/tokenizer.py:173-189 | an iteration that does not flush leaves a pending run no non-empty prefix of which passes the flush test |
| WhisperTokenizer.UnicodeRunCuts | lib/faster_whisper/tokenizer.py:172-189 | after any prefix of the tokens every group is cut at its first flush and the pending run never passed the test |
| WhisperTokenizer.UnicodeSplitCuts | lib/faster_whisper/tokenizer.py:153-191 | words are cut wherever the tokens decode to complete characters: each group is the shortest run after the earlier groups whose decoding passes the flush test at its offset in the full decoding, and no non-empty prefix of the dropped tail passes it |
| WhisperTokenizer.UnicodeRunSingletons | lib/faster_whisper/tokenizer.py:172-189 | when every token decodes on its own without U+FFFD, the loop ends with nothing pending and one group per token, in order |
| WhisperTokenizer.UnicodeSplitValidTokens | lib/faster_whisper/tokenizer.py:161-191 | when every token decodes on its own without U+FFFD, every token is a word of its own and no token is dropped |
| WhisperTokenizer.SplitTokensOnUnicode | lib/faster_whisper/tokenizer.py:161-191 | the loop returns `UnicodeSplit` |
| WhisperTokenizer.Merged | lib/faster_whisper/tokenizer.py:200-211 | equal counts of words and groups; no words iff no subwords |
| WhisperTokenizer.MergedPrefix | lib/faster_whisper/tokenizer.py:204-209 | one more subword either appends a word or extends the last word and group |
| WhisperTokenizer.MergedFlatten | lib/faster_whisper/tokenizer.py:204-209 | the words concatenate to the subwords' concatenation, and the groups to the subword groups' |
| WhisperTokenizer.MergeOneFlatten | lib/faster_whisper/tokenizer.py:204-209 | one merge step adds exactly the subword's text to the words' concatenation and its tokens to the groups' |
| WhisperTokenizer.MergedCount | lib/faster_whisper/tokenizer.py:204 | the number of words equals the number of subwords that start one (the first always does) |
| WhisperTokenizer.MergedNonEmpty | lib/faster_whisper/tokenizer.py:204-209 | non-empty subword groups give non-empty word groups |
| WhisperTokenizer.SpacesBoundary | lib/faster_whisper/tokenizer.py:201-204 | a subword starts a word when it begins with a special token or a space, or its stripped text is a substring of `string.punctuation` (a definition; `SpacesIteration` states its use) |
| WhisperTokenizer.SpacesSplitProperties | lib/faster_whisper/tokenizer.py:193-211 | counts equal; concatenations equal the unicode split's; groups concatenate to a prefix of the tokens; words counted by the special/space/punctuation/first test; groups non-empty |
| WhisperTokenizer.SpacesIteration | lib/faster_whisper/tokenizer.py:201-209 | one iteration starts a new word or extends the last one as `MergeOne` does with the flag `special or with_space or punctuation` |
| WhisperTokenizer.MergeOnSpaces | lib/faster_whisper/tokenizer.py:200-211 | the loop merges with the flag `special or with_space or punctuation` |
| WhisperTokenizer.SplitTokensOnSpaces | lib/faster_whisper/tokenizer.py:193-211 | returns `SpacesSplit` |
| WhisperTokenizer.LangCountTotal | lib/faster_whisper/tokenizer.py:226-227 | every character is counted under exactly one key |
| WhisperTokenizer.CountLanguages | lib/faster_whisper/tokenizer.py:221-227 | `lang_cnt` has all seven keys, each holding the number of characters in that script |
| WhisperTokenizer.MaxOf | lib/faster_whisper/tokenizer.py:228 | the larger of two counts |
| WhisperTokenizer.BestScript | lib/faster_whisper/tokenizer.py:228 | a script whose count is highest among the six |
| WhisperTokenizer.MaxChoiceExists | lib/faster_whisper/tokenizer.py:228 | `max` always has an answer |
| WhisperTokenizer.MaxChoiceIsScript | lib/faster_whisper/tokenizer.py:228-231 | whichever maximum `max` picks, it is in `unicode_lang` iff `other` does not outnumber every script |
| WhisperTokenizer.MultiBoundary | lib/faster_whisper/tokenizer.py:222-231 | the spaces test, or a chosen language in `unicode_lang` (a definition; `MultiIteration` and `MaxChoiceIsScript` state its use) |
| WhisperTokenizer.MultiSplitProperties | lib/faster_whisper/tokenizer.py:213-241 | the same concatenation, prefix, count and non-empty invariants as the spaces split |
| WhisperTokenizer.MultiStartsCover | lib/faster_whisper/tokenizer.py:231 | every subword that starts a word in the spaces split starts one here |
| WhisperTokenizer.MultiIteration | lib/faster_whisper/tokenizer.py:221-239 | one iteration starts a new word or extends the last one as `MergeOne` does with the spaces flag or a script language; the `elif` at line 234 is unreachable |
| WhisperTokenizer.MergeOnMulti | lib/faster_whisper/tokenizer.py:220-241 | the loop merges with the spaces flag or a script language |
| WhisperTokenizer.SplitTokensOnMulti | lib/faster_whisper/tokenizer.py:213-241 | returns `MultiSplit` |
| WhisperTokenizer.SplitToWordTokens | lib/faster_whisper/tokenizer.py:149-159 | unspaced languages split on unicode, a `'multi'` info language on scripts, the rest on spaces |
| Assembly.ExtractNumber | service.py:34-38 | a name without digits gives 0 |
| Assembly.SkipNonDigits | service.py:37 | the search skips exactly the digit-free prefix |
| Assembly.LeadingDigits | service.py:37 | `\d+` takes the maximal digit run |
| Assembly.ExtractNumberOf | service.py:34-38 | digit-free text, then a digit run, then a non-digit gives the run's value |
| Assembly.ExtractNumberOfSegmentFile | service.py:34-38 | the number in a segment file's basename is its index |
| Assembly.InsertBySorted | service.py:40 | inserting into a sorted key list keeps it sorted |
| Assembly.SortedKeys | service.py:40 | the sorted keys are a permutation, in ascending number |
| Assembly.SortedKeysStable | service.py:40 | keys with equal numbers keep their insertion order |
| Assembly.ConcatSortedPermutation | service.py:40-44 | values concatenated in sorted key order are a permutation of those in insertion order |
| Assembly.ConcatAllPermutation | service.py:30-46 | the output has every value element exactly once; its length is the sum of the value lengths |
| Assembly.OneKeyDictConcat | service.py:40-44 | a one-key dictionary contributes its value |
| Assembly.ConcatAllOneKey | service.py:30-46 | with one-key dictionaries the output is the values in list order |
| Assembly.ExtendWithValues | service.py:43-44 | the inner loop appends the values of the keys in order |
| Assembly.ConcatAll | service.py:31-46 | each dictionary's values in key-number order, dictionaries in list order (a definition; `ConcatAllPermutation` and `ConcatAllOneKey` state its properties) |
| Assembly.SortAndConcatNumericKeys | service.py:30-46 | the nested loops produce each dictionary's values in key-number order, dictionaries in list order |
| Assembly.GatherResults | service.py:50-52 | results follow submission order, whatever the completion order |
| Assembly.AudioPathInjective | service.py:19-20 | distinct digests give distinct paths; every path's basename is `input.mp3` |
| Assembly.AudioDirname | service.py:20 | the directory of `tmp/{md5}/input.mp3` is `tmp/{md5}`, for a non-empty digest without `/` |
| Assembly.AudioExtension | service.py:20 | the suffix of a downloaded file is `.mp3` |
| Assembly.AudioSegmentFile | service.py:20 | segment k of a downloaded file is `tmp/{md5}/segments/{k}.mp3`, for a non-empty digest without `/` |
| Assembly.DownloadAudio | service.py:17-27 | the path is `tmp/{md5}/input.mp3`; a download happens iff that file does not exist |
| Assembly.BindPositional | service.py:56 | binding succeeds iff the argument count equals the parameter count; missing parameters are named |
| Assembly.DoTranscriptionAsWritten | service.py:55-59 | `do_transcription` as written: argument binding fails before the model is called (a definition; the lemma below states it) |
| Assembly.DoTranscriptionAsWrittenFails | service.py:55-56 | as written, every call raises TypeError for the missing `options` |
| Assembly.SegmentCell.constructor | service.py:79 | the one comprehension variable every lambda closes over, created once |
| Assembly.LateBoundTasks | service.py:79 | as written, every task reads one shared variable, holding the last segment |
| Assembly.LateBindingLosesSegments | service.py:79 | with two or more fresh segments, the tasks as written do not transcribe the segments |
| Assembly.LateBindingLosesPaths | service.py:79 | for any directory and suffix, with two or more segments the first task as written reads the last path |
| Assembly.TaskResult | service.py:57-59 | a valid one-key dictionary keyed by the segment's basename |
| Assembly.DoTranscription | service.py:55-59 | `{basename: transcribe_segment(file, offset, options)}` |
| Assembly.RunTasks | service.py:48-52 | one result per task, in submission order |
| Assembly.TasksFor | service.py:79 | one task per segment file, task i bound to segment i, with offset the start of clip i, or 0 when no clip was recorded |
| Assembly.ServiceRequest | service.py:71-77 | the service's request: beam size 5, VAD on, fixed prompts and threshold |
| Assembly.ServiceRequestOf | service.py:70-77 | a Transcriber built by the service sends the service's request |
| Assembly.TaskResultsConcat | service.py:52-54 | the pool's results concatenate to the tasks' rebased fragments in task order |
| Assembly.TranscribeSplit | service.py:48-54 | pool and concatenation give the split's transcript |
| Assembly.FreshTranscriptNegativeStep | service.py:69-80 | a negative `--segment_duration` on audio of non-negative length splits into nothing and transcribes to `[]` |
| Assembly.FreshTasks | service.py:79 | the tasks of a fresh split carry segment k's file and offset `k*sd` |
| Assembly.FreshSplitTranscript | service.py:69-80 | a fresh split's transcript has segment k's fragments at `k*sd`, in timeline order |
| Assembly.ListedSplitTranscript | service.py:69-80 | a reused listing's transcript is the unshifted fragments, in listing order |
| Assembly.HandleAsrTask | service.py:16-80 | the request goes through `Run`; `sd == 0` raises ZeroDivisionError; a fresh run, for any other `sd`, returns `FreshTranscript`; a reused listing returns its segments' fragments in listing order |

## Left out

- The ffmpeg and ffprobe shell-outs are I/O. This covers `create_clip`, `get_audio_file_length` and the download's `subprocess.run`. A `create_clip` call is a returned `Clip` record, and its exit status is ignored as `os.system`'s is. The probed duration and whether the download is needed are inputs or outputs.
- `int(float(output))`: the duration parse is floating point, so the duration is an integer input.
- `ThreadPoolExecutor`: concurrency. Tasks run one after the other, and their completion order is a parameter. An exception raised in a task is not modelled; in the code it propagates out of `future.result()` and ends the request. A non-positive `max_workers`, which the pool rejects, is not modelled either.
- `os.listdir` order on a reused segments directory is unspecified, so the listing is an input and no order is claimed. The model also does not check that a reused listing was produced with the same parameters.
- MD5 is foreign and is a function parameter. The model assumes nothing of it: not hex output, not collision freedom.
- `WhisperModel`, `torch` and the foreign `tokenizers.Tokenizer` (`encode`, `decode`, `token_to_id`) are foreign libraries. They are uninterpreted functions. `token_to_id` returning None for an unknown token is not modelled: ids are integers.
- `non_speech_tokens` is built entirely from the foreign `encode`. `cached_property`, `lru_cache` and the `timing` decorator only memoise or log.
- `"%.2f"` formatting of fragment times at transcriber.py:43 is floating point. Fragments are records of `real` times and text.
- WhisperTokenizer.TimestampText: the source formats the float `(token - timestamp_begin) * 0.02` with `.2f` (lib/faster_whisper/tokenizer.py:103); the model writes the exact hundredths `2*index`, so float rounding of large indices is not modelled.
- `max` tie-breaking over `lang_cnt` depends on set iteration order. The choice is any maximum, except that `other`, listed last, is chosen only when strictly greater. No particular script is claimed on a tie.
- Aliasing at tokenizer.py:209: `word_tokens[-1].extend` also extends the list object that the unicode split returned. That list has already been iterated past, so the result is unchanged; lists are modelled as values.
- `\d` in `re.search` also matches non-ASCII decimal digits. `ExtractNumber` treats only `0`–`9` as digits.
- `RequestData` fields given as something other than a number are not modelled. A missing field is a KeyError.
- Segmenter.Run: requires all three request fields to be set. In the source a None path reaches ffprobe as the file name `None`, which raises CalledProcessError there (split_audio_files.py:39-44) unless such a file exists, and then `os.path.dirname(None)` raises TypeError (:52); a None segment duration still returns the listing when the segments directory exists (:53-54) and raises TypeError at the modulo (:58) otherwise; a None overlap goes through when the range is empty or its first window merges (:63-68) and raises TypeError at :72 otherwise. service.py:63-67 always sets all three.
- `vad_parameters` and `word_timestamps_dict` are typed: a record and a map. Python's untyped dicts are not reproduced.
- `server.py` (Flask endpoint) and `util.py` are not part of this model. `test_service.py` is not evidence: its call omits required arguments and its assertions contradict each other.
- Assembly.HandleAsrTask: this is the corrected pipeline, not the code as written. As written, every task fails (Findings, row 1), so no non-empty transcript is ever returned; a split into zero segments returns `[]`. Tasks on a reused listing are given offset 0 because no start is recorded for them. The corrected offsets, `k*sd`, are this model's correction, not the source's.

The merge flag is also set for a zero remainder, but the strict inequalities at split_audio_files.py:63 keep it from firing (`Segmenter.PlanCount`).

## Findings

| source | as written | input that shows it | evidently intended | confidence | as-written member | corrected member |
|---|---|---|---|---|---|---|
| service.py:56 | `transcribe_segment(segment_file, transcribe_option)` passes two arguments to a method taking `(segment_file, offset, options)` (transcriber.py:28) | any segment file: TypeError, missing `options` | pass the segment's offset and the options | not executed | Assembly.DoTranscriptionAsWrittenFails | Assembly.DoTranscription |
| service.py:79 | `[lambda: do_transcription(segment) for segment in audio_segments]` closes over one variable, so every task reads the last segment | a fresh split into two segments: both tasks read `…/segments/1.mp3` | each task bound to its own segment | not executed | Assembly.LateBindingLosesSegments | Assembly.TasksFor |
