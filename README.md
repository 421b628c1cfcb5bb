# Whisper-subtitle: the subtitle data path, in Dafny

This project models the subtitle data path of Whisper-subtitle, a tool that
transcribes, translates, diarizes and dubs videos. The modelled parts are:

- the SRT timecode codec (`HH:MM:SS,mmm` and whole milliseconds);
- the three SRT parsers and writers, with the in-band `[S<n>]` speaker tags;
- the streaming block reader;
- the two speaker-assignment variants: in the text of an SRT file, and on subtitle records in place;
- the timed assembly of synthesised clips into one peak-normalised buffer;
- the helpers around them:
  - the transcription hallucination filter, chunk schedule and SRT writer;
  - the translation cache and the translation loop over SRT blocks;
  - the language tables and the voice roster;
  - the ffmpeg argument list;
  - the names of the output files.

Modules follow the source files:

| module | source |
|---|---|
| `Timecode` | `parse_srt_time`, `format_srt_time` and the time-range pattern |
| `SrtUtils` | `srt_utils.py` |
| `Generate` | `generate.py` |
| `SubtitleService` | `services/subtitle_service.py` |
| `Diarize` | `diarize.py` |
| `TtsService` | `services/tts_service.py` |
| `TranscribeApi` | `transcribe_api.py` |
| `TranslationCache` | `translation_cache.py` |
| `Translate` | `translate.py` |
| `Languages` | `languages.py` |
| `FfmpegService` | `services/ffmpeg_service.py` |
| `FileService` | `services/file_service.py` |

`Text`, `Blocks`, `Seqs` and `Wrappers` hold the Python string primitives, `re.split` on blank lines, and generic sequence helpers.

The model works on values, with these choices:

- Times are whole milliseconds (`nat`).
- Files are strings, or sequences of lines.
- The existence of a file on disk is a boolean.
- Outside services are parameters:
  - the speech synthesiser is a sequence of outcomes, one per segment;
  - the recogniser is a function from a chunk to its segments;
  - the chat model is a function from `(source, target, text)` to a reply or an exception;
  - the MD5 digest is a function on strings.
- Where the source updates state in place, the model does too:
  - the diarization records are a class whose `speaker` field is written;
  - the audio buffer is an `array<real>` that clips are added into;
  - the cache file is a class whose state the operations replace.
- Loops are methods with invariants, proved against the functions that specify them.

`generate.parse_srt_time` and `transcribe_api.format_time` are textual copies of the `srt_utils.py` functions. They are defined once, as `Timecode.ParseTime` and `Timecode.FormatTime`.

## Model

| member | source | states |
|---|---|---|
| Timecode.Pad | srt_utils.py:20 | `{n:02}` / `{n:03}`: the digits denote `n`; exactly `width` digits when `n < 10^width`, more otherwise |
| Timecode.NatToStringLength | srt_utils.py:20 | a number renders in at most `k` digits exactly when it is below `10^k` (why hours of 100 or more widen the field) |
| Timecode.ParseTime | srt_utils.py:5-12 | a string that does not start with `\d{2}:\d{2}:\d{2}[,.]\d{3}` parses as 0 instead of raising |
| Timecode.FormatTime | srt_utils.py:14-20 | below 100 hours: 12 characters, matching the timestamp pattern, with a comma before the milliseconds; from 100 hours: longer, and not matching |
| Timecode.RoundTrip | srt_utils.py:5-20 | `parse_srt_time(format_srt_time(t)) == t` exactly when `t` is below 100 hours |
| Timecode.SkipSpacesStops | srt_utils.py:46 | `\s*` consumes every whitespace character and stops at the first other one |
| Timecode.TimeRangeAt | srt_utils.py:45-48 | a match of `(TS)\s*-->\s*(TS)` captures two 12-character timestamps, the first one at the match position |
| Timecode.SearchFindsLeftmost | services/subtitle_service.py:35 | `re.search` returns the capture at the leftmost matching position, with no match at any position before it |
| Timecode.SearchFindsMatch | services/subtitle_service.py:35 | the search succeeds exactly when the pattern matches at some position |
| Timecode.RangeLineMatches | srt_utils.py:123 | a written `start --> end` line matches the range pattern and captures the two formatted times |
| Text.Strip | srt_utils.py:41 | `str.strip()`: the result has no whitespace at either end and is unchanged on a stripped string |
| Text.StripLeft | srt_utils.py:56 | `\s*` after the tag: only whitespace is dropped, and the rest starts with a non-space |
| Text.Split | srt_utils.py:41 | `split('\n')`: at least one piece, and no piece holds the separator |
| Text.SplitJoin | services/tts_service.py:58 | splitting a join gives back the pieces when none holds the separator |
| Text.JoinSplit | services/subtitle_service.py:56 | joining the pieces of a split gives back the string |
| Text.NatToString | srt_utils.py:122 | `str(n)`: digits only, no leading zero, denoting `n` |
| Text.IntToString | srt_utils.py:120 | `str(i)`: a minus sign before the digits of `-i` when negative |
| Text.Lower | transcribe_api.py:70 | `str.lower()` character by character, length kept |
| Blocks.SepAt | srt_utils.py:38 | a separator match (`\n\n+` or `\n\s*\n`) starts and ends with a newline |
| Blocks.RegexSplit | srt_utils.py:38 | `re.split` always yields at least one piece |
| Blocks.SplitJoined | srt_utils.py:38 | well-formed blocks joined by blank lines split back into exactly those blocks, for both separators |
| Blocks.StripWritten | srt_utils.py:38 | `strip()` of blocks each followed by a blank line leaves them joined by blank lines |
| Blocks.JoinLinesSolid | services/subtitle_service.py:78 | non-blank stripped lines joined by newlines leave no blank line inside the block |
| SrtUtils.LeadingDigits | srt_utils.py:56 | `\d+` takes the longest run of digits |
| SrtUtils.UpToNewline | srt_utils.py:56 | `(.*)` stops at the first newline |
| SrtUtils.DecodeSpeakerTag | srt_utils.py:54-59 | untagged text decodes as speaker 0 and the text itself |
| SrtUtils.EncodeSpeakerTag | srt_utils.py:116-120 | ids of 0 or less leave the text; a positive id makes it start with `[S<id>]`; an existing tag is not repeated |
| SrtUtils.EncodeIdempotent | srt_utils.py:116-120 | re-encoding never double-tags |
| SrtUtils.DecodeEncode | srt_utils.py:54-59 | decoding an encoded untagged text gives back the speaker and the text |
| SrtUtils.TagStartMatches | srt_utils.py:56 | every text that starts with `[S<digits>]` matches the tag pattern |
| SrtUtils.MatchTagged | srt_utils.py:56-59 | the pattern reads the number and the text after the tag and its space |
| SrtUtils.MatchFields | srt_utils.py:56-59 | where the match takes the number and the text from |
| SrtUtils.IndexOf | srt_utils.py:65 | the first position of a character, or -1 when it is absent |
| SrtUtils.RemoveMarkup | srt_utils.py:65 | `re.sub('<[^>]+>', '', s)` never lengthens, and leaves text without `<` alone |
| SrtUtils.ParseBlock | srt_utils.py:40-76 | a kept block has at least three lines once stripped, text left once markup is removed, and a speaker that is not negative |
| SrtUtils.ParseLines | srt_utils.py:42-74 | kept exactly when there are three lines, a time range opens the second, and the decoded text survives markup removal; the index is the first line verbatim, the times are the two captures in milliseconds, speaker and text are the decoded tag of the joined remaining lines, markup kept |
| SrtUtils.UntimedBlockSkipped | srt_utils.py:44-49 | a block of three lines or more whose second line does not open with a time range is skipped |
| SrtUtils.KeptBlockFields | srt_utils.py:40-74 | the if-and-only-if and the field values of `ParseLines`, for a block of the file |
| SrtUtils.ParseSrt | srt_utils.py:22-77 | the loop appends exactly the segments of the blocks that parse, in order |
| SrtUtils.ShortBlockSkipped | srt_utils.py:42 | a block of fewer than three lines is skipped, not reported |
| SrtUtils.ParsedSegmentsHaveText | srt_utils.py:67-74 | every parsed segment has text left after markup removal |
| SrtUtils.Runs | srt_utils.py:89-97 | there is always an open run |
| SrtUtils.LongRuns | srt_utils.py:93-94 | only runs of at least three lines are yielded |
| SrtUtils.RunsCoverLines | srt_utils.py:90-97 | the runs are exactly the stripped non-blank lines, in order, none lost or invented |
| SrtUtils.ReadSrtBlocks | srt_utils.py:79-100 | yields the runs of at least three lines, in order, including the last run when no blank line closes it |
| SrtUtils.CloseRun | srt_utils.py:92-95 | a blank line closes the open run |
| SrtUtils.ExtendRun | srt_utils.py:96-97 | a non-blank line extends the open run |
| SrtUtils.CloseLast | srt_utils.py:99-100 | at the end of the file the open run is yielded when long enough |
| SrtUtils.RunsStep | srt_utils.py:90-97 | one more line either closes the open run or extends it |
| SrtUtils.RunsClean | srt_utils.py:91-97 | every line of every run is stripped and non-blank |
| SrtUtils.CleanEmptyRun | srt_utils.py:95 | closing a run keeps the runs clean |
| SrtUtils.CleanExtendRun | srt_utils.py:97 | appending a stripped non-blank line keeps the runs clean |
| SrtUtils.ReadBlocksShape | srt_utils.py:93-100 | every yielded block has at least three lines, each stripped and non-blank |
| SrtUtils.LongRunsFrom | srt_utils.py:93-94 | every yielded block is one of the runs |
| SrtUtils.Bodies | srt_utils.py:111-123 | one block per segment, in list order, numbered from 1 |
| SrtUtils.WriteSrt | srt_utils.py:102-124 | the file is every block `i\nstart --> end\ntext` followed by a blank line |
| SrtUtils.BodiesSnoc | srt_utils.py:122-124 | writing one more segment appends its block and a blank line |
| SrtUtils.ConcatIsJoin | srt_utils.py:124 | the written file is the blocks joined by blank lines, plus a final blank line |
| SrtUtils.Renumbered | srt_utils.py:111 | the parsed-back segments are the written ones with the index `1..N` |
| SrtUtils.EncodedShape | srt_utils.py:120 | a tagged text stays non-empty, stripped and on one line |
| SrtUtils.ThreeLineBlock | srt_utils.py:122-124 | the three written lines form a block the blank-line split keeps whole, and they split back |
| SrtUtils.RangeLineShape | srt_utils.py:123 | the written range line is one line starting with a digit and matching the pattern |
| SrtUtils.BodyWellFormed | srt_utils.py:122-124 | a written block of a writable segment splits into its three lines |
| SrtUtils.ParseBody | srt_utils.py:40-74 | a written block parses back to its segment, numbered `k + 1` |
| SrtUtils.ParseThreeLines | srt_utils.py:41-74 | how a stripped three-line block is read |
| SrtUtils.TextOfThree | srt_utils.py:52 | the text of a three-line block is its stripped last line |
| SrtUtils.WriteThenParse | srt_utils.py:22-124 | writing then parsing keeps start, end, text and speaker of every segment, in order, and renumbers `1..N` |
| SrtUtils.BodiesParse | srt_utils.py:40-74 | each written block is well formed and parses back |
| SrtUtils.ParseEmpty | srt_utils.py:38 | an empty file holds no segment |
| SrtUtils.EmptyBlockSkipped | srt_utils.py:42 | the empty block of an empty file is skipped |
| SrtUtils.ParseConcat | srt_utils.py:38-76 | a file of written blocks parses as those blocks parse |
| SrtUtils.SplitWritten | srt_utils.py:38 | splitting a written file gives back exactly the written blocks |
| Generate.DropUnderscores | generate.py:76 | dropping the underscores never lengthens the text, and a text without underscores is unchanged |
| Generate.GroupsDigits | generate.py:76 | dropping the underscores leaves only digits |
| Generate.PyIntOfString | generate.py:76 | `int(str(n)) == n` for every integer |
| Generate.MinusSign | generate.py:76 | a minus sign negates the value of the digits after it |
| Generate.PyIntOfDigits | generate.py:76 | `int()` of a digit string is its decimal value |
| Generate.NoSign | generate.py:76 | without a sign the value is that of the digit groups |
| Generate.UnsignedOfDigits | generate.py:76 | a digit string is a valid unsigned number |
| Generate.ParseBlock | generate.py:72-96 | a kept block has at least three lines, an integer first line (else the `ValueError` skips it), a time range on the second line, and non-empty text |
| Generate.ParseSrt | generate.py:62-98 | the loop appends exactly the segments of the blocks that parse, in order |
| Generate.AsRead | generate.py:86-94 | the generator's view of a written segment: its number, its times, its text with the tag kept |
| Generate.ReadsWrittenSrt | generate.py:62-98 | the generator reads back what the SRT writer writes, numbered `1..N`, speaker tags left in the text |
| Generate.NothingRead | generate.py:221-224 | an empty file yields no segment, which stops the run |
| Generate.EmptyBlockRead | generate.py:74 | the empty block is skipped |
| Generate.ReadsBodies | generate.py:72-96 | every written block parses back in the generator |
| Generate.ReadsBody | generate.py:72-96 | one written block parses back in the generator |
| Generate.ReadThreeLines | generate.py:73-94 | how a stripped three-line block is read |
| Generate.Silence | generate.py:258 | `np.zeros(n)`: `n` samples, all 0 |
| Generate.RateIsLastRendered | generate.py:233-264 | the sample rate is 24000 when every synthesis failed, and the rate of the last success otherwise |
| Generate.ClipFor | generate.py:238-264 | a success keeps its samples; a failure becomes silence of `int((end-start)*sr)` samples, or an error when that is negative |
| Generate.Clips | generate.py:236-264 | one clip per segment, in order, each made at the rate in force when it is synthesised |
| Generate.SynthesizeAll | generate.py:238-264 | the loop yields the clips and the last rate, or stops at the first failed segment with negative silence |
| Generate.RateStep | generate.py:247 | each success replaces the rate; a failure keeps it |
| Generate.MaxEnd | generate.py:232 | `max(seg.end)` bounds every end and is reached by one |
| Generate.TotalSamples | generate.py:232-271 | `int((max end + 1.0) * sr)`: at least one second of samples |
| Generate.Fit | generate.py:277-288 | the clip is cut or zero-padded to exactly `available_samples`, sample by sample; a negative bound cuts from the end as a Python slice does |
| Generate.AddAt | generate.py:294 | `+=` adds the clip into its window, sample by sample, and leaves the rest |
| Generate.Place | generate.py:274-294 | a clip that ends inside the buffer is mixed in at `start_sample`; one that does not is dropped; the buffer never grows |
| Generate.MixOnto | generate.py:273-294 | compositing all clips keeps the buffer length |
| Generate.MixUntouched | generate.py:273-294 | a sample that no placed clip covers keeps its value |
| Generate.AddInto | generate.py:294 | the in-place `+=` on the array |
| Generate.Assemble | generate.py:273-294 | the array ends as every clip composited in order |
| Generate.Peak | generate.py:297 | `max(abs(x))` bounds every sample's magnitude and is reached by one |
| Generate.Normalized | generate.py:297-299 | every sample is divided by the peak and times 0.9; a silent buffer is unchanged |
| Generate.NormalizedPeak | generate.py:297-299 | a buffer that was not silent ends with a peak of exactly 0.9 |
| Generate.PeakIs | generate.py:297 | the peak is the bound that every sample stays within and some sample reaches |
| Generate.Zeros | generate.py:271 | `np.zeros(total_samples)` is a fresh silent array |
| Generate.Normalize | generate.py:296-299 | the in-place normalisation of the array |
| Generate.GenerateDubbedAudio | generate.py:186-308 | unsupported language: stopped; no segment: stopped; otherwise the clips are assembled over `int((max end+1)*sr)` samples and normalised |
| Generate.Mixdown | generate.py:269-299 | allocation, compositing and normalisation give the specified audio |
| SubtitleService.AsIntervals | services/subtitle_service.py:49-51 | complete dictionary entries read as typed intervals |
| SubtitleService.LookupAgrees | services/subtitle_service.py:48-52 | with every key present, the text-level search picks the same speaker as `diarize.assign_speakers_to_srt`: the first containing entry, 0 when none |
| SubtitleService.MissingStartFails | services/subtitle_service.py:50 | a missing `start` raises a `KeyError`, and the function returns False |
| SubtitleService.ApplyDiarizationToSrt | services/subtitle_service.py:19-68 | True with the written text exactly when no block raises, False otherwise |
| SubtitleService.RewriteAllSnoc | services/subtitle_service.py:31-60 | one more block appends its rewrite, or fails |
| SubtitleService.FailureAt | services/subtitle_service.py:67-68 | a block that raises makes the whole call return False |
| SubtitleService.RewriteBlock | services/subtitle_service.py:32-60 | a block with fewer than three lines or no time range in its second line comes back verbatim; the block fails exactly when it has both and the speaker lookup raises |
| SubtitleService.PassThrough | services/subtitle_service.py:57-60 | short or untimed blocks are written back unchanged |
| SubtitleService.TagBlock | services/subtitle_service.py:32-60 | the loop body rewrites one block as specified |
| SubtitleService.FindSpeaker | services/subtitle_service.py:48-52 | the `for`/`break` search returns the first entry with `start <= mid <= end`, 0 when none, and fails on a missing key |
| SubtitleService.BlockCountKept | services/subtitle_service.py:28-64 | as many blocks come out as were split from the input |
| SubtitleService.TagLineNoNewline | services/subtitle_service.py:55 | the tagged line stays one line |
| SubtitleService.OnlyTextLineChanges | services/subtitle_service.py:55-56 | only the third line of a matched block changes, by the prefix `[S<id>] `, even for speaker 0 |
| SubtitleService.TaggedFindsSpeaker | services/subtitle_service.py:35-52 | tagging keeps the time line, so the same speaker is found again |
| SubtitleService.TagsAccumulate | services/subtitle_service.py:55 | without a check for an existing tag, a second application adds a second prefix |
| SubtitleService.CleanLines | services/subtitle_service.py:78 | never more lines than were given |
| SubtitleService.CleanLinesClean | services/subtitle_service.py:78 | every kept line is stripped and non-blank |
| SubtitleService.CleanLinesKeep | services/subtitle_service.py:78 | lines already stripped and non-blank are all kept |
| SubtitleService.ContentBlock | services/subtitle_service.py:78-97 | kept exactly when there are three non-blank lines and the second holds a time range; start and end are the captured timestamps as text, and the text is the remaining lines joined by newlines |
| SubtitleService.ContentBlockIndex | services/subtitle_service.py:79-81 | a kept block has at least three lines; its index is the first line's number when it is all digits, its position + 1 otherwise |
| SubtitleService.ParseSrtContent | services/subtitle_service.py:70-99 | the loop appends exactly the subtitles of the blocks that parse, in order |
| SubtitleService.ReadContentBlock | services/subtitle_service.py:78-97 | the loop body reads one block as specified |
| SubtitleService.SubtitleBodies | services/subtitle_service.py:107-110 | one block per subtitle, in order |
| SubtitleService.WriteSrtFile | services/subtitle_service.py:101-114 | the file is every block `n\nstart --> end\ntext` followed by a blank line, numbered from 1 |
| SubtitleService.Renumbered | services/subtitle_service.py:108 | what reads back is the subtitles numbered `1..N` |
| SubtitleService.BodyLines | services/subtitle_service.py:108-110 | a written block's lines are its number, its range, then its text's lines |
| SubtitleService.BodyWellFormed | services/subtitle_service.py:107-111 | a written block is one the blank-line split keeps whole |
| SubtitleService.WrittenTextWellFormed | services/subtitle_service.py:110 | a text of stripped non-blank lines is a well-formed block |
| SubtitleService.ParseBody | services/subtitle_service.py:78-97 | a written block parses back to its subtitle, numbered `k + 1` |
| SubtitleService.CleanBodyLines | services/subtitle_service.py:78 | no line of a written block is dropped by the parser |
| SubtitleService.WriteThenParse | services/subtitle_service.py:70-114 | writing then parsing keeps start, end and text of every subtitle, in order, and renumbers `1..N` |
| SubtitleService.NoSubtitles | services/subtitle_service.py:74 | an empty file holds no subtitle |
| SubtitleService.BodiesParseBack | services/subtitle_service.py:74-97 | every written block is well formed and parses back |
| Diarize.SrtRecord.constructor | diarize.py:55 | a record holds its index, times and text, with speaker 0 |
| Diarize.FirstMatch | diarize.py:68-75 | the speaker of the first interval, in list order, whose closed range holds the midpoint; 0 when none does |
| Diarize.AssignSpeakersToSrt | diarize.py:55-77 | the same list comes back; each record's speaker is set from its own midpoint; no other field of any record changes |
| TtsService.RetryFindsNothing | services/tts_service.py:22-27 | the regional retry finds nothing when the plain code found nothing |
| TtsService.TargetVoices | services/tts_service.py:17-33 | never empty: the names with the language prefix, in roster order, or the two French fallback voices |
| TtsService.RegionalRetry | services/tts_service.py:24-27 | the `zh-CN` and `en-US` retries cannot find a voice that the first search missed |
| TtsService.TargetVoicesMembers | services/tts_service.py:21-33 | every offered voice is a roster name with the prefix, or a fallback |
| TtsService.VoicesByGender | services/tts_service.py:35-42 | the names of that gender, in roster order; a `KeyError` where an entry lacks `gender` |
| TtsService.VoicesByGenderMembers | services/tts_service.py:39-42 | a name is listed exactly when its entry has that gender |
| TtsService.VoiceLabel | services/tts_service.py:44-48 | the entry's label, or the name when there is no entry or no label |
| TtsService.SpeakersArgument | services/tts_service.py:50-60 | without diarization, the selected voice alone |
| TtsService.SpeakersArgumentSplits | services/tts_service.py:54-58 | with diarization: the selected voice, then every other voice in order without any copy of it, comma-joined |
| TranscribeApi.MatchesPattern | transcribe_api.py:75-77 | true exactly when some lower-cased pattern is a substring of the text |
| TranscribeApi.CountRepeats | transcribe_api.py:79 | the number of positions whose stripped text equals the stripped text |
| TranscribeApi.HallucinationCases | transcribe_api.py:68-83 | a hallucination exactly when shorter than 3, or holding a listed phrase, or repeated more than twice |
| TranscribeApi.ThreeRepeatsFiltered | transcribe_api.py:79-81 | three positions with the same stripped text make it a hallucination |
| TranscribeApi.ScheduleShape | transcribe_api.py:221-229 | chunk `k` starts at `600 s * k`; all but the remainder are full; the chunks are contiguous and cover the file but for a final piece under one second |
| TranscribeApi.FullChunks | transcribe_api.py:224-229 | the chunks before the remainder are full ten-minute chunks and are all kept |
| TranscribeApi.Shift | transcribe_api.py:242-246 | start and end move by the chunk offset; the text is kept |
| TranscribeApi.ShiftAll | transcribe_api.py:241-247 | every segment of a chunk is shifted, in order |
| TranscribeApi.CollectSegments | transcribe_api.py:192-251 | a short file is sent whole; a long one chunk by chunk, its segments shifted and appended in chunk order |
| TranscribeApi.AllTexts | transcribe_api.py:259 | every segment's stripped text, in order |
| TranscribeApi.TranscriptBodies | transcribe_api.py:277-279 | one block per kept segment |
| TranscribeApi.WriteTranscript | transcribe_api.py:259-281 | only the segments that are not hallucinations are written, numbered from 1 without a gap; written + filtered = all segments |
| TranscribeApi.WriteKept | transcribe_api.py:266-281 | the loop writes the accepted segments and counts the others |
| TranscribeApi.AppendBlock | transcribe_api.py:277-280 | the three writes of one segment add its block |
| TranscribeApi.BodiesSnoc | transcribe_api.py:277-279 | one more kept segment appends its block and a blank line |
| TranscribeApi.KeptSegmentsClean | transcribe_api.py:68-83 | no written segment is short, holds a listed phrase, or is repeated more than twice |
| TranscribeApi.AsSrtAll | transcribe_api.py:266-279 | the kept segments as the shared writer's segments with speaker 0 |
| TranscribeApi.TranscriptParses | transcribe_api.py:266-279 | the transcript is what `srt_utils.write_srt` writes, so `parse_srt` reads every kept segment back |
| TranscribeApi.BodyAsSrt | transcribe_api.py:277-279 | each block is the shared writer's block |
| TranslationCache.KeyContentInjective | translation_cache.py:15-18 | with codes free of colons, different requests have different key contents |
| TranslationCache.ColonCodesCollide | translation_cache.py:17 | a colon in a code lets two different requests share a key |
| TranslationCache.SamePairInjective | translation_cache.py:17 | within one language pair, the key content determines the text |
| TranslationCache.Load | translation_cache.py:21-29 | the stored dictionary; empty for a missing or unreadable file |
| TranslationCache.Cached | translation_cache.py:55 | `dict.get`: the value when the key is there, None otherwise |
| TranslationCache.Upsert | translation_cache.py:70-75 | the key holds the new entry; every other key is unchanged; the size grows only for a new key |
| TranslationCache.Saved | translation_cache.py:32-38 | a successful write stores the dictionary; a failed one leaves the file as it was |
| TranslationCache.Stats | translation_cache.py:79-89 | the number of keys, and the distinct `src→tgt` labels of the dictionary entries |
| TranslationCache.CacheFile.constructor | translation_cache.py:12 | the file's initial state and whether it can be written |
| TranslationCache.CacheFile.GetCachedTranslation | translation_cache.py:41-55 | the stored value for the request's key, or None |
| TranslationCache.CacheFile.CacheTranslation | translation_cache.py:58-76 | the file becomes the loaded store with the request's entry set, when it can be written |
| TranslationCache.CacheFile.GetCacheStats | translation_cache.py:79-89 | the statistics of the current store |
| TranslationCache.CacheFile.ClearCache | translation_cache.py:92-96 | the file is gone |
| TranslationCache.GetAfterPut | translation_cache.py:58-76 | after a successful store, the lookup returns the entry with that translation |
| TranslationCache.PutKeepsOthers | translation_cache.py:68-76 | storing one request leaves every other request's lookup unchanged (injective digest, colon-free codes) |
| TranslationCache.UnwritablePut | translation_cache.py:37-38 | a failed write changes nothing |
| TranslationCache.StatsAfterPut | translation_cache.py:79-89 | after a store, one more entry unless the key existed, and its language pair is listed |
| TranslationCache.StatsAfterClear | translation_cache.py:92-96 | after clearing, the store loads empty: 0 entries, no pair |
| TranslationCache.CorruptReadsEmpty | translation_cache.py:27-28 | an unreadable file reads as empty, and a write replaces it with the one new entry |
| Translate.Hit | translate.py:53-55 | a truthy cached value answers: the entry's `translation`, or a non-empty string itself |
| Translate.FromReply | translate.py:75-76 | the stripped content, or the original text when the content is None or empty |
| Translate.TextStepCases | translate.py:40-85 | cache hit: answered, nothing written; API exception: the text back, nothing stored; reply: its translation, stored under the request |
| Translate.TranslateText | translate.py:40-85 | the method does what the three cases say, on the cache file |
| Translate.TranslateTwice | translate.py:53-79 | after a translation the API answered, the same request is answered from the cache with the same translation |
| Translate.Texts | translate.py:117 | each block's lines after the first two, joined by spaces |
| Translate.Fold | translate.py:114-130 | one translation per block; translated + cached = number of blocks |
| Translate.WrittenBlocks | translate.py:132 | each block written with its index and time lines copied verbatim and its translation |
| Translate.TranslateSrt | translate.py:88-134 | the blocks of `read_srt_blocks` are translated in order through the cache; one block is written per block; the counters are the fold's |
| Translate.TranslateAll | translate.py:113-134 | the block loop keeps the output, the cache file and the counters equal to the fold so far |
| Translate.TranslateBlock | translate.py:115-132 | one block: the counter matching the cache answer goes up and the block is written |
| Translate.StepperApplies | translate.py:123 | each step is `translate_text` for the run's languages |
| Translate.OutputSnoc | translate.py:132 | writing one more block appends it and a blank line |
| Translate.FoldNext | translate.py:114-130 | one more block adds one step |
| Translate.CachedCountsHits | translate.py:125-126 | the cache counter counts the blocks the cache answered |
| Translate.FoldPrefix | translate.py:114 | later blocks do not change what earlier blocks produced |
| Translate.FoldElement | translate.py:114 | a block's translation is the same in every longer run |
| Translate.StaysCached | translate.py:79 | once a text is stored, its key keeps answering through every later block |
| Translate.AnsweredAt | translate.py:120-126 | a later equal text is answered from the cache with the earlier translation |
| Translate.RunKeeps | translate.py:114-132 | what two blocks produced stays so over the whole run |
| Translate.RepeatAnswered | translate.py:120-126 | in a run, a repeated text that the API answered is a cache answer the second time |
| Translate.StepperFacts | translate.py:53-79 | each step stores what the API answers, never rewrites a key that hits, and is answered by a hit |
| Translate.StepStores | translate.py:79 | after the API answers, the request hits with its translation |
| Translate.StepKeepsHit | translate.py:53-79 | a request writes only after a miss on its own key |
| Translate.StepAnswers | translate.py:53-55 | a request whose key hits is answered from the cache |
| Translate.RepeatFromCache | translate.py:114-132 | with a writable cache, a block text met again is answered from the cache, with the same translation |
| Translate.CachedCountIsHits | translate.py:106-130 | `cached_count` is the number of cache answers; `translated_count` is the rest |
| Languages.SourceShown | languages.py:7-23 | the source table as shown: code, name and flag, in table order |
| Languages.Display | languages.py:45-50 | flag, space and name for a known code; the code itself otherwise |
| Languages.WhisperCode | languages.py:53-57 | the table's recogniser code (None for `auto`) for a known code; the code itself otherwise |
| Languages.Context | languages.py:74-82 | anime for `ja`, K-drama for `ko`, C-drama for `zh`, films and series for every other code, each in both directions |
| Languages.NameOr | languages.py:71-72 | the table's name, or the raw code when the table lacks it |
| Languages.PromptOpensWithContext | languages.py:60-90 | the system prompt opens with the context line chosen by the source language |
| Languages.Options | languages.py:93-106 | one option per table entry, in table order, carrying its code |
| Languages.OptionsShowEntries | languages.py:93-106 | each option shows its own entry's flag and name |
| FfmpegService.LangTag | services/ffmpeg_service.py:38 | the table's three-letter code, `und` for an unmapped code |
| FfmpegService.LanguageName | services/ffmpeg_service.py:182-194 | the English name, `Unknown` for an unmapped code |
| FfmpegService.ReplaceConcat | services/ffmpeg_service.py:66 | `str.replace` of a one-character pattern distributes over concatenation |
| FfmpegService.EscapeCons | services/ffmpeg_service.py:66 | the two `replace` passes escape character by character |
| FfmpegService.UnescapeEscape | services/ffmpeg_service.py:66 | a path without backslashes is read back from its escape |
| FfmpegService.BuildFfmpegCommand | services/ffmpeg_service.py:24-166 | the `extend` sequence builds the specified list in every branch |
| FfmpegService.BuildFor | services/ffmpeg_service.py:44-166 | the branches, once the language tag and name are known |
| FfmpegService.MixedInputs | services/ffmpeg_service.py:46-76 | inputs, mixing filter, burn filter and maps of the background-music branch |
| FfmpegService.DubbedInputs | services/ffmpeg_service.py:95-118 | inputs, burn filter and maps of the branch without music |
| FfmpegService.RemoveFirst | services/ffmpeg_service.py:164 | `list.remove`: one element fewer when present; the list unchanged otherwise |
| FfmpegService.InputsConcat | services/ffmpeg_service.py:48-56 | the inputs of a list split anywhere but just after `-i` |
| FfmpegService.NoInputs | services/ffmpeg_service.py:79-94 | a list without `-i` names no input |
| FfmpegService.InputPair | services/ffmpeg_service.py:56 | a `-i` pair names its one input |
| FfmpegService.DubbingInputs | services/ffmpeg_service.py:44-136 | inputs in order: video, dubbed track, music when present, subtitles when carried as a stream; so `3:0` / `2:0` is the subtitle file |
| FfmpegService.DubbingCommand | services/ffmpeg_service.py:44-136 | a dubbing command is its streams followed by its tail |
| FfmpegService.TailInputs | services/ffmpeg_service.py:78-94 | the codecs and metadata name no input |
| FfmpegService.StreamsInputs | services/ffmpeg_service.py:48-76 | the inputs named before the codecs |
| FfmpegService.MapsNameNoInput | services/ffmpeg_service.py:70-76 | the maps name no input |
| FfmpegService.MiddleInputs | services/ffmpeg_service.py:55-67 | only the soft-coded subtitle file is an input among the middle arguments |
| FfmpegService.HeadInputs | services/ffmpeg_service.py:48-53 | the fixed inputs at the head of a dubbing command |
| FfmpegService.SoftWithoutSubtitles | services/ffmpeg_service.py:152-164 | as written: without a subtitle file, `remove("")` keeps the `-i`, so `-c` follows it |
| FfmpegService.CommandShape | services/ffmpeg_service.py:24-166 | every branch starts `ffmpeg -y -i <video>` and ends with the output path |
| FfmpegService.BurnFilterPlaced | services/ffmpeg_service.py:65-67 | burning puts `-vf subtitles='<escaped>'` right after the inputs (and the mix filter), and the escape reads back |
| FfmpegService.BurnInStreams | services/ffmpeg_service.py:65-67 | where the burn filter sits among the streams |
| FfmpegService.StartInputs | services/ffmpeg_service.py:143-144 | the start of the commands without dubbing names the video alone |
| FfmpegService.BurnOnlyInputs | services/ffmpeg_service.py:139-149 | burning without dubbing reads the video alone |
| FfmpegService.SoftOnlyInputs | services/ffmpeg_service.py:150-164 | as written: soft-coding without dubbing reads the video and the subtitle file, or `-c` when there is none |
| FfmpegService.IntendedSoftInputs | services/ffmpeg_service.py:150-164 | corrected: reads the video, and the subtitle file exactly when one is given; agrees with the source whenever one is given |
| FfmpegService.IntendedInputs | services/ffmpeg_service.py:150-164 | the inputs of the corrected list |
| FfmpegService.IntendedAgrees | services/ffmpeg_service.py:152-161 | with a subtitle file, the corrected list is the source's list |
| FfmpegService.DubbingCodecs | services/ffmpeg_service.py:79-82 | both dubbing branches follow the streams with `-c:v libx264 -preset veryfast -crf`, then `22` when burning, `copy` otherwise |
| FfmpegService.TailStarts | services/ffmpeg_service.py:121-124 | the tail opens with the video codec arguments |
| FfmpegService.MixedLayout | services/ffmpeg_service.py:59-73 | with music: the fixed `volume`/`amix` filter follows the inputs, and `[a]` is mapped as the audio |
| FileService.LastDot | services/file_service.py:38 | the last dot of the name, or -1 |
| FileService.Suffix | services/file_service.py:38 | `suffix`: from the last dot on when there is one inside the name; empty otherwise |
| FileService.StemSuffix | services/file_service.py:40 | the name is its stem followed by its suffix |
| FileService.WithSuffix | services/file_service.py:38-39 | the suffix replaced in the same directory; an error for a path without a name |
| FileService.WithName | services/file_service.py:40-44 | the name replaced in the same directory; an error for no name or an invalid new name |
| FileService.OutputPathsDefined | services/file_service.py:35-45 | the seven paths exist exactly when the video has a name and the language holds no slash |
| FileService.LanguageName | services/file_service.py:40-41 | a name carrying the language is accepted exactly when the language holds no slash |
| FileService.FixedName | services/file_service.py:42-44 | a fixed name after the stem is accepted whenever the video has a name |
| FileService.NamedAfterStem | services/file_service.py:40-41 | stem, `_`, language and tail form a valid name exactly when the language holds no slash |
| FileService.OutputPathNames | services/file_service.py:37-45 | all seven in the video's directory; `.wav` and `.srt` replace the suffix; `<stem>_<lang>.srt` and `<stem>_<lang>_dubbed.wav`; the other three do not depend on the language |

## Left out

- Floating point: times are whole milliseconds. The float `format_srt_time` can drop a millisecond (`int((seconds - int(seconds))*1000)`); the model computes the exact value.
- Samples and the peak are `real`. Sample indices are `floor(ms * sr / 1000)` and `int()` truncates toward zero.
- Python's `str.isdigit`, `\d`, `int()` and `str.lower` are modelled on ASCII digits and on ASCII and Latin-1 letters only.
- File reads and writes are not modelled: parsers take the content or its lines, and writers return the text. `Path.exists()` is a boolean parameter.
- The network, the recogniser, the chat model, the speech synthesiser and ffprobe are parameters: functions or outcome sequences.
- Translate.TranslateText: the system prompt is not passed to the chat model. The model passes the language pair, which determines the prompt (`Languages.TranslationPrompt`).
- The MD5 digest is an abstract function. Keys are proved distinct only for colon-free language codes and an injective digest (`TranslationCache.ColonCodesCollide` shows why).
- JSON values in the cache file other than the cache's own entries and strings are not modelled. A dictionary entry without `translation`, which `translate_text` would return whole, is not modelled either.
- `save_cache`'s `IOError` is the `writable` flag of the file. A failing `unlink` in `clear_cache` is not modelled.
- transcribe_api.py:
  - The 20 MB size check and exit are not modelled.
  - `compress_audio_chunk` and `get_audio_duration` are not modelled.
  - `transcribe_chunk`'s retries and fallback segment are not modelled.
  - The pause between chunks is not modelled.
- `generate.load_tts_model` and `generate_segment_audio` are not modelled; their results are the outcome sequence. Writing the WAV file is not modelled.
- Generate.GenerateDubbedAudio requires one outcome per parsed segment. This is the oracle's shape, not a demand of the source.
- `sys.exit` is an error result.
- The multi-voice speaker-to-voice mapping does not exist in the code shown, and the generator has no speaker option. It is not modelled.
- TtsService: the roster is the one configured in config.py:24-36. `get_target_voices` is stated for any roster, and the `zh-CN`/`en-US` retry is proved unable to find anything.
- Languages: table-wide facts over the 15-entry constants (every code has a name, and so on) are not stated. The lemmas are stated for any table with distinct codes.
- FileService.GetOutputPaths: `pathlib` is modelled as a directory and a final name.
  - `with_suffix` fails only on an empty name.
  - `with_name` fails on an empty name, `.`, or a slash.
  - Separators and drive letters of other platforms are not modelled.
- FfmpegService: the lemmas are stated for `CommandFor` with the language tag and name as parameters, which `Command` fills in from the tables. `execute_ffmpeg_command` (a subprocess) is not modelled.
- Diarize.AssignSpeakersToSrt: records are objects. When the same record appears twice in the list, its speaker is written twice with the same value. Dictionaries without `start` or `end` are not modelled.
- SubtitleService: a `KeyError` on a diarization entry is an error result. Other exceptions (an unreadable file) are not modelled.
- translate.py `main`, the argument parser, and the progress printing are not modelled.
- The Streamlit applications, pipeline.py, extraction, separation and local transcription are not modelled. The API-key service and the progress tracker are not modelled either.

## Findings

| source | as written | input that shows it | evidently intended | confidence | as-written member | corrected member |
|---|---|---|---|---|---|---|
| services/ffmpeg_service.py:152-164 | without a subtitle file, `cmd.remove("")` drops only the empty path and keeps the `-i` before it, so ffmpeg reads `-c` as a second input file | no dubbed audio, `is_hardcode` False, `srt_path` None | drop both `-i` and the empty path, so the video is the only input | high, not executed | FfmpegService.SoftOnlyInputs | FfmpegService.IntendedSoftInputs |

Both dubbing branches also pass `-crf copy` when the subtitles are soft-coded (services/ffmpeg_service.py:80 and :122). `-crf` expects a number, so this is likely a second defect. `FfmpegService.DubbingCodecs` states the list as written. No corrected variant is modelled, because the code does not show which value was meant: a numeric quality, or `-c:v copy` without re-encoding.
