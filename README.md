# Speech, captions and video assembly — a Dafny model

This project models the core of a small media service. It turns text into
speech, speech timings into captions, and images, audio and captions into
ffmpeg command lines. The parts modelled are:

- **Captions** (`app/services/caption.py`):
  - the punctuation test;
  - the English segmenter and the international (CJK / word) segmenter that pack timed tokens into display segments of `lines` lines;
  - the overlap clamp both segmenters end with;
  - the hex-to-ASS colour encoders;
  - the line join of `create_subtitle`;
  - the WebVTT reader `parse_webvtt_to_captions` with its timestamp parser.
- **Azure speech** (`tts.py`):
  - `ms_to_vtt`;
  - the word-boundary handler, modelled as a class that appends one record per event;
  - the cue loop that writes `subtitle.vtt`.
- **Kokoro speech** (`app/services/tts_kokoro.py`):
  - the voice table and the voice map built from it;
  - `valid_kokoro_voices`;
  - the sentence splitter;
  - the caption loops of `kokoro_international` and `kokoro_english`;
  - the `kokoro` dispatcher.
- **Kokoro HTTP route** (`app/routers/tts_kokoro_api.py`):
  - `_fmt_ts` and `_write_vtt`;
  - the request checks, engine dispatch and output paths of `kokoro_synthesize`, including `PurePosixPath` parsing and `with_suffix`;
  - the access check of `get_file`.
- **Chatterbox speech** (`app/services/tts_chatterbox.py`):
  - the sentence packing of `split_text_into_chunks`;
  - the generate-and-lay-out loop of `text_to_speech_pipeline`.
- **Video** (`app/services/builder.py`, `app/services/slideshow_orchestrator.py`):
  - `VideoBuilder` as a class with its setters and `build_command`;
  - `MultiImageVideoBuilder` as a class: duration split, per-image segment filters, concat with fallback, the final mux, and the `build` sequence;
  - the Ken Burns and pan effects both builders share.

The speech engines, ffmpeg, the clock and the file system are parameters. A
`Result` carries the exceptions and HTTP errors the source raises. Seconds are
exact `real`s.

Three properties proved here are worth calling out:

- `WriteVttReadsBack` and `AzureTts.VttReadsBack`: the cue files both writers produce are read back by the project's own WebVTT reader as the captions that were written.
- `Caption.ClampedNoOverlap`: the overlap clamp leaves no segment overlapping the next.
- `Caption.ClampCanInvert`: the same clamp can make a segment end before it starts, when that segment starts less than 0.05 s before the next one.

## Model

| member | source | states |
|---|---|---|
| Numeric.Trunc | app/services/builder.py:225-226 | `int(x)` truncates toward zero: the result is within one of `x`, on the side of zero |
| Numeric.RoundHalfEven | app/routers/tts_kokoro_api.py:50 | `round(x)` is within 0.5 of `x`, is the nearest integer whenever `x` is not halfway, and is even when `x` is halfway |
| Text.StripSpec | app/routers/tts_kokoro_api.py:75 | `strip()` is the slice of the input left after removing exactly the leading and trailing whitespace: it has none at either end and only whitespace lies outside it |
| Text.StripEmptyIff | app/routers/tts_kokoro_api.py:75-77 | stripping yields "" exactly for all-whitespace strings, which is the blank-text test |
| Text.WordsSpec | app/services/caption.py:156 | `str.split()` yields the maximal non-space runs in order: each word is non-empty without whitespace, and the input is the words laid out between whitespace gaps, every gap between two words non-empty |
| Text.WordsOfWord | app/services/caption.py:156 | a non-empty string without whitespace splits to itself |
| Text.WordsAfterSpace | app/services/caption.py:156 | leading whitespace does not change `split()` |
| Text.SplitLinesOfJoin | app/services/caption.py:388 | `splitlines` of lines joined with "\n" returns them, except a final empty line |
| Text.SplitLinesCons | app/services/caption.py:388 | a line followed by "\n" splits off as the first line |
| Text.Find | app/routers/tts_kokoro_api.py:108 | `str.find`: an index where the pattern occurs at or after the start with no earlier occurrence, or none when it occurs nowhere |
| Text.NatToString | tts.py:18 | `str(n)` is a non-empty digit string |
| Text.ZeroPadValue | tts.py:18 | `:0Nd` padding never changes the value the digits denote |
| Text.ZeroPadExact | tts.py:18 | a number below `10^width` pads to exactly `width` digits |
| Caption.IsPunctuationIff | app/services/caption.py:10-27 | a token is punctuation exactly when it is non-empty and every character is a non-space mark |
| Caption.PunctuationAccepted | tests/test_caption.py:6-10 | "，", "。" and "!?" are punctuation |
| Caption.MarkAccepted | app/services/caption.py:18-27 | a single listed mark other than space is punctuation |
| Caption.MarkPrepended | app/services/caption.py:18-27 | a listed mark in front of a punctuation token keeps it punctuation |
| Caption.PunctuationRejected | tests/test_caption.py:11-12 | letters, the empty token and a token holding a space are not punctuation |
| Caption.ClampedKeeps | app/services/caption.py:102-104 | the clamp keeps every text and start and the last segment; only ends move |
| Caption.ClampedNoOverlap | app/services/caption.py:102-104 | after the clamp every segment ends strictly before the next one starts |
| Caption.ClampedMovesOnlyOverlaps | app/services/caption.py:102-104 | an end moves only when it reaches the next start, and then to 0.05 s before it |
| Caption.ClampOverlaps | app/services/caption.py:214-216 | the in-place loop leaves exactly the clamped list |
| Caption.ClampCanInvert | app/services/caption.py:102-104 | a concrete list where the clamp makes a segment end before its start |
| Caption.PackStep | app/services/caption.py:47-89 | one loop iteration keeps the packer invariant: `lines` lines per segment, the cursor within them, the lines after it empty |
| Caption.PunctStep | app/services/caption.py:56-59 | the punctuation step keeps the packer invariant |
| Caption.WordStep | app/services/caption.py:62-89 | the word step, including the flush when the lines run out, keeps the packer invariant |
| Caption.StepPunctuation | app/services/caption.py:56-59 | punctuation never moves the cursor or emits; it is dropped when the current line is empty |
| Caption.StepWord | app/services/caption.py:62-89 | a word lands on exactly one line, after one space when that line has text, and moves on only on overflow |
| Caption.CreateSubtitleSegmentsEnglish | app/services/caption.py:30-106 | the method's loops compute the English segmentation function |
| Caption.PackToken | app/services/caption.py:47-89 | one pass of the loop body yields the packer's next state |
| Caption.PackFirstStart | app/services/caption.py:44-45 | the first emitted segment starts where the packer started |
| Caption.PackEnd | app/services/caption.py:53 | every step sets the packer's end to the token's end, including the token that triggers a flush |
| Caption.EnglishSegmentsSpec | app/services/caption.py:30-106 | every segment has `lines` lines, none overlaps the next, the first starts with the first caption, and the text extends every prefix's text |
| Caption.EnglishKeepsText | app/services/caption.py:69-99 | the segments' text is the packer's final text, so no word is lost |
| Caption.FlushKeepsText | app/services/caption.py:69-82 | a flush loses no text |
| Caption.EnglishFinalSegment | app/services/caption.py:92-99 | the unfinished segment is emitted exactly when a line has text; it is then last and ends with the last caption |
| Caption.CjkFoldSpec | app/services/caption.py:141-153 | the CJK loop invariant holds after every prefix |
| Caption.CjkPartsSpec | app/services/caption.py:141-153 | CJK parts concatenate to the text; each has 1..maxLength characters and all but the last exactly maxLength |
| Caption.SplitCjk | app/services/caption.py:141-153 | the CJK loop computes the CJK parts |
| Caption.WordFoldShape | app/services/caption.py:154-172 | after each word the growing part is a non-empty stripped string |
| Caption.WordFoldJoin | app/services/caption.py:154-172 | parts and growing part joined by spaces rebuild the words |
| Caption.WordFoldFits | app/services/caption.py:154-172 | each part fits maxLength or is one word |
| Caption.WordPartsSpec | app/services/caption.py:154-172 | word parts joined with spaces give the words joined with spaces; none is empty; each fits unless it is one over-long word |
| Caption.SplitWords | app/services/caption.py:154-172 | the word loop computes the word parts |
| Caption.CaptionPartsSpec | app/services/caption.py:131-172 | the caption text is kept by either branch |
| Caption.SplitCaption | app/services/caption.py:138-172 | CJK text is split per character and other text per word |
| Caption.GroupSpec | app/services/caption.py:175-177 | groups flatten back to the parts; each has 1..lines parts, all but the last exactly `lines` |
| Caption.GroupParts | app/services/caption.py:175-177 | the grouping loop computes the groups |
| Caption.SegmentDuration | app/services/caption.py:188-194 | the loop computes the duration step: the character share floored at 0.5 s, or the even split (see `ChunkDurationSpec`) |
| Caption.Pad | app/services/caption.py:203 | the group is kept as a prefix and, when it has at most `lines` entries, is padded to exactly `lines` |
| Caption.TimeChunks | app/services/caption.py:182-211 | the timing loop computes the timed segments of a caption |
| Caption.TimeGroupsLines | app/services/caption.py:203 | each group fills its segment's first lines and the rest are "" |
| Caption.TimeGroupsChain | app/services/caption.py:182-211 | the first segment starts at the caption start and each later one at the previous end |
| Caption.TimeGroupsDurations | app/services/caption.py:188-211 | each segment lasts its group's chunk duration |
| Caption.ShareAdd | app/services/caption.py:188-194 | shares of two character counts add up to the share of their sum |
| Caption.ChunkDurationSpec | app/services/caption.py:188-194 | with characters, a group's time is exactly its character share when that is at least 0.5 s and exactly 0.5 s when it is below; with no characters, the even split |
| Caption.TimeGroupsCover | app/services/caption.py:182-211 | the segments reach at least the caption end, and exactly the end when no group has text |
| Caption.SegmentCaption | app/services/caption.py:128-211 | the loop body over captions: split, group, time |
| Caption.CreateSubtitleSegmentsInternational | app/services/caption.py:108-218 | the method computes the international segmentation function |
| Caption.InternationalSegmentsSpec | app/services/caption.py:108-218 | it fails exactly when there are captions and `lines` is 0; otherwise every segment has `lines` lines and none overlaps the next |
| Caption.FormatSegmentText | app/services/caption.py:322-328 | the joining loop computes the formatted text |
| Caption.FormattedTextJoin | app/services/caption.py:322-328 | with text on the first line, the result is the non-empty lines joined with `\N` |
| Caption.FormattedTextBlankFirst | app/services/caption.py:322-328 | a blank first line still yields a leading `\N` before the second line's text |
| CaptionColor.HexString | app/services/caption.py:244-248 | `format(n, "X")` is a non-empty string of hex digits |
| CaptionColor.LStripHash | app/services/caption.py:231 | `lstrip("#")` removes exactly the leading run of '#' |
| CaptionColor.DoubleEach | app/services/caption.py:233 | doubling each character doubles the length |
| CaptionColor.NormalizeHex | app/services/caption.py:231-235 | a normalised colour has six characters |
| CaptionColor.PairParses | app/services/caption.py:237-239 | two hex digits parse to their value |
| CaptionColor.PairPrints | app/services/caption.py:244-248 | a value parsed from two hex digits prints back as those digits in upper case |
| CaptionColor.ChannelsOfSixDigits | app/services/caption.py:231-239 | six hex digits after any '#'s give the three channels they spell |
| CaptionColor.NoAlphaOfSixDigits | app/services/caption.py:252-261 | six hex digits encode as `&HBBGGRR&` in upper case |
| CaptionColor.WithAlphaOfSixDigits | app/services/caption.py:223-248 | the same digits encode as `&HAABBGGRR` with no closing '&' |
| CaptionColor.ShortFormDoubles | app/services/caption.py:232-233 | the short form `RGB` encodes as `RRGGBB` |
| CaptionColor.WrongLengthRejected | app/services/caption.py:234-235 | any other length after stripping '#' raises ValueError in both encoders |
| CaptionColor.EncodersAgree | app/services/caption.py:223-261 | one encoder succeeds exactly when the other does; the alpha form is the plain form with alpha in front and no '&' |
| CaptionColor.ShadowColourExample | tests/test_caption.py:20-27 | `#112233` encodes as `&H332211&` |
| WebVtt.MatchStamp | app/services/caption.py:371 | a match of the timestamp expression denotes a non-negative time |
| WebVtt.ParseVttTimestamp | app/services/caption.py:369-377 | a parsed stamp is non-negative; a failure is ValueError("Invalid VTT timestamp: " + ts) |
| WebVtt.ParseFullStamp | app/services/caption.py:369-377 | `hh:mm:ss.f{1,3}` is accepted and denotes `h*3600 + m*60 + s` |
| WebVtt.ParseOneDigitHourStamp | app/services/caption.py:369-377 | `h:mm:ss.f{1,3}` with one hour digit is accepted and denotes `h*3600 + m*60 + s` |
| WebVtt.ParseMinSecStamp | app/services/caption.py:369-377 | `mm:ss.f{1,3}` without hours is accepted and denotes `m*60 + s`, hours taken as 0 |
| WebVtt.ParseOfStripped | app/services/caption.py:371 | text starting and ending with a digit is parsed as it stands |
| WebVtt.RejectLongHours | app/services/caption.py:371-373 | an hours field of three or more digits is rejected |
| WebVtt.RejectLongFraction | app/services/caption.py:371-373 | a fraction of four or more digits is rejected |
| WebVtt.RStripKeepsPrefix | app/services/caption.py:404 | right-stripping keeps a prefix ending in a non-space |
| WebVtt.BlockEnd | app/services/caption.py:409-417 | the first blank line at or after an index, where cue text and the skip stop |
| WebVtt.CueTiming | app/services/caption.py:403-406 | both times of a timing line that parses are non-negative |
| WebVtt.ReadStep | app/services/caption.py:391-417 | a pass that continues moves strictly forward and stays within the lines |
| WebVtt.CueStep | app/services/caption.py:403-417 | the rest of a pass after the timing line moves forward within the lines |
| WebVtt.AddCaption | app/services/caption.py:412-414 | the list is either kept or extended by exactly one well-formed caption |
| WebVtt.ParseFromExtends | app/services/caption.py:388-418 | the reader only appends, and only well-formed captions |
| WebVtt.ReadStepExtends | app/services/caption.py:391-417 | one pass keeps what was collected and adds at most one caption |
| WebVtt.ReadStepCases | app/services/caption.py:391-417 | the cases of one pass as the loop takes them |
| WebVtt.ParseWebVttToCaptions | app/services/caption.py:380-418 | the method's loops compute the reader's function |
| WebVtt.ReadCue | app/services/caption.py:403-417 | from a timing line: gather text, keep a non-empty caption, skip to the next blank |
| WebVtt.CollectBlock | app/services/caption.py:409-411 | the text loop gathers the stripped lines up to the next blank one |
| WebVtt.SkipBlock | app/services/caption.py:416-417 | the skip loop stops at the next blank line |
| WebVtt.BlockEndIs | app/services/caption.py:409-417 | the first blank line is where `BlockEnd` stops |
| VttWriter.SecondsIsStampValue | app/services/caption.py:376-377 | a written clock's seconds are the value the reader gives the stamp |
| VttWriter.ReadsBack | app/services/caption.py:380-418 | reading a written cue document gives the cues with non-blank text, stripped, in order, at the times their clocks denote |
| VttWriter.ReadLines | app/services/caption.py:388 | the reader sees all written lines except the final blank one |
| VttWriter.BlockAt | app/services/caption.py:388 | line `4k + j` of the document is line `j` of cue `k` |
| VttWriter.ReadFrom | app/services/caption.py:390-418 | the reader at cue `k` reads the rest of the document |
| VttWriter.ReadOne | app/services/caption.py:390-418 | the reader takes cue `k` and stands at the next |
| VttWriter.CueReadBack | app/services/caption.py:397-417 | one cue: its caption is added if its text is non-blank and the reader passes its closing blank line |
| VttWriter.TimingOf | app/services/caption.py:403-406 | the reader finds the arrow at index 13 and parses both clocks |
| VttWriter.ClockParses | app/services/caption.py:369-377 | a written clock parses and holds no ',' |
| VttWriter.ClockValue | app/services/caption.py:369-377 | the value read from a clock is the seconds it denotes |
| AzureTts.SplitMs | tts.py:11-18 | the fields `ms_to_vtt` computes are the only split with minutes, seconds below 60 and millis below 1000 |
| AzureTts.VttClockDenotes | tts.py:11-18 | below 100 hours the fields have 2, 2, 2 and 3 digits and amount to exactly `n` ms |
| AzureTts.MsToVttClock | tts.py:11-18 | below 100 hours the stamp is well formed and denotes `n` ms |
| AzureTts.MsToVttLength | tts.py:11-18 | below 100 hours the stamp has twelve characters |
| AzureTts.MsToVttParses | tts.py:11-18 | the reader reads the stamp back as `n / 1000` seconds |
| AzureTts.MsToVttLongHours | tts.py:11-18 | from 100 hours on the stamp has three hour digits and the reader rejects it |
| AzureTts.StartMsOfTicks | tts.py:22 | for a non-negative offset, the start is the integer quotient by 10000 |
| AzureTts.Slice | tts.py:29 | `s[a:b]` never fails and is no longer than `s` |
| AzureTts.WordInside | tts.py:27-29 | an in-range offset and length select that span of the text |
| AzureTts.WordMissing | tts.py:27 | a missing offset or length records no word |
| AzureTts.WordBoundaryLog.constructor | tts.py:20 | the handler starts with an empty list |
| AzureTts.WordBoundaryLog.OnWordBoundary | tts.py:21-37 | exactly one record per event, appended at the end |
| AzureTts.RecordAll | tts.py:21-37 | a run of events leaves one record per event, in order |
| AzureTts.Cues | tts.py:88-96 | one cue per boundary (the layout of each is stated by `CueBlock`) |
| AzureTts.VttLines | tts.py:87-96 | the loop writes exactly the cue document of the boundaries |
| AzureTts.CueBlock | tts.py:89-96 | one pass writes the id, timing line, word and blank line of cue `i` |
| AzureTts.VttReadsBack | tts.py:87-96 | reading `subtitle.vtt` back gives one caption per non-blank word, in order, in seconds |
| AzureTts.KeptOf | tts.py:87-96 | the caption a cue reads back as |
| KokoroApi.RoundShift | app/routers/tts_kokoro_api.py:50 | shifting by an even integer shifts `round` by the same amount |
| KokoroApi.FloorDiv | app/routers/tts_kokoro_api.py:47-49 | `//` and `%` on non-negative floats split off whole units |
| KokoroApi.HmsSplit | app/routers/tts_kokoro_api.py:47-49 | hours, minutes below 60 and seconds below 60 of whole seconds |
| KokoroApi.SplitMsUnique | app/routers/tts_kokoro_api.py:47-51 | the field split is the only one with minutes, seconds and millis in range |
| KokoroApi.Clamp | app/routers/tts_kokoro_api.py:45-46 | the clamped time is non-negative and a non-negative time is unchanged |
| KokoroApi.FmtFieldsSplit | app/routers/tts_kokoro_api.py:47-50 | the fields split the whole seconds of the clamped time; millis lie in 0..1000 |
| KokoroApi.FmtFieldsWhole | app/routers/tts_kokoro_api.py:47-49 | hours, minutes and seconds are those of the whole seconds |
| KokoroApi.FmtTsClamps | app/routers/tts_kokoro_api.py:45-46 | a negative time formats as zero |
| KokoroApi.FmtMillisCarry | app/routers/tts_kokoro_api.py:50 | millis reach 1000 exactly when the fraction is at least 0.9995 |
| KokoroApi.FmtTsLongFraction | app/routers/tts_kokoro_api.py:50-51 | such a time formats with a four-digit fraction that the reader rejects |
| KokoroApi.CarriedClockFields | app/routers/tts_kokoro_api.py:51 | a carried stamp has two-digit fields and the fraction "1000" |
| KokoroApi.FmtTsCarryExample | app/routers/tts_kokoro_api.py:43-51 | 0.9996 s formats as `00:00:00.1000`, which the reader rejects |
| KokoroApi.RoundedClose | app/routers/tts_kokoro_api.py:50 | the carried time is within 0.5 ms of the clamped time |
| KokoroApi.FmtTsCarriedParses | app/routers/tts_kokoro_api.py:43-51 | below 100 hours the corrected stamp always reads back, as the rounded time |
| KokoroApi.FmtTsAgrees | app/routers/tts_kokoro_api.py:43-51 | where millis stay below 1000 the code and the corrected form agree |
| KokoroApi.NonBlank | app/routers/tts_kokoro_api.py:58-60 | one blank-text flag per caption |
| KokoroApi.SelectedSound | app/routers/tts_kokoro_api.py:55-60 | each kept element carries its own in-range, flagged position |
| KokoroApi.SelectedIncreasing | app/routers/tts_kokoro_api.py:55-60 | the kept positions increase |
| KokoroApi.SelectedComplete | app/routers/tts_kokoro_api.py:55-60 | every flagged element is kept |
| KokoroApi.KeptPairsSound | app/routers/tts_kokoro_api.py:55-60 | each kept caption is the one at its 1-based number, with non-blank text |
| KokoroApi.KeptPairsOrdered | app/routers/tts_kokoro_api.py:55-64 | cue numbers increase, so the cues keep the captions' order |
| KokoroApi.KeptPairsComplete | app/routers/tts_kokoro_api.py:55-60 | every caption with non-blank text gets a cue |
| KokoroApi.WriteVtt | app/routers/tts_kokoro_api.py:53-65 | the method writes exactly the cue document of the kept captions |
| KokoroApi.VttLines | app/routers/tts_kokoro_api.py:54-64 | the loop builds exactly the lines of that document |
| KokoroApi.LinesStart | app/routers/tts_kokoro_api.py:54 | before any caption only the header and a blank line are written |
| KokoroApi.LinesNext | app/routers/tts_kokoro_api.py:55-64 | a blank caption adds nothing; another adds its cue's lines |
| KokoroApi.CaptionBlock | app/routers/tts_kokoro_api.py:61-64 | a kept caption adds its number, timing line, stripped text and a blank line |
| KokoroApi.WriteVttReadsBack | app/routers/tts_kokoro_api.py:53-65 | reading the file back gives the non-blank captions, stripped, in order, within 0.5 ms |
| KokoroApi.ClockOfTime | app/routers/tts_kokoro_api.py:43-51 | without a carry, `_fmt_ts` writes the `ms_to_vtt` clock of the rounded ms |
| KokoroApi.KeptIsHeard | app/routers/tts_kokoro_api.py:55-64 | the cues for a prefix of the captions read back as what is heard of them |
| KokoroApi.KeptIsHeardStep | app/routers/tts_kokoro_api.py:55-64 | one more caption's cue, when written, reads back as heard |
| KokoroRoute.LastDot | app/routers/tts_kokoro_api.py:93 | `rfind(".")` below an index: a dot with no dot after it, or none when there is no dot |
| KokoroRoute.Stem | app/routers/tts_kokoro_api.py:93 | the stem followed by the suffix is the name, and a non-empty name has a non-empty stem |
| KokoroRoute.WithSuffix | app/routers/tts_kokoro_api.py:93-95 | `with_suffix` on a name succeeds exactly when the suffix is valid and the name non-empty |
| KokoroRoute.WithSuffixSpec | app/routers/tts_kokoro_api.py:93-95 | renaming with a plain suffix gives exactly that suffix and keeps the stem, so the sidecars share it |
| KokoroRoute.PlainSuffixes | app/routers/tts_kokoro_api.py:93-95 | ".wav", ".json" and ".vtt" are valid plain suffixes |
| KokoroRoute.SepAt | app/routers/tts_kokoro_api.py:92-93 | the first '/' at or after an index, or the end when there is none |
| KokoroRoute.PartsAreParts | app/routers/tts_kokoro_api.py:92-93 | path parsing keeps only non-empty components other than "." and without '/' |
| KokoroRoute.WithSuffixPath | app/routers/tts_kokoro_api.py:93-95 | `Path.with_suffix` fails exactly for a bad suffix or an empty name, else renames the last component |
| KokoroRoute.JoinedName | app/routers/tts_kokoro_api.py:89-93 | below a folder of proper components the name is empty only for the root |
| KokoroRoute.JoinedSpec | app/routers/tts_kokoro_api.py:89-93 | a relative name lands below the folder keeping every component; an absolute one replaces the folder |
| KokoroRoute.DottedFolderExample | app/routers/tts_kokoro_api.py:92-93 | "v1.2/out" writes `v1.2/out.wav` below the folder |
| KokoroRoute.HiddenFileExample | app/routers/tts_kokoro_api.py:92-93 | ".hidden" writes ".hidden.wav" |
| KokoroRoute.AbsoluteExample | app/routers/tts_kokoro_api.py:92-93 | "/tmp/x" leaves the folder; "/" has no name and `with_suffix` raises ValueError |
| KokoroRoute.RenameLast | app/routers/tts_kokoro_api.py:93 | a last component without an inner dot gets the suffix appended |
| KokoroRoute.SynthesisFailure | app/routers/tts_kokoro_api.py:107-113 | an engine failure becomes a 500 answer |
| KokoroRoute.BaseName | app/routers/tts_kokoro_api.py:92 | the base name is never empty: the requested name, or the timestamped default |
| KokoroRoute.SynthesizeRejects | app/routers/tts_kokoro_api.py:23-83 | empty text gives 422, blank text 400, an unknown voice after stripping 400 |
| KokoroRoute.EngineChecksPass | app/routers/tts_kokoro_api.py:98-106 | past the route's checks, code "a" goes to the English engine and the rest to the international one, whose checks then pass |
| KokoroRoute.SynthesizeDispatch | app/routers/tts_kokoro_api.py:85-113 | a target without a name fails first; otherwise the route fails with 500 exactly when the engine fails |
| KokoroRoute.SynthesizeWav | app/routers/tts_kokoro_api.py:93-139 | a success answers with the target's last component renamed to `.wav` |
| KokoroRoute.RespondPaths | app/routers/tts_kokoro_api.py:93-139 | the answer names the `.wav` file; the sidecars sit beside it with the same stem when written; 24000 Hz, 2 channels |
| KokoroRoute.GetFileSiblingAccepted | app/routers/tts_kokoro_api.py:146 | the prefix test lets `/srv/output2/secret` through for `/srv/output` |
| KokoroRoute.GetFileSpec | app/routers/tts_kokoro_api.py:142-150 | the corrected check serves exactly the existing files inside the folder and agrees with the code inside it |
| Kokoro.BindSpec | app/services/tts_kokoro.py:92-97 | binding a language adds exactly its voices and leaves other keys alone |
| Kokoro.VoiceMapSpec | app/services/tts_kokoro.py:91-97 | a voice is mapped exactly when listed under a configured language, bound to the last such language |
| Kokoro.BuildVoiceMap | app/services/tts_kokoro.py:91-97 | the module-level loop builds that map |
| Kokoro.AllVoicesSpec | app/services/tts_kokoro.py:434-444 | a voice is listed exactly when some entry lists it |
| Kokoro.VoicesOfSpec | app/services/tts_kokoro.py:434-444 | per-language listing is the entry's list, or empty |
| Kokoro.ValidVoicesAreMapped | app/services/tts_kokoro.py:434-444 | the listed voices are exactly the map's keys |
| Kokoro.ValidVoicesExamples | app/services/tts_kokoro.py:434-444 | Japanese is configured but has no voices; British English starts with `bf_alice`; an unknown language (`xx`) has none |
| Kokoro.PatternFor | app/services/tts_kokoro.py:212 | the lookup always lands on a configured pattern language |
| Kokoro.SentencePieces | app/services/tts_kokoro.py:201-216 | codes other than "z" split the stripped text with the pattern and the abbreviation set each looked up by the language code; "z" cuts after 。！？, and its pieces concatenate to the stripped text |
| Kokoro.UnknownLanguageFallback | app/services/tts_kokoro.py:201-212 | an unknown code uses the English pattern and protects no abbreviation, so its pieces are the split with pattern "a" and the empty set |
| Kokoro.BritishSplitsUnprotected | app/services/tts_kokoro.py:201-212 | code "b" splits with pattern "a" and no abbreviation, while "a" protects the English ones ("Mr." among them) |
| Kokoro.ZhSplit | app/services/tts_kokoro.py:116 | `re.split` always yields at least one piece |
| Kokoro.ZhSplitConcat | app/services/tts_kokoro.py:116 | cutting loses and adds nothing |
| Kokoro.ZhSplitPieces | app/services/tts_kokoro.py:116 | every piece but the last ends with one sentence end and holds no other |
| Kokoro.BreakTextIntoSentences | app/services/tts_kokoro.py:101-224 | the method's guard, split and clean-up compute the sentence function |
| Kokoro.RestorePieces | app/services/tts_kokoro.py:216-224 | the clean-up loop keeps the stripped non-empty pieces in order |
| Kokoro.SentencesSpec | app/services/tts_kokoro.py:101-224 | blank text gives no sentence; other text at least one, each stripped and non-empty |
| Kokoro.ZhSentencesConcat | app/services/tts_kokoro.py:476-483 | Chinese text without whitespace is the concatenation of its sentences |
| Kokoro.DispatchSpec | app/services/tts_kokoro.py:366-377 | `kokoro` fails exactly on blank text or an unknown voice; code "a" goes to English, others to the international engine |
| Kokoro.VoiceCodeIsPrefix | app/services/tts_kokoro.py:41-97 | each shipped voice is bound to the language it is listed under, whose code is its first letter |
| Kokoro.DefaultVoiceIsEnglish | app/services/tts_kokoro.py:366-377 | the default voice `af_heart` goes to the English engine |
| KokoroCaptions.IntlCaptionsContiguous | app/services/tts_kokoro.py:249-277 | one caption per chunk, from 0, each starting where the previous ended and lasting `len/24000` s |
| KokoroCaptions.ChunksOfSentences | app/services/tts_kokoro.py:249-277 | each sentence yields its own chunks after those of earlier sentences |
| KokoroCaptions.InternationalCaptions | app/services/tts_kokoro.py:249-277 | the nested loop computes the captions and total length |
| KokoroCaptions.SentenceCaptions | app/services/tts_kokoro.py:260-277 | the inner loop adds one caption per chunk of the sentence |
| KokoroCaptions.KokoroInternational | app/services/tts_kokoro.py:226-291 | the method computes the international result |
| KokoroCaptions.InternationalSpec | app/services/tts_kokoro.py:226-291 | a success returns contiguous captions from 0 to the returned length, each with a spoken sentence |
| KokoroCaptions.TokenStepSpec | app/services/tts_kokoro.py:330-350 | a timed token adds a caption at its shifted start; an untimed one lengthens the last caption's text |
| KokoroCaptions.TokensStepSpec | app/services/tts_kokoro.py:328-350 | a chunk's tokens add one caption per timed token in order and add the heard text |
| KokoroCaptions.EnglishCaptionsSpec | app/services/tts_kokoro.py:324-351 | one caption per timed token, shifted by the audio before its chunk, holding all heard text |
| KokoroCaptions.ChunkCaptions | app/services/tts_kokoro.py:328-350 | the token loop computes one chunk's step |
| KokoroCaptions.EnglishCaptionLoop | app/services/tts_kokoro.py:324-351 | the outer loop computes the captions and total length |
| KokoroCaptions.KokoroEnglish | app/services/tts_kokoro.py:293-364 | the method computes the English result |
| KokoroCaptions.EnglishSpec | app/services/tts_kokoro.py:293-364 | it fails exactly on its checks or an empty pipeline; otherwise one caption per timed token |
| Chatterbox.Add | app/services/tts_chatterbox.py:49-58 | adding a sentence always leaves at least one group |
| Chatterbox.Groups | app/services/tts_chatterbox.py:48-62 | there are no groups exactly when there are no sentences |
| Chatterbox.Joins | app/services/tts_chatterbox.py:51-62 | one chunk per group |
| Chatterbox.GroupsSpec | app/services/tts_chatterbox.py:48-62 | sentences stay whole and in order; no group is empty; a group ends only when the next sentence would not fit |
| Chatterbox.JoinOfJoins | app/services/tts_chatterbox.py:48-62 | joining the chunks gives the sentences joined |
| Chatterbox.PackSentence | app/services/tts_chatterbox.py:49-58 | one turn of the packing loop |
| Chatterbox.SplitTextIntoChunks | app/services/tts_chatterbox.py:38-69 | the method computes the chunk function |
| Chatterbox.SplitChunksSpec | app/services/tts_chatterbox.py:38-69 | chunks are non-empty and stripped, fit `max` when every sentence does, and join back to the cleaned sentences |
| Chatterbox.PartsAfterLaidOut | app/services/tts_chatterbox.py:139-178 | the speech parts are the successful chunks in order; a silence of the computed length follows a speech part exactly when its chunk is not the last and the silence is positive; parts exist exactly when a generation succeeded |
| Chatterbox.Pipeline | app/services/tts_chatterbox.py:139-178 | the loop computes the pipeline's result |
| Chatterbox.TextToSpeechPipeline | app/services/tts_chatterbox.py:123-178 | chunk, then generate and lay out |
| Chatterbox.PipelineSpec | app/services/tts_chatterbox.py:123-178 | it fails exactly when there is no chunk or every generation failed |
| Effects.OrDefault | app/services/builder.py:64 | a missing config becomes Ken Burns |
| Effects.ZoomExprSpec | app/services/builder.py:206-211 | each zoom grows by the step; an unknown direction is the top-left zoom |
| Effects.SpeedMult | app/services/builder.py:222-223 | "slow" gives 0.5, "fast" 2.0, and exactly the other speeds 1.0 |
| Effects.ScaledAtLeast | app/services/builder.py:225-226 | scaling by at least 1 never shrinks a dimension |
| Effects.PanOffsetsSpec | app/services/builder.py:228-253 | reverse pans mirror, axes stay fixed, unknown is left-to-right, and the crop stays inside |
| Effects.SegmentFrames | app/services/slideshow_orchestrator.py:127 | at least one frame, within 0.5 of `duration * fps` otherwise |
| Builder.EscapeCommasSpec | app/services/builder.py:121-124 | every comma is escaped, and unescaping gives the style back |
| Builder.EscapeHead | app/services/builder.py:123 | a style starting with a comma escapes to one starting with a backslash; any other style keeps its first character |
| Builder.SubtitlesFilterSpec | app/services/builder.py:100-131 | a chain exists exactly when a caption file is set; it reads `[bg]` and writes `[v]` |
| Builder.JoinHead | app/services/builder.py:127 | a join starts with its first element |
| Builder.ZoompanFramesSpec | app/services/builder.py:201-216 | the zoompan lasts at least one frame and longer than the audio |
| Builder.BackgroundFilterFallbacks | app/services/builder.py:200-266 | an unknown effect only scales; unknown zoom or pan directions fall back |
| Builder.FilterParts | app/services/builder.py:184-286 | the filter parts are never empty: the background chain is always present |
| Builder.CommandErrors | app/services/builder.py:135-160 | the checks fire in source order |
| Builder.CommandBuilt | app/services/builder.py:135-307 | a command is built exactly when no check fires |
| Builder.VideoCheckUnreachable | app/services/builder.py:145-150 | the video-only check never fires |
| Builder.CommandAssembled | app/services/builder.py:163-307 | after validation the command is the assembled list |
| Builder.AssembleFrame | app/services/builder.py:167-307 | it starts with the logging prefix and ends with `-shortest` and the output |
| Builder.AssembleInputs | app/services/builder.py:184-280 | the background is input 0 and the audio, when set, input 1 |
| Builder.OutputArgsSpec | app/services/builder.py:290-307 | maps the label first; `1:a` and `aac` occur exactly with audio |
| Builder.VideoLabelSpec | app/services/builder.py:283-287 | `[v]` exactly when a caption file is set, else `[bg]` |
| Builder.AssembleStreams | app/services/builder.py:290-307 | a built command ends with its stream arguments |
| Builder.VideoBuilder.constructor | app/services/builder.py:31-45 | no components and output "output.mp4" |
| Builder.VideoBuilder.SetMediaUtils | app/services/builder.py:47-50 | sets the media helper and nothing else |
| Builder.VideoBuilder.SetBackgroundImage | app/services/builder.py:52-66 | the background becomes the image with the effect or Ken Burns |
| Builder.VideoBuilder.SetBackgroundVideo | app/services/builder.py:68-71 | the background becomes the video |
| Builder.VideoBuilder.SetAudio | app/services/builder.py:73-76 | sets the audio file |
| Builder.VideoBuilder.SetCaptions | app/services/builder.py:78-91 | captions are set, even without a file |
| Builder.VideoBuilder.SetOutputPath | app/services/builder.py:93-98 | sets the output path |
| Builder.VideoBuilder.BuildCommand | app/services/builder.py:133-308 | the method returns the command function's result |
| Builder.VideoBuilder.AssembleCommand | app/services/builder.py:167-307 | built step by step, the list is the assembled command |
| Builder.VideoBuilder.StreamArgs | app/services/builder.py:290-307 | the maps, codecs, `-shortest` and output |
| Builder.NewVideoBuilder | app/services/builder.py:31-33 | anything but two dimensions is refused with ValueError |
| Slideshow.ExplicitDurations | app/services/slideshow_orchestrator.py:62-66 | explicit durations are returned unchanged exactly when one per image and all positive |
| Slideshow.ShareRemainder | app/services/slideshow_orchestrator.py:70-73 | n-1 equal shares leave exactly one share |
| Slideshow.SharedDurations | app/services/slideshow_orchestrator.py:68-74 | an even split, last raised to 0.01 s; the sum is the audio length when a share is at least 0.01 s |
| Slideshow.SharedDurationErrors | app/services/slideshow_orchestrator.py:54-74 | missing or zero audio length and no images are errors |
| Slideshow.EscapeIsEach | app/services/slideshow_orchestrator.py:205-207 | the chained replacements escape each special character once |
| Slideshow.EscapeRoundTrip | app/services/slideshow_orchestrator.py:205-207 | no bare special character remains, and unescaping gives the path back |
| Slideshow.SegmentFilterBounded | app/services/slideshow_orchestrator.py:129-187 | every segment filter ends with the trim to its duration |
| Slideshow.ConcatSpec | app/services/slideshow_orchestrator.py:76-106 | the copy runs first; re-encode exactly when it fails; success if either does |
| Slideshow.MuxDispatch | app/services/slideshow_orchestrator.py:223-270 | copy only without audio and captions; otherwise the joined video is input 0 and the output last |
| Slideshow.MuxBoth | app/services/slideshow_orchestrator.py:223-240 | captions burnt in through an escaped filter that reads back as the path; audio from input 1 |
| Slideshow.MuxAudioOnly | app/services/slideshow_orchestrator.py:243-255 | video copied from input 0, audio from input 1 as AAC |
| Slideshow.MuxCaptionsOnly | app/services/slideshow_orchestrator.py:257-266 | captions burnt in with `-vf`; one input |
| Slideshow.SegmentPaths | app/services/slideshow_orchestrator.py:322 | one file per segment |
| Slideshow.SegmentPathsDistinct | app/services/slideshow_orchestrator.py:322 | different segments get different files |
| Slideshow.RunAllStops | app/services/slideshow_orchestrator.py:321-327 | after a failure nothing more runs |
| Slideshow.RunAllSpec | app/services/slideshow_orchestrator.py:321-327 | commands run in order; success exactly when all succeed; a failure is the last issued |
| Slideshow.BuildRejects | app/services/slideshow_orchestrator.py:293-314 | no images, no durations and no audio, or wrong effect count return False; duration errors escape |
| Slideshow.BuildPlanSpec | app/services/slideshow_orchestrator.py:307-317 | one effect per image; one positive duration per image, or the even split |
| Slideshow.BuildSucceeded | app/services/slideshow_orchestrator.py:276-346 | a success rendered every segment in order, all succeeding, then the join (stream copy first) succeeded; the issued commands are exactly the segments, the join attempts and, unless neither audio nor captions is set (a file copy), the mux command, which succeeded |
| Slideshow.ExecuteSucceeded | app/services/slideshow_orchestrator.py:321-345 | once a plan exists, a success means every segment command succeeded, the join succeeded with the stream copy as its first attempt, and the mux command, when there is one, was issued last and succeeded; it is a file copy exactly when neither audio nor captions is set |
| Slideshow.MultiImageVideoBuilder.constructor | app/services/slideshow_orchestrator.py:18-29 | the fields are the given dimensions, binary, fps and workdir |
| Slideshow.MultiImageVideoBuilder.ComputeDurations | app/services/slideshow_orchestrator.py:61-74 | the method computes the duration function |
| Slideshow.MultiImageVideoBuilder.RenderSegments | app/services/slideshow_orchestrator.py:319-326 | the loop renders the planned segments, stopping at the first failure |
| Slideshow.MultiImageVideoBuilder.Build | app/services/slideshow_orchestrator.py:276-352 | the method computes the build outcome and its commands |

## Left out

- Floating point: seconds are exact `real`s, so the round-off of `+ 0.05`, `n / 24000`, `total / n` and `round((t - int(t)) * 1000)` in the source is not modelled.
- `str(float)` and `f"{x:.6f}"` formatting of durations are parameters (`FloatText`, `FloatFormat`).
- `os.path.abspath`, `Path.resolve`, `_ffpath` and `_ffsub_path` are left out. Resolved paths are inputs, and the builder's file arguments are passed as given.
- I/O is left out: `os.makedirs`, `mkdir`, `write_text`, the concat list file, `shutil.copy2`, `shutil.rmtree`, `subprocess` and `execute`. Each ffmpeg run is a parameter `run` that answers success or failure.
- The legacy `ken_burns` background key (app/services/builder.py:192-198) is left out. `set_background_image` never writes it, so only a hand-built dictionary could reach it.
- The speech engines (KPipeline, Chatterbox, the Azure SDK), nltk's sentence tokenizer, the non-Chinese sentence regular expressions and `unicodedata.category` are left out. Each is an abstract parameter.
- `Kokoro.PatternFor`: the patterns of each language are opaque values; only the lookup and its fallback are modelled.
- `Kokoro.SentencePieces`: for code "z" the placeholder protection of the Chinese abbreviations is taken as having no effect, since none of them holds a sentence end; a text that itself contains a placeholder such as `__ABBREV_0__` would be altered by the restore in the source, which is not modelled.
- Request validation beyond `min_length=1` on `text` is left out (pydantic types and defaults).
- Logging and warnings are left out.
- `VideoBuilder(dimensions)` takes the dimensions as a sequence; "a tuple of two" is modelled as a sequence of length two.
- `Slideshow.MultiImageVideoBuilder.constructor` takes the width and height as two parameters; the `ValueError` raised when unpacking dimensions that are not exactly two values is not modelled.
- The chatterbox inline test (app/services/tts_chatterbox.py:270-288) and the engine smoke tests are left out.
- `Caption.format_time` and the rest of `create_subtitle` are left out. Only its line join is modelled.
- The alpha channel of `hex_to_ass` (`round(clamp(alpha) * 255)`) is a parameter byte.
- `set_captions`: only the file, `fontsdir` and `force_style` keys are modelled.
- `KokoroRoute.Parts`: a leading "//" is treated like "/", while `PurePosixPath` keeps "//" as a distinct root.
- The date folder, the timestamp and the resolved output directory are inputs of `KokoroRoute.Synthesize`.
- `KokoroRoute.Synthesize`: a `with_suffix` ValueError on a nameless target is returned as `ValueError`. In the service it escapes the handler and becomes a 500.
- `KokoroRoute.Synthesize`: a sidecar write failure is an input flag; JSON serialisation is not modelled.
- `WebVtt.UpperChar`: models `str.upper()` for ASCII only. Python's upper-casing of other letters (which can also change the length, as for 'ß') is not modelled in the header test.
- `Text.AllDigits`: accepts ASCII digits only. `str.isdigit()` and `\d` in the source also accept other Unicode digits, so such a cue id or timestamp is rejected here but accepted by the source.
- `CaptionColor.HexDigitValue`: ASCII hex digits only; `int(x, 16)` also accepts Unicode decimal digits.
- `CaptionColor.ParseHexPair`: sign and whitespace are modelled, but not Unicode digits or underscores; the error message quotes the text in single quotes, but the escaping and quote choice of Python's `repr` for text holding quotes, backslashes or non-printable characters is not modelled.
- `Caption.CreateSubtitleSegmentsEnglish`: `lines` is a `nat`. With `lines <= 0` the source appends one empty-text segment per word; a negative count is not modelled.
- `Caption.CreateSubtitleSegmentsInternational`: `lines` is a `nat`. In the source a negative `lines` returns `[]` because `range(0, n, lines)` is empty, and only 0 raises; the negative case is not modelled.
- `KokoroApi.WriteVtt`: captions are `TimedText` records that always carry text and both times, so the `c.get(..., default)` fallbacks never apply and are not modelled.
- `KokoroCaptions.KokoroInternational`: the speech pipeline `Synth` is a function of the sentence text, so two identical sentences get the same audio chunks; a nondeterministic engine is not modelled.
- `KokoroApi.WriteVttReadsBack`: the round trip is proved for captions whose times format without the millisecond carry below 100 hours and whose text has no line break; the carry is the finding below.

## Findings

| source | as written | input that shows it | evidently intended | confidence | as-written member | corrected member |
|---|---|---|---|---|---|---|
| app/routers/tts_kokoro_api.py:50 | `_fmt_ts` rounds the fraction alone, so 999.5 ms and up rounds to 1000 and is written as `.1000` without carrying into the seconds | `_fmt_ts(0.9996)` gives `00:00:00.1000`, which `parse_webvtt_to_captions` rejects | round the whole time to milliseconds and carry, giving `00:00:01.000` | not executed | KokoroApi.FmtTsCarryExample | KokoroApi.FmtTsCarriedParses |
| app/routers/tts_kokoro_api.py:146 | `get_file` tests containment with a string prefix | with `./output` resolving to `/srv/output`, the path `/srv/output2/secret` passes the check | serve only the folder itself and paths below `folder + "/"` | not executed | KokoroRoute.GetFileSiblingAccepted | KokoroRoute.GetFileSpec |
