# mosaic, modelled in Dafny

mosaic turns one source video into an adaptive-bitrate HLS or DASH (CMAF)
package. It shells out to `ffprobe` and `ffmpeg` through a small executor
abstraction. This project models the decision logic of that pipeline:

- **Executor** (`executor.dfy`). Errors and the `CommandError` wrapper. A command's reply is
  its output, usage and error. An executor is a `Responder`: the reply to the
  n-th call. Every operation threads the call log through, so "which commands
  ran, in which order" is a checkable result. `Finish` is the real executor's
  decision on a finished process.
- **Mock** (`mock.dfy`). The deterministic test executor: canned replies by
  command name, a call log, call counting, reset, and replay of progress
  chunks into a progress channel.
- **Probe** (`probe.dfy`). The two ffprobe calls, which are reduced to a `VideoInfo`. Also
  the frame-rate fallback, the rotation-source priority and normalisation, and the
  rotation-aware display size.
- **Ladder** (`ladder.dfy`). The three fixed renditions chosen by height.
- **Optimize** (`optimize.dfy`). The cascading bitrate cap, then the trim of
  renditions whose height is within 70% of the last one kept.
- **Orientation** (`orientation.dfy`). Rotation detection, the transpose-filter
  choice, the encoder table, and the whole normalise operation: remux or
  re-encode (with one libx264 retry), verify, then rename.
- **Encoder** (`encoder.dfy`). The GOP size, the HLS variant-stream map, the
  ffmpeg progress parser and the scale/pad filter graph.
- **Mosaic** (`pipeline.dfy`). Profile selection, `initializeWithExecutor`, and
  the HLS/DASH entry points.

`GoStrings` (`gostrings.dfy`) writes out the Go standard-library functions
the core calls. These are `strings.TrimSpace`, `Cut`, `Split`, `Join`, `Count` and `ToLower`,
`strconv.Atoi` and `Itoa`, `math.Round`, and Go's truncating `%`. `Wrappers`
holds `Option` and `Result`.

Things the model takes as parameters instead of computing:

- `strconv.ParseFloat`: a parameter `string -> Option<real>`.
- File-system outcomes (the temporary file and the final rename): a `FileSystem` value.
- The packaging encoders: a `Packager` that only yields an error outcome.

Where the code and its documentation disagree, the model follows the code:

- `optimize.Apply` is not idempotent. A second pass caps a 1080p rendition
  at 5000 down to 3000 (`Optimize.ApplyNotIdempotent`).
- `ladder.Build` reads only the stored height. There is no portrait swap, no use of
  the display size, and no extra rung below 360 lines (`Ladder.BuildReadsOnlyHeight`).
- The executor interface in `internal/executor/executor.go` returns two
  results, but the mock and every caller use three: output, usage and error. The
  model uses three.
- `ladder/ladder.go:11-17` writes the renditions as six-value positional
  literals. `ladder/types.go:4-19` declares seven fields, with `Profile` and
  `Level` first. The model uses the field values the ladder tests name
  (width, height, max rate, buffer size, profile, level), with zero B-frames.
- The ladder tests (`ladder/ladder_test.go:64-112`) expect a 360p rung
  for a 240p source, and rotated renditions for portrait or quarter-turned
  sources. `ladder.Build` does neither, and the model follows `Build`
  (`Ladder.BuildExamplesFull`, `Ladder.BuildExamplesPartial`).
- `capBitrate(720, 3000)` is 1000 and `capBitrate(1080, 5000)` is 3000,
  because every tier's comparison is strict and a rendition falls through to
  the next tier. The tests expect exactly this, so it is modelled, not reported.

## Model

| member | source | states |
|---|---|---|
| Executor.Unwrap | internal/executor/executor.go:112-114 | only a wrapping error (a plain failure does not) has a cause |
| Executor.Execute | internal/executor/executor.go:12-15 | an invocation appends exactly its call to the log and returns the responder's reply for that position |
| Executor.CountCallsConcat | internal/executor/mock.go:66-74 | counting calls by name distributes over concatenated logs |
| Executor.CommandErrorText | internal/executor/executor.go:105-110 | the message is the cause's message, followed by ": stderr" exactly when stderr is not empty |
| Executor.CommandErrorUnwrap | internal/executor/executor.go:112-114 | unwrapping gives the cause back, so `errors.Is` finds the cause through the wrapper |
| Executor.Finish | internal/executor/executor.go:67-94 | success iff the process exited cleanly, with stdout as the output; on failure with stderr, a CommandError naming the command, args and stderr; otherwise the raw error; the exit error is always reachable by `errors.Is` |
| Executor.FinishMessage | internal/executor/executor.go:67-94 | a failed process's message mentions stderr exactly when stderr captured something |
| Mock.MockReply | internal/executor/mock.go:46-62 | an unconfigured name or nil map gives the "no mock response configured" error with no output; otherwise the canned output, usage and error |
| Mock.ExecuteWithProgress | internal/executor/mock.go:36-63 | the call is always logged; failure leaves the channel untouched; success sends the canned chunks in order, closes the channel and returns the canned reply |
| Mock.Execute | internal/executor/mock.go:30-33 | the call is appended to the log, the response map is kept, and the mocked response for the command name (or the not-configured error) is returned |
| Mock.ExecuteMatchesResponder | internal/executor/mock.go:31-62 | the mock is an executor whose reply depends only on the command name |
| Mock.GetCallCount | internal/executor/mock.go:66-74 | the loop returns the number of logged calls with that name |
| Mock.CountAfterCall | internal/executor/mock.go:37-53 | every call, failed or not, adds one to its own name's count and leaves other names' counts alone |
| Mock.CountCallsIsCardinality | internal/executor/mock.go:66-74 | the count is the number of log positions holding the name |
| Mock.Reset | internal/executor/mock.go:77-79 | the log is emptied, every count becomes zero, and the responses are kept |
| Mock.NewMockExecutor | internal/executor/mock.go:82-87 | a fresh mock has an empty log and knows no command |
| Mock.UnconfiguredLeavesChannelOpen | internal/executor/mock.go:46-53 | as written, an unconfigured command returns an error and leaves the progress channel open |
| Mock.ExecuteWithProgressClosing | internal/executor/mock.go:36-63 | the corrected mock: same log and reply, and a given channel is always closed |
| Probe.DisplayWidth | probe/probe.go:29-34 | the display width is one of the stored dimensions |
| Probe.DisplayHeight | probe/probe.go:37-42 | the display height is one of the stored dimensions |
| Probe.DisplaySwap | probe/probe.go:29-47 | the display size is the stored size turned on its side exactly when the rotation is not a multiple of 180, and portrait is decided on the display size |
| Probe.RotatedLandscapeIsPortrait | probe/probe.go:45-47 | a 1920x1080 frame with a quarter turn is portrait, and with a half turn it is not |
| Probe.NormalizeRotation | probe/probe.go:147-153 | the result lies in [0, 360) and is congruent to the input modulo 360 |
| Probe.NormalizeRotationLaws | probe/probe.go:147-153 | normalising is idempotent, keeps in-range angles, and ignores whole turns |
| Probe.DetectRotation | probe/probe.go:131-145 | the first side-data entry decides when present; otherwise a trimmed integer rotate tag; otherwise 0; always in [0, 360) |
| Probe.SideDataOverridesTag | probe/probe.go:134-136 | with side data present the tag is never consulted |
| Probe.TagRotationRoundTrip | probe/probe.go:138-142 | a padded decimal rotate tag reads back as its normalised value |
| Probe.ParseFps | probe/probe.go:118-129 | exactly one "/" gives numerator over denominator (an unparsable part reads 0); a zero denominator or any other shape gives 30 |
| Probe.SplitParts | probe/probe.go:119-120 | splitting gives one part more than there are separators |
| Probe.ParseFpsMalformed | probe/probe.go:119-121 | "30", "" and "30/1/2" fall back to 30 whatever the float parser does |
| Probe.ParseFpsZeroes | probe/probe.go:123-128 | "30/0" falls back to 30 and "0/1" is 0 |
| Probe.ParseFpsNtsc | probe/probe.go:123-128 | "30000/1001" is the exact quotient |
| Probe.SideRotations | probe/probe.go:78-99 | side-data rotations decode as floats, an absent value as 0 |
| Probe.StreamInfo | probe/probe.go:92-100 | the first stream's size is copied, the frame rate parsed, and the rotation is the one `DetectRotation` picks from the stream's side data and `rotate` tag, in [0, 360) |
| Probe.InputWithExecutor | probe/probe.go:56-116 | the probe fails iff the video probe errs, does not decode or has no stream, and an executor error is returned as is; on success exactly two ffprobe calls are logged, and audio is present iff the trimmed audio reply is not empty |
| Probe.ProbedRotationNormalised | probe/probe.go:92-100 | a successful probe reports a rotation in [0, 360) |
| Ladder.Build | ladder/ladder.go:7-21 | the ladder is an ordered subset of the three tiers, each present iff the source height reaches it, empty iff the height is under 360, strictly descending, with the buffer twice the rate |
| Ladder.SubsequenceSuffix | ladder/ladder.go:7-21 | dropping the largest tiers leaves an ordered subset |
| Ladder.BuildReadsOnlyHeight | ladder/ladder.go:7-21 | width, frame rate, audio and rotation never change the ladder |
| Ladder.BuildMonotone | ladder/ladder.go:7-21 | a taller source's ladder extends a shorter source's ladder at the front |
| Ladder.BuildExamplesFull | ladder/ladder.go:7-21 | 1080-line, 2160-line and portrait 1280-line sources get all three tiers |
| Ladder.BuildExamplesPartial | ladder/ladder.go:7-21 | 720p gets two tiers, 540p one, 240p none |
| Optimize.CapBitrate | optimize/cost.go:3-14 | the result never exceeds the input or 5000; at 1080 lines and above a rate over 5000 becomes 5000; otherwise, at 720 lines and above, a rate over 3000 becomes 3000; it is under 3000 below 1080 lines and under 1000 below 720 lines; rates up to 1000 are kept and larger ones never go below 1000 |
| Optimize.CapBitrateCascade | optimize/cost.go:3-14 | a rendition under its own tier's cap falls through to the next tier, with strict comparisons |
| Optimize.CapBitrateExamples | optimize/optimize_test.go:9-38 | the tabulated caps, including the fall-through cases 1080@5000 to 3000 and 720@3000 to 1000 |
| Optimize.CapBitrateSettles | optimize/cost.go:3-14 | results up to 1000 are fixed points, and below 720 lines a second pass changes nothing |
| Optimize.FarEnoughIsIntegerTest | optimize/optimize.go:34 | for a positive previous height, the float ratio test below 0.7 is the integer test 10h < 7prev |
| Optimize.KeepAfter | optimize/optimize.go:30-37 | what is kept is an ordered subset of the rest, spread, and its first element passes against the last kept |
| Optimize.Trim | optimize/optimize.go:22-39 | the first rendition is always kept, the result is an ordered subset of the input, and every kept neighbour pair passes the ratio test |
| Optimize.KeepAfterSpread | optimize/optimize.go:30-37 | renditions that already pass against each other are all kept |
| Optimize.TrimIdempotent | optimize/optimize.go:22-39 | a spread ladder is kept whole, so trimming twice is trimming once |
| Optimize.SpreadDescends | optimize/optimize.go:34 | a spread ladder with positive heights strictly descends, each height under 70% of the one before |
| Optimize.SubsequenceElements | optimize/optimize.go:22-39 | trimming only deletes, so every kept rendition was in the input |
| Optimize.TrimComparesWithLastKept | optimize/optimize_test.go:117-160 | 900p between 1080p and 360p is dropped, and 360p is then compared with 1080p; the standard ladder is kept whole |
| Optimize.TrimLoop | optimize/optimize.go:22-39 | the append loop computes the trim |
| Optimize.TrimStep | optimize/optimize.go:30-37 | one round of the loop, testing against the last element appended, extends the result to the next prefix |
| Optimize.KeepAfterSnoc | optimize/optimize.go:30-37 | one more input rendition is appended exactly when it passes against the last one kept |
| Optimize.CapAll | optimize/optimize.go:11-15 | every rendition is capped for its height, its buffer is set to twice the cap, and every other field is copied |
| Optimize.Apply | optimize/optimize.go:8-18 | capping then trimming gives a spread ordered subset of the capped ladder, starting with the capped first rendition, every rate at most 5000 with the buffer twice it |
| Optimize.ApplyDescends | optimize/optimize.go:8-18 | with positive heights the optimised ladder strictly descends |
| Optimize.ApplyStandardLadder | optimize/optimize_test.go:47-57 | the built 1080p ladder becomes 5000, 1000 and 1000 kbps, and all three are kept |
| Optimize.ApplyNotIdempotent | optimize/optimize.go:8-18 | a second pass lowers the 1080p rate from 5000 to 3000 |
| Orientation.ParseRotationNone | orientation.go:164-183 | values that are neither numbers nor strings, and blank strings, give no rotation |
| Orientation.ParseRotationFallback | orientation.go:168-179 | a trimmed non-blank string that is not a decimal integer is read by the float parser and rounded, and gives no rotation when that parser fails too |
| Orientation.ParseRotationNumber | orientation.go:166-167 | an integral number reads back as itself |
| Orientation.ParseRotationText | orientation.go:168-175 | a padded decimal integer string reads back as itself |
| Orientation.FirstRotationNone | orientation.go:149-153 | the side-data search finds nothing iff no entry parses |
| Orientation.FirstRotationSome | orientation.go:149-153 | a found rotation is the value of an entry that parses, and every earlier entry does not parse |
| Orientation.FirstRotationIsFirst | orientation.go:149-153 | unparsable entries are skipped and the first parsable one decides |
| Orientation.DetectOrientationRotation | orientation.go:148-162 | the first parsable side-data entry, else a parsable rotate tag, else 0, normalised into [0, 360) |
| Orientation.SideDataBeatsTag | orientation_test.go:14-64 | side data of 90 wins over a tag of 270 |
| Orientation.NegativeTagLifted | orientation.go:185-191 | a tag of -90 is reported as 270 |
| Orientation.DetectOrientationBroken | orientation.go:164-183 | an unreadable side-data string and tag give rotation 0 |
| Orientation.RotationFilter | orientation.go:193-204 | a filter is chosen exactly for normalised rotations of 90, 180 and 270, and no filter means the empty string |
| Orientation.RotationFilterTurns | orientation.go:193-204 | the transpose chain turns the picture by exactly the normalised rotation |
| Orientation.SplitHalfTurn | orientation.go:198-199 | the half-turn filter is two clockwise transposes |
| Orientation.RotationFilterPeriodic | orientation.go:193-204 | whole turns do not change the filter |
| Orientation.RotationFilterExamples | orientation_test.go:66-90 | 90, 180, 270 and -90 map to their transpose chains; 0 and 45 give no filter |
| Orientation.EncoderFor | orientation.go:207-222 | h264 gets libx264, hevc libx265, vp8 libvpx, vp9 libvpx-vp9 and av1 libaom-av1; the four self-encoded codecs keep their name; libx264 is chosen exactly for h264 and unlisted names |
| Orientation.PreferredVideoEncoder | orientation.go:206-223 | on the trimmed, lower-cased codec name: the five mapped codecs get their encoders, a self-encoded codec gets that normalised name, and any other name gets libx264 |
| Orientation.PreferredVideoEncoderCaseless | orientation.go:207 | two codec names equal up to letter case get the same encoder, for all names |
| Orientation.PreferredVideoEncoderOfLower | orientation.go:207 | lower-casing a codec name first does not change its encoder |
| Orientation.PreferredVideoEncoderPadded | orientation.go:207 | blank padding around a codec name does not change the encoder |
| Orientation.PreferredVideoEncoderH264 | orientation.go:209-211 | h264 gets libx264 |
| Orientation.PreferredVideoEncoderHevc | orientation.go:207-211 | upper-case HEVC gets libx265 |
| Orientation.PreferredVideoEncoderProRes | orientation.go:216-218 | ProRes keeps its lower-cased name |
| Orientation.PreferredVideoEncoderUnknown | orientation.go:219-222 | an unknown codec gets libx264 |
| Orientation.ProbeArgs | orientation.go:116-122 | the probe names the probed file last |
| Orientation.RemuxArgs | orientation.go:241-250 | the remux copies the streams, clears the rotate tag and writes the given path |
| Orientation.RotateArgs | orientation.go:225-239 | the re-encode turns off autorotation, applies the filter with the given encoder, clears the rotate tag and writes the given path |
| Orientation.ProbeMeta | orientation.go:111-146 | one ffprobe call; an executor error is wrapped, an undecodable reply is a parse error, no stream is an error; otherwise the first stream's codec, size and normalised rotation |
| Orientation.Remux | orientation.go:62-78 | one ffmpeg remux into the temp file; success iff the remux and the rename both succeed, with each failure wrapped in its own context |
| Orientation.Reencode | orientation.go:86-94 | a failed first attempt with an encoder other than libx264 is retried once with libx264, and the last attempt's error is returned; all attempts write the temp file |
| Orientation.Verify | orientation.go:97-108 | the temp file is probed; a probe error, a remaining rotation or a failed rename is an error, and success needs all three to pass |
| Orientation.Rotate | orientation.go:80-108 | re-encode, then verify and rename only after an encode success; at most three calls, all on the temp file |
| Orientation.Transform | orientation.go:62-84 | no filter means remux, a filter means re-encode; a temp-file error stops before any command; every call writes or probes the temp file |
| Orientation.NormalizeWithExecutor | orientation.go:45-109 | blank input or output paths are refused before any command; otherwise the source is probed first; every later call touches only the temp file; success needs the rename |
| Orientation.RemuxPath | orientation.go:57-78 | without a filter exactly the probe and one remux run, and success is remux and rename success |
| Orientation.RotatePath | orientation.go:80-108 | with a filter, the first attempt uses the preferred encoder, a libx264 retry follows exactly when that failed with another encoder, and anything after is the probe of the temp file |
| Orientation.RotateSuccessVerified | orientation.go:97-108 | success after a re-encode means the temp file was probed last and reported no rotation |
| Orientation.ProbeErrorKept | orientation.go:57-60 | a source-probe executor failure is returned wrapped, `errors.Is` still finds it, and nothing else runs |
| Orientation.Rotation90Scenario | orientation_test.go:137-162 | a 90-degree source is re-encoded once with autorotation off, the clockwise transpose and the tag cleared, then verified |
| Orientation.NoRotationScenario | orientation_test.go:92-116 | an upright source is remuxed with one stream-copying ffmpeg call |
| Encoder.CalcGop | encoder/common.go:12-22 | the GOP is the least even number at least the rounded product and at least 24 |
| Encoder.CalcGopCases | encoder/common.go:12-22 | an even product of 24 or more is kept, an odd one is bumped by one, and a small one becomes 24 |
| Encoder.GopFor | encoder/common.go:11-25 | the GOP is even, at least 24, and at least the rounded frames per segment |
| Encoder.GopForExamples | encoder/common_test.go:12-19 | the tabulated GOP sizes, including 29.97 fps and the minimum and odd cases |
| Encoder.Group | encoder/common.go:33-38 | a variant group is non-empty and holds no space |
| Encoder.Groups | encoder/common.go:30-39 | group i is the i-th variant's streams, one group per variant |
| Encoder.BuildVarStreamMap | encoder/common.go:29-42 | the map is empty iff there is no variant; otherwise splitting it on spaces gives back the groups, with one space fewer than variants |
| Encoder.CountJoin | encoder/common.go:41 | joining k separator-free parts puts exactly k-1 separators in |
| Encoder.BuildVarStreamMapExamples | encoder/common_test.go:39-56 | one variant with and without audio, and zero variants |
| Encoder.BuildVarStreamMapSeveral | encoder/common_test.go:57-74 | two and three variants with and without audio |
| Encoder.Entry | encoder/common.go:50-51 | a line contributes an entry iff it holds an "=" |
| Encoder.ParseProgressNoEntries | encoder/common.go:46-57 | input without "=" gives the empty map |
| Encoder.CollectLastWins | encoder/common.go:48-56 | the last line carrying a key decides its value |
| Encoder.CollectKeys | encoder/common.go:48-56 | exactly the keys some line carries are present |
| Encoder.ParseProgressLastWins | encoder/common.go:46-57 | in terms of raw lines, the last line with a key gives its value |
| Encoder.EntryKeepsLaterEquals | encoder/common.go:50-53 | the split is at the first "=", so the value may itself hold "=" |
| Encoder.ParseProgressLoop | encoder/common.go:46-57 | the loop over the split lines computes the parsed map |
| Encoder.BuildFilterGraph | encoder/hls_cmaf.go:129-153 | the graph is the split header and each rendition's clause joined by ";", with no trailing ";", and it starts with the header |
| Encoder.JoinTerminated | encoder/hls_cmaf.go:138-152 | writing every part with a trailing ";" then trimming the last one is the ";"-join |
| Encoder.FilterGraphReadsOnlySize | encoder/hls_cmaf.go:129-153 | the graph depends only on the renditions' widths and heights |
| Encoder.FilterGraphOne | encoder/hls_cmaf_test.go:17-21 | the exact single-rendition graph |
| Encoder.FilterGraphTwo | encoder/hls_cmaf_test.go:34-38 | the exact two-rendition graph |
| Encoder.FilterGraphThree | encoder/hls_cmaf_test.go:26-30 | the exact three-rendition graph |
| Mosaic.SelectProfile | encode.go:33-39 | "live" selects the 2-second low-latency profile, and every other name, including the empty one, selects the 5-second profile |
| Mosaic.InitializeWithExecutor | encode.go:19-45 | a probe failure gives zero values and the probe's error; otherwise the ladder is the optimised built ladder (empty iff under 360 lines, spread, rates at most 5000) and the profile follows the job's name |
| Mosaic.Encode | encode.go:54-69 | set-up failure never reaches the encoder and its error comes back; otherwise the encoder gets the job's paths with the probed info, profile and ladder, and its error is returned |
| Mosaic.EncodeHls | encode.go:54-69 | the HLS encoder's error is returned for the job's paths, and a run that never reached it failed |
| Mosaic.EncodeDash | encode.go:78-93 | the DASH encoder's error is returned for the job's paths, and a run that never reached it failed |
| Mosaic.SameRequestForBothFormats | encode.go:54-93 | HLS and DASH share the set-up: the same job and replies give both encoders the same request and log |
| Mosaic.ProbeFailureStopsEncode | encode.go:21-24 | a failed probe never reaches the encoder, and its error is returned as is |
| Mosaic.Initialize1080 | encode_test.go:12-88 | a 1080-line source gets 1080p at 5000 kbps and 720p and 360p at 1000 kbps |
| Mosaic.ProfileExamples | config/profiles.go:12-21 | live is 2 s low-latency; vod, empty and "LIVE" are 5 s regular |

## Left out

- Process spawning, pipes, goroutines and `context` cancellation in the real executor. Only its decision on a finished process (`Executor.Finish`) is modelled, and callers see an executor as a `Responder`.
- `executor.DefaultExecutor`, `Input`, `EncodeHls`, `EncodeDash` and `NormalizeVideoOrientation`: each only passes the default executor to the `WithExecutor` form that is modelled.
- The JSON bytes: a reply's decoded form is given as a `Doc`, so the decoder's own failures are one "invalid JSON" error and the error texts of `encoding/json` are not reproduced.
- `strconv.ParseFloat` is a parameter. NaN and infinities are not modelled, and frame rates and side-data rotations are exact reals.
- Integer width: `int(math.Round(x))`, the GOP product and `2 * MaxRate` are unbounded. The int64 limit is modelled only in `strconv.Atoi`.
- `strings.ToLower` is modelled on ASCII letters only. Go also lower-cases some non-ASCII runes to ASCII letters: U+212A KELVIN SIGN becomes 'k' and U+0130 becomes 'i'. No codec name in the encoder table contains 'k' or 'i', so the chosen encoder is the same.
- `prepareTempOutput` and its cleanup (orientation.go:252-274): the temporary path or its error and the outcome of the final rename are parameters (`Orientation.FileSystem`). Removal of the temporary file is not modelled.
- The ffmpeg argument lists, hardware-acceleration switches and progress bridging of `EncodeHLSCMAFWithExecutor` and `EncodeDASHCMAFWithExecutor` (encoder/hls_cmaf.go:30-124, encoder/dash_cmaf.go). The pipeline sees each packager only through its returned error (`Mosaic.Packager`), and the calls a packager makes are not added to the log.
- The `fmt.Printf` progress line at encode.go:41.
- Encoder.ParseProgress: the key-set property is stated per line entry (`Encoder.CollectKeys`) rather than on the raw text, and there are no examples on literal progress text.
- Mock.ExecuteWithProgress: requires an open progress channel, because Go panics on a send to or close of a closed channel (internal/executor/mock.go:57,59) and the panic is not modelled. `Mock.CountAfterCall` and `Mock.ExecuteWithProgressClosing` carry the same precondition.
- Optimize.FarEnough: the keep test `float64(h)/float64(prev) < 0.7` (optimize/optimize.go:34) is compared on exact rationals. Float64 conversion and division round, so the two agree only while heights stay well below 2^53 (about 10^15).
- Probe.ParseFps: the float parser is a parameter, so "30000/1001" and the other examples hold for any parser that reads those digit strings as their values.

## Findings

| source | as written | input that shows it | evidently intended | confidence | as-written member | corrected member |
|---|---|---|---|---|---|---|
| internal/executor/mock.go:46-53 | a nil response map or an unconfigured command returns an error before the progress channel is closed | a `NewMockExecutor()` with no "ffmpeg" response, called with a progress channel, as the DASH encoder's progress bridge does (it ranges over the channel until it is closed) | the channel is closed on every path, as on the success path | not executed | Mock.UnconfiguredLeavesChannelOpen | Mock.ExecuteWithProgressClosing |
