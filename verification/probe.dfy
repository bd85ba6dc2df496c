/** Metadata probing (probe/probe.go): two ffprobe invocations turned into a
    `VideoInfo`, with the frame-rate fallback, the rotation-source priority
    and the rotation-aware display dimensions. */
module Probe {
  import opened Wrappers
  import opened GoStrings
  import opened ProbeJson
  import opened Executor

  datatype VideoInfo = VideoInfo(width: int, height: int, fps: real, hasAudio: bool, rotation: int)

  /** `VideoInfo{}`. */
  const ZeroInfo: VideoInfo := VideoInfo(0, 0, 0.0, false, 0)

  /** `strconv.ParseFloat(s, 64)`: the number a string denotes, or `None`
      when it is not a float literal. It is a parameter of the model. */
  type ParseFloat = string -> Option<real>

  // ---------- display geometry ----------

  /** The rotation turns the picture on its side (Go: `Rotation%180 != 0`). */
  predicate QuarterTurned(v: VideoInfo) {
    GoRem(v.rotation, 180) != 0
  }

  function DisplayWidth(v: VideoInfo): (w: int)
    ensures w == v.width || w == v.height
  {
    if QuarterTurned(v) then v.height else v.width
  }

  function DisplayHeight(v: VideoInfo): (h: int)
    ensures h == v.width || h == v.height
  {
    if QuarterTurned(v) then v.width else v.height
  }

  predicate IsPortrait(v: VideoInfo) {
    DisplayHeight(v) > DisplayWidth(v)
  }

  /** The display size is the stored size turned on its side exactly when
      the rotation is not a multiple of 180; otherwise it is the stored size. */
  lemma DisplaySwap(v: VideoInfo)
    ensures v.rotation % 180 != 0 ==> DisplayWidth(v) == v.height && DisplayHeight(v) == v.width
    ensures v.rotation % 180 == 0 ==> DisplayWidth(v) == v.width && DisplayHeight(v) == v.height
    ensures IsPortrait(v) <==>
      (if v.rotation % 180 != 0 then v.width > v.height else v.height > v.width)
  {
  }

  /** A landscape 1920x1080 frame stored with a quarter turn displays as portrait. */
  lemma RotatedLandscapeIsPortrait()
    ensures IsPortrait(VideoInfo(1920, 1080, 30.0, false, 90))
    ensures !IsPortrait(VideoInfo(1920, 1080, 30.0, false, 180))
  {
  }

  // ---------- rotation ----------

  /** Go `deg % 360`, lifted into [0, 360) when negative. */
  function NormalizeRotation(deg: int): (r: int)
    ensures 0 <= r < 360
    ensures r == deg % 360
  {
    var d := GoRem(deg, 360);
    if d < 0 then d + 360 else d
  }

  /** Normalising is idempotent, keeps angles already in range, and does not
      see whole turns. */
  lemma NormalizeRotationLaws(deg: int, turns: int)
    ensures NormalizeRotation(NormalizeRotation(deg)) == NormalizeRotation(deg)
    ensures 0 <= deg < 360 ==> NormalizeRotation(deg) == deg
    ensures NormalizeRotation(deg + 360 * turns) == NormalizeRotation(deg)
  {
  }

  /** The rotation reported by probe.go: the first side-data entry alone
      decides when there is one (the tag is then ignored); otherwise a
      `rotate` tag that is an integer after trimming; otherwise 0. */
  function DetectRotation(tagRotate: string, sideData: seq<real>): (r: int)
    ensures 0 <= r < 360
    ensures |sideData| > 0 ==> r == NormalizeRotation(Round(sideData[0]))
    ensures |sideData| == 0 && Atoi(TrimSpace(tagRotate)).Some? ==>
      r == NormalizeRotation(Atoi(TrimSpace(tagRotate)).value)
    ensures |sideData| == 0 && Atoi(TrimSpace(tagRotate)).None? ==> r == 0
  {
    if |sideData| > 0 then NormalizeRotation(Round(sideData[0]))
    else if TrimSpace(tagRotate) != "" then
      match Atoi(TrimSpace(tagRotate))
      case Some(r) => NormalizeRotation(r)
      case None => 0
    else 0
  }

  /** With side data present the tag is never consulted. */
  lemma SideDataOverridesTag(tag1: string, tag2: string, sideData: seq<real>)
    requires |sideData| > 0
    ensures DetectRotation(tag1, sideData) == DetectRotation(tag2, sideData)
  {
  }

  /** A `rotate` tag written as a (padded) decimal integer is read back. */
  lemma TagRotationRoundTrip(deg: int, lead: string, trail: string)
    requires MinInt64 <= deg <= MaxInt64
    requires IsBlank(lead) && IsBlank(trail)
    ensures DetectRotation(lead + IntToString(deg) + trail, []) == NormalizeRotation(deg)
  {
    IntToStringTrimmed(deg);
    TrimSpaceOfPadded(lead, IntToString(deg), trail);
    AtoiIntToString(deg);
  }

  lemma IntToStringTrimmed(i: int)
    ensures IsTrimmed(IntToString(i))
  {
    var s := IntToString(i);
    if i < 0 {
      assert s[1..] == NatToString(-i);
      assert s[|s| - 1] == NatToString(-i)[|s| - 2];
    }
    assert IsDigit(s[|s| - 1]);
  }

  // ---------- frame rate ----------

  /** Default frame rate when `avg_frame_rate` cannot be used. */
  const DefaultFps: real := 30.0

  /** `parseFPS`: "n/d" gives n/d; anything that does not split into exactly
      two parts on "/", or whose denominator reads as 0 (an unparsable part
      reads as 0, as with Go's ignored ParseFloat error), gives 30. */
  function ParseFps(rate: string, parseFloat: ParseFloat): (r: real)
    ensures Count(rate, '/') != 1 ==> r == DefaultFps
    ensures Cut(rate, '/').Some? && '/' !in Cut(rate, '/').value.1 ==>
      var (num, den) := Cut(rate, '/').value;
      var n := parseFloat(num).GetOr(0.0);
      var d := parseFloat(den).GetOr(0.0);
      r == (if d == 0.0 then DefaultFps else n / d)
  {
    var parts := Split(rate, '/');
    SplitParts(rate, '/');
    if |parts| != 2 then DefaultFps
    else
      var n := parseFloat(parts[0]).GetOr(0.0);
      var d := parseFloat(parts[1]).GetOr(0.0);
      if d == 0.0 then DefaultFps else n / d
  }

  /** A string splits into one part more than it has separators. */
  lemma {:induction false} SplitParts(s: string, sep: char)
    ensures |Split(s, sep)| == Count(s, sep) + 1
    decreases |s|
  {
    match Cut(s, sep)
    case None =>
      CountAbsent(s, sep);
    case Some((before, after)) =>
      SplitParts(after, sep);
      CountAbsent(before, sep);
      CountConcat(before + [sep], after, sep);
      CountConcat(before, [sep], sep);
  }

  /** Rates that do not split into exactly two parts fall back to 30, for any float parser. */
  lemma ParseFpsMalformed(parseFloat: ParseFloat)
    ensures ParseFps("30", parseFloat) == DefaultFps
    ensures ParseFps("", parseFloat) == DefaultFps
    ensures ParseFps("30/1/2", parseFloat) == DefaultFps
  {
    assert Count("30", '/') == 0;
    assert Count("30/1/2", '/') == 2;
  }

  /** A zero denominator falls back to 30; a zero numerator gives 0. */
  lemma ParseFpsZeroes(parseFloat: ParseFloat)
    requires parseFloat("0") == Some(0.0) && parseFloat("1") == Some(1.0)
    ensures ParseFps("30/0", parseFloat) == DefaultFps
    ensures ParseFps("0/1", parseFloat) == 0.0
  {
    CutAtFirst("30", '/', "0");
    assert "30" + ['/'] + "0" == "30/0";
    CutAtFirst("0", '/', "1");
    assert "0" + ['/'] + "1" == "0/1";
  }

  /** The NTSC rate is the exact quotient. */
  lemma ParseFpsNtsc(parseFloat: ParseFloat)
    requires parseFloat("30000") == Some(30000.0) && parseFloat("1001") == Some(1001.0)
    ensures ParseFps("30000/1001", parseFloat) == 30000.0 / 1001.0
  {
    CutAtFirst("30000", '/', "1001");
    assert "30000" + ['/'] + "1001" == "30000/1001";
  }

  // ---------- the probe ----------

  /** The fields the video probe asks ffprobe for. */
  const VideoEntries: string := "stream=width,height,avg_frame_rate:stream_tags=rotate:stream_side_data=rotation"

  function VideoProbeArgs(input: string): seq<string> {
    ["-v", "error", "-select_streams", "v:0",
     "-show_entries", VideoEntries, "-of", "json", input]
  }

  function AudioProbeArgs(input: string): seq<string> {
    ["-v", "error", "-select_streams", "a:0", "-show_entries", "stream=index", "-of", "csv=p=0", input]
  }

  /** probe.go decodes side-data `rotation` into a float64: a number or an
      absent/null field decodes (absent as 0); a string or any other JSON
      type is an unmarshal type error. */
  predicate FloatDecodable(v: SideValue) {
    v.Number? || v.Missing?
  }

  predicate DocDecodable(doc: Doc) {
    forall i, j | 0 <= i < |doc.streams| && 0 <= j < |doc.streams[i].sideData| ::
      FloatDecodable(doc.streams[i].sideData[j])
  }

  function SideRotations(sideData: seq<SideValue>): (r: seq<real>)
    requires forall j | 0 <= j < |sideData| :: FloatDecodable(sideData[j])
    ensures |r| == |sideData|
    ensures forall j | 0 <= j < |r| :: r[j] == (if sideData[j].Number? then sideData[j].x else 0.0)
  {
    seq(|sideData|, j requires 0 <= j < |sideData| =>
      if sideData[j].Number? then sideData[j].x else 0.0)
  }

  /** The `rotate` tag as probe.go's struct reads it ("" when absent). */
  function TagRotate(tags: map<string, string>): string {
    if "rotate" in tags then tags["rotate"] else ""
  }

  /** The `VideoInfo` a decoded first stream describes (audio not yet known). */
  function StreamInfo(s: Stream, parseFloat: ParseFloat): (v: VideoInfo)
    requires forall j | 0 <= j < |s.sideData| :: FloatDecodable(s.sideData[j])
    ensures v.width == s.width && v.height == s.height && !v.hasAudio
    ensures v.fps == ParseFps(s.avgFrameRate, parseFloat)
    ensures v.rotation == DetectRotation(TagRotate(s.tags), SideRotations(s.sideData))
    ensures 0 <= v.rotation < 360
  {
    VideoInfo(s.width, s.height, ParseFps(s.avgFrameRate, parseFloat), false,
              DetectRotation(TagRotate(s.tags), SideRotations(s.sideData)))
  }

  /** Why the video probe reply cannot give a `VideoInfo`, if it cannot. */
  predicate VideoReplyFails(rep: Reply) {
    || rep.err.Some?
    || rep.output.doc.None?
    || !DocDecodable(rep.output.doc.value)
    || |rep.output.doc.value.streams| == 0
  }

  datatype Probed = Probed(log: seq<Call>, result: Result<VideoInfo, Error>)

  const NoVideoStream: Error := Failure("no video stream found")
  const InvalidJson: Error := Failure("invalid JSON")

  /** `InputWithExecutor`: probe the first video stream; fail on an executor
      error, a reply that does not decode, or no stream; then probe for an
      audio stream, whose error is ignored: audio is present iff the trimmed
      reply text is not empty. */
  function InputWithExecutor(input: string, parseFloat: ParseFloat, respond: Responder, log: seq<Call>): (r: Probed)
    ensures var video := respond(|log|, Call("ffprobe", VideoProbeArgs(input)));
      && (r.result.Err? <==> VideoReplyFails(video))
      && (r.result.Err? ==> r.log == log + [Call("ffprobe", VideoProbeArgs(input))])
      && (video.err.Some? ==> r.result == Err(video.err.value))
      && (r.result.Ok? ==>
            var audio := respond(|log| + 1, Call("ffprobe", AudioProbeArgs(input)));
            && r.log == log + [Call("ffprobe", VideoProbeArgs(input)), Call("ffprobe", AudioProbeArgs(input))]
            && r.result.value == StreamInfo(video.output.doc.value.streams[0], parseFloat)
                                   .(hasAudio := TrimSpace(audio.output.text) != ""))
  {
    var (log1, video) := Executor.Execute(respond, log, Call("ffprobe", VideoProbeArgs(input)));
    if video.err.Some? then Probed(log1, Err(video.err.value))
    else if video.output.doc.None? || !DocDecodable(video.output.doc.value) then Probed(log1, Err(InvalidJson))
    else if |video.output.doc.value.streams| == 0 then Probed(log1, Err(NoVideoStream))
    else
      var s := video.output.doc.value.streams[0];
      var info := StreamInfo(s, parseFloat);
      var (log2, audio) := Executor.Execute(respond, log1, Call("ffprobe", AudioProbeArgs(input)));
      Probed(log2, Ok(info.(hasAudio := TrimSpace(audio.output.text) != "")))
  }

  /** A successful probe reports a rotation already normalised into [0, 360). */
  lemma ProbedRotationNormalised(input: string, parseFloat: ParseFloat, respond: Responder, log: seq<Call>)
    ensures var r := InputWithExecutor(input, parseFloat, respond, log);
      r.result.Ok? ==> 0 <= r.result.value.rotation < 360
  {
  }
}
