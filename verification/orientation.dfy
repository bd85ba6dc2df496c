/** Orientation normalisation (orientation.go): read the rotation a source
    carries, then either remux it with the rotate tag cleared or re-encode
    it through a transpose filter, verify the result, and move it into
    place. */
module Orientation {
  import opened Wrappers
  import opened GoStrings
  import opened ProbeJson
  import opened Executor
  import Probe

  // ---------- reading a rotation ----------

  /** `parseRotationValue`: a JSON number is rounded; a string is trimmed and
      read as an integer, failing that as a float (rounded); anything else,
      and the blank string, is no rotation. */
  function ParseRotationValue(v: SideValue, parseFloat: Probe.ParseFloat): Option<int>
  {
    match v
    case Number(x) => Some(Round(x))
    case Text(s) =>
      var t := TrimSpace(s);
      if t == "" then None
      else if Atoi(t).Some? then Atoi(t)
      else if parseFloat(t).Some? then Some(Round(parseFloat(t).value))
      else None
    case Missing => None
    case Other => None
  }

  /** Other JSON types, and blank strings, are no rotation. */
  lemma ParseRotationNone(v: SideValue, parseFloat: Probe.ParseFloat)
    requires v.Missing? || v.Other? || (v.Text? && IsBlank(v.s))
    ensures ParseRotationValue(v, parseFloat).None?
  {
  }

  /** A trimmed string that is not a decimal integer goes to the float
      parser, and its result, if any, is rounded. */
  lemma ParseRotationFallback(s: string, parseFloat: Probe.ParseFloat)
    requires IsTrimmed(s) && s != "" && Atoi(s).None?
    ensures parseFloat(s).None? ==> ParseRotationValue(Text(s), parseFloat).None?
    ensures parseFloat(s).Some? ==> ParseRotationValue(Text(s), parseFloat) == Some(Round(parseFloat(s).value))
  {
    TrimSpaceOfTrimmed(s);
  }

  /** An integral JSON number reads back as itself. */
  lemma ParseRotationNumber(i: int, parseFloat: Probe.ParseFloat)
    ensures ParseRotationValue(Number(i as real), parseFloat) == Some(i)
  {
  }

  /** A decimal integer written with blank padding reads back as itself,
      without consulting the float parser. */
  lemma ParseRotationText(i: int, lead: string, trail: string, parseFloat: Probe.ParseFloat)
    requires MinInt64 <= i <= MaxInt64
    requires IsBlank(lead) && IsBlank(trail)
    ensures ParseRotationValue(Text(lead + IntToString(i) + trail), parseFloat) == Some(i)
  {
    Probe.IntToStringTrimmed(i);
    TrimSpaceOfPadded(lead, IntToString(i), trail);
    AtoiIntToString(i);
  }

  /** The first value present, scanning from the front. */
  function FirstSome(os: seq<Option<int>>): Option<int>
    decreases |os|
  {
    if |os| == 0 then None
    else if os[0].Some? then os[0]
    else FirstSome(os[1..])
  }

  /** Nothing is found exactly when every value is absent. */
  lemma {:induction false} FirstSomeNone(os: seq<Option<int>>)
    ensures FirstSome(os).None? <==> forall j | 0 <= j < |os| :: os[j].None?
    decreases |os|
  {
    if |os| > 0 && os[0].None? {
      FirstSomeNone(os[1..]);
      if FirstSome(os[1..]).Some? {
        var j :| 0 <= j < |os[1..]| && os[1..][j].Some?;
        assert os[j + 1].Some?;
      } else {
        forall j | 0 < j < |os| ensures os[j].None? {
          assert os[j] == os[1..][j - 1];
        }
      }
    }
  }

  /** What is found is present and comes after only absent values. */
  lemma {:induction false} FirstSomeSome(os: seq<Option<int>>) returns (j: nat)
    requires FirstSome(os).Some?
    ensures j < |os| && os[j] == FirstSome(os)
    ensures forall k | 0 <= k < j :: os[k].None?
    decreases |os|
  {
    if os[0].Some? {
      j := 0;
    } else {
      var i := FirstSomeSome(os[1..]);
      j := i + 1;
      assert os[j] == os[1..][i];
      forall k | 0 < k < j ensures os[k].None? {
        assert os[k] == os[1..][k - 1];
      }
    }
  }

  /** Absent values are skipped; the first present one decides. */
  lemma {:induction false} FirstSomeIsFirst(skipped: seq<Option<int>>, v: Option<int>, rest: seq<Option<int>>)
    requires forall j | 0 <= j < |skipped| :: skipped[j].None?
    requires v.Some?
    ensures FirstSome(skipped + [v] + rest) == v
    decreases |skipped|
  {
    var all := skipped + [v] + rest;
    if |skipped| == 0 {
      assert all[0] == v;
    } else {
      assert all[0] == skipped[0];
      assert all[1..] == skipped[1..] + [v] + rest;
      forall j | 0 <= j < |skipped| - 1 ensures skipped[1..][j].None? {
        assert skipped[1..][j] == skipped[j + 1];
      }
      FirstSomeIsFirst(skipped[1..], v, rest);
    }
  }

  /** The parsed value of every side-data entry, in order. */
  function Parsed(sideData: seq<SideValue>, parseFloat: Probe.ParseFloat): (ps: seq<Option<int>>)
    ensures |ps| == |sideData|
    ensures forall j | 0 <= j < |sideData| :: ps[j] == ParseRotationValue(sideData[j], parseFloat)
  {
    seq(|sideData|, j requires 0 <= j < |sideData| => ParseRotationValue(sideData[j], parseFloat))
  }

  /** The first side-data rotation that parses, if any. */
  function FirstRotation(sideData: seq<SideValue>, parseFloat: Probe.ParseFloat): Option<int> {
    FirstSome(Parsed(sideData, parseFloat))
  }

  /** The search over no entries, and over a single one. */
  lemma FirstRotationShort(v: SideValue, parseFloat: Probe.ParseFloat)
    ensures FirstRotation([], parseFloat).None?
    ensures FirstRotation([v], parseFloat) == ParseRotationValue(v, parseFloat)
  {
    var ps := Parsed([v], parseFloat);
    assert ps[0] == ParseRotationValue(v, parseFloat);
    assert FirstSome(ps[1..]).None?;
  }

  /** None of the first `n` entries parses. */
  predicate Unparsed(sideData: seq<SideValue>, n: nat, parseFloat: Probe.ParseFloat)
    requires n <= |sideData|
  {
    forall k | 0 <= k < n :: ParseRotationValue(sideData[k], parseFloat).None?
  }

  /** Nothing is found exactly when no entry parses. */
  lemma FirstRotationNone(sideData: seq<SideValue>, parseFloat: Probe.ParseFloat)
    ensures FirstRotation(sideData, parseFloat).None? <==> Unparsed(sideData, |sideData|, parseFloat)
  {
    var ps := Parsed(sideData, parseFloat);
    FirstSomeNone(ps);
    assert (forall j | 0 <= j < |ps| :: ps[j].None?) <==> Unparsed(sideData, |sideData|, parseFloat);
  }

  /** What is found is the value of an entry that parses after only entries
      that do not. */
  lemma FirstRotationSome(sideData: seq<SideValue>, parseFloat: Probe.ParseFloat) returns (j: nat)
    requires FirstRotation(sideData, parseFloat).Some?
    ensures j < |sideData| && ParseRotationValue(sideData[j], parseFloat) == FirstRotation(sideData, parseFloat)
    ensures Unparsed(sideData, j, parseFloat)
  {
    var ps := Parsed(sideData, parseFloat);
    j := FirstSomeSome(ps);
    assert forall k | 0 <= k < j :: ps[k].None?;
  }

  /** Entries that do not parse are skipped; the first one that does decides. */
  lemma FirstRotationIsFirst(skipped: seq<SideValue>, v: SideValue, rest: seq<SideValue>, parseFloat: Probe.ParseFloat)
    requires Unparsed(skipped, |skipped|, parseFloat)
    requires ParseRotationValue(v, parseFloat).Some?
    ensures FirstRotation(skipped + [v] + rest, parseFloat) == ParseRotationValue(v, parseFloat)
  {
    var ps := Parsed(skipped, parseFloat);
    var all := skipped + [v] + rest;
    assert Parsed(all, parseFloat) == ps + [ParseRotationValue(v, parseFloat)] + Parsed(rest, parseFloat) by {
      forall j | 0 <= j < |all| ensures Parsed(all, parseFloat)[j] == ParseRotationValue(all[j], parseFloat) {
      }
    }
    assert forall j | 0 <= j < |ps| :: ps[j].None?;
    FirstSomeIsFirst(ps, ParseRotationValue(v, parseFloat), Parsed(rest, parseFloat));
  }

  /** The `rotate` tag, read through `ParseRotationValue` as a string. */
  function TagRotation(tags: map<string, string>, parseFloat: Probe.ParseFloat): Option<int> {
    if "rotate" in tags then ParseRotationValue(Text(tags["rotate"]), parseFloat) else None
  }

  /** `detectOrientationRotation`: the first parsable side-data entry,
      otherwise a parsable `rotate` tag, otherwise 0; normalised into [0, 360). */
  function DetectOrientationRotation(s: Stream, parseFloat: Probe.ParseFloat): (r: int)
    ensures 0 <= r < 360
    ensures FirstRotation(s.sideData, parseFloat).Some? ==>
      r == Probe.NormalizeRotation(FirstRotation(s.sideData, parseFloat).value)
    ensures FirstRotation(s.sideData, parseFloat).None? && TagRotation(s.tags, parseFloat).Some? ==>
      r == Probe.NormalizeRotation(TagRotation(s.tags, parseFloat).value)
    ensures FirstRotation(s.sideData, parseFloat).None? && TagRotation(s.tags, parseFloat).None? ==> r == 0
  {
    match FirstRotation(s.sideData, parseFloat)
    case Some(x) => Probe.NormalizeRotation(x)
    case None =>
      match TagRotation(s.tags, parseFloat)
      case Some(x) => Probe.NormalizeRotation(x)
      case None => 0
  }

  /** Side data beats the tag. */
  lemma SideDataBeatsTag(parseFloat: Probe.ParseFloat)
    ensures DetectOrientationRotation(Stream(1920, 1080, "", "h264", map["rotate" := "270"], [Number(90.0)]), parseFloat) == 90
  {
    var s := Stream(1920, 1080, "", "h264", map["rotate" := "270"], [Number(90.0)]);
    assert Round(90.0) == 90;
    FirstRotationShort(Number(90.0), parseFloat);
  }

  /** A negative tag is lifted into range. */
  lemma NegativeTagLifted(parseFloat: Probe.ParseFloat)
    ensures DetectOrientationRotation(Stream(1920, 1080, "", "hevc", map["rotate" := "-90"], []), parseFloat) == 270
  {
    var tags := map["rotate" := "-90"];
    MinusNinety(parseFloat);
    assert "rotate" in tags && tags["rotate"] == "-90";
    assert TagRotation(tags, parseFloat) == Some(-90);
    FirstRotationShort(Other, parseFloat);
    assert Probe.NormalizeRotation(-90) == 270;
  }

  /** The text `-90` reads as -90. */
  lemma MinusNinety(parseFloat: Probe.ParseFloat)
    ensures ParseRotationValue(Text("-90"), parseFloat) == Some(-90)
  {
    assert IntToString(-90) == "-90" by {
      assert NatToString(9) == "9";
      assert NatToString(90) == "90";
    }
    ParseRotationText(-90, "", "", parseFloat);
    assert "" + IntToString(-90) + "" == "-90";
  }

  /** Broken metadata everywhere gives no rotation. */
  lemma DetectOrientationBroken(parseFloat: Probe.ParseFloat)
    requires parseFloat("bad").None?
    ensures DetectOrientationRotation(Stream(1920, 1080, "", "h264", map["rotate" := "bad"], [Text("bad")]), parseFloat) == 0
  {
    assert Atoi("bad").None? by {
      assert !IsDigit('b');
    }
    ParseRotationFallback("bad", parseFloat);
    FirstRotationShort(Text("bad"), parseFloat);
  }

  // ---------- the filter ----------

  /** `rotationFilter`: a transpose chain for quarter and half turns, and no
      filter (do not rotate) for anything else. */
  function RotationFilter(rotation: int): (r: (string, bool))
    ensures r.1 <==> Probe.NormalizeRotation(rotation) in {90, 180, 270}
    ensures !r.1 ==> r.0 == ""
  {
    var d := Probe.NormalizeRotation(rotation);
    if d == 90 then ("transpose=1", true)
    else if d == 180 then ("transpose=1,transpose=1", true)
    else if d == 270 then ("transpose=2", true)
    else ("", false)
  }

  /** Clockwise quarter turns a transpose chain applies: `transpose=1` turns
      clockwise, `transpose=2` counter-clockwise (three clockwise turns). */
  function QuarterTurns(filters: seq<string>): int {
    if |filters| == 0 then 0
    else
      QuarterTurns(filters[..|filters| - 1])
      + (if filters[|filters| - 1] == "transpose=1" then 1
         else if filters[|filters| - 1] == "transpose=2" then 3
         else 0)
  }

  /** A single transpose splits into itself. */
  lemma SplitSingle(t: string)
    requires t == "transpose=1" || t == "transpose=2"
    ensures Split(t, ',') == [t]
  {
    assert ',' !in t;
    SplitJoin([t], ',');
    assert Join([t], [',']) == t;
  }

  /** The chain chosen turns the frames by exactly the normalised rotation. */
  lemma RotationFilterTurns(rotation: int)
    requires RotationFilter(rotation).1
    ensures 90 * QuarterTurns(Split(RotationFilter(rotation).0, ',')) == Probe.NormalizeRotation(rotation)
  {
    var d := Probe.NormalizeRotation(rotation);
    var f := RotationFilter(rotation).0;
    if d == 90 {
      assert f == "transpose=1";
      SplitSingle(f);
      assert QuarterTurns(["transpose=1"]) == 1;
    } else if d == 180 {
      assert f == "transpose=1,transpose=1";
      SplitHalfTurn();
      assert ["transpose=1", "transpose=1"][..1] == ["transpose=1"];
      assert QuarterTurns(["transpose=1", "transpose=1"]) == 2;
    } else {
      assert d == 270 && f == "transpose=2";
      SplitSingle(f);
      assert QuarterTurns(["transpose=2"]) == 3;
    }
  }

  lemma SplitHalfTurn()
    ensures Split("transpose=1,transpose=1", ',') == ["transpose=1", "transpose=1"]
  {
    HalfTurnJoined();
    SplitTransposePair();
  }

  lemma HalfTurnJoined()
    ensures "transpose=1" + [','] + "transpose=1" == "transpose=1,transpose=1"
  {
  }

  lemma SplitTransposePair()
    ensures Split("transpose=1" + [','] + "transpose=1", ',') == ["transpose=1", "transpose=1"]
  {
    var t1 := "transpose=1";
    assert ',' !in t1;
    SplitJoin([t1, t1], ',');
  }

  /** Whole turns do not change the filter. */
  lemma RotationFilterPeriodic(rotation: int, turns: int)
    ensures RotationFilter(rotation + 360 * turns) == RotationFilter(rotation)
  {
    Probe.NormalizeRotationLaws(rotation, turns);
  }

  lemma RotationFilterExamples()
    ensures RotationFilter(90) == ("transpose=1", true)
    ensures RotationFilter(180) == ("transpose=1,transpose=1", true)
    ensures RotationFilter(270) == ("transpose=2", true)
    ensures RotationFilter(-90) == ("transpose=2", true)
    ensures RotationFilter(0) == ("", false)
    ensures RotationFilter(45) == ("", false)
  {
  }

  // ---------- the encoder ----------

  /** The codec names that name their own encoder. */
  predicate SelfEncoded(name: string) {
    name == "mpeg4" || name == "mjpeg" || name == "prores" || name == "dnxhd"
  }

  /** The codec names with a dedicated encoder in the table. */
  predicate Mapped(name: string) {
    name == "h264" || name == "hevc" || name == "vp8" || name == "vp9" || name == "av1"
  }

  /** The encoder for a normalised codec name: the table's entry, the name
      itself for the four self-encoded codecs, libx264 otherwise. */
  function EncoderFor(name: string): (e: string)
    ensures SelfEncoded(name) ==> e == name
    ensures e == name ==> SelfEncoded(name) || name == "libx264"
    ensures e == "libx264" <==> name == "h264" || (!Mapped(name) && !SelfEncoded(name))
    ensures name == "hevc" ==> e == "libx265"
    ensures name == "vp8" ==> e == "libvpx"
    ensures name == "vp9" ==> e == "libvpx-vp9"
    ensures name == "av1" ==> e == "libaom-av1"
    ensures e != ""
  {
    match name
    case "h264" => "libx264"
    case "hevc" => "libx265"
    case "vp8" => "libvpx"
    case "vp9" => "libvpx-vp9"
    case "av1" => "libaom-av1"
    case "mpeg4" => name
    case "mjpeg" => name
    case "prores" => name
    case "dnxhd" => name
    case _ => "libx264"
  }

  /** `preferredVideoEncoder`: the encoder for the trimmed, lower-cased codec
      name. */
  function PreferredVideoEncoder(codecName: string): (e: string)
    ensures var k := ToLower(TrimSpace(codecName));
      && (k == "h264" ==> e == "libx264")
      && (k == "hevc" ==> e == "libx265")
      && (k == "vp8" ==> e == "libvpx")
      && (k == "vp9" ==> e == "libvpx-vp9")
      && (k == "av1" ==> e == "libaom-av1")
      && (SelfEncoded(k) ==> e == k)
      && (!Mapped(k) && !SelfEncoded(k) ==> e == "libx264")
    ensures e != ""
  {
    EncoderFor(ToLower(TrimSpace(codecName)))
  }

  /** Two codec names that agree up to letter case get the same encoder. */
  lemma PreferredVideoEncoderCaseless(a: string, b: string)
    requires ToLower(a) == ToLower(b)
    ensures PreferredVideoEncoder(a) == PreferredVideoEncoder(b)
  {
    TrimSpaceLower(a);
    TrimSpaceLower(b);
  }

  /** Lower-casing a codec name first does not change its encoder. */
  lemma PreferredVideoEncoderOfLower(name: string)
    ensures PreferredVideoEncoder(ToLower(name)) == PreferredVideoEncoder(name)
  {
    ToLowerIdempotent(name);
    PreferredVideoEncoderCaseless(ToLower(name), name);
  }

  /** Blank padding around a codec name does not change the encoder. */
  lemma PreferredVideoEncoderPadded(lead: string, name: string, trail: string)
    requires IsBlank(lead) && IsBlank(trail) && IsTrimmed(name)
    ensures PreferredVideoEncoder(lead + name + trail) == PreferredVideoEncoder(name)
  {
    TrimSpaceOfPadded(lead, name, trail);
    TrimSpaceOfTrimmed(name);
  }

  /** A codec name without surrounding blanks whose lower-case form is
      `lower` gets the encoder for `lower`. */
  lemma PreferredVideoEncoderOf(name: string, lower: string)
    requires IsTrimmed(name) && ToLower(name) == lower
    ensures PreferredVideoEncoder(name) == EncoderFor(lower)
  {
    TrimSpaceOfTrimmed(name);
  }

  /** The facts about one literal codec name the examples below need. */
  predicate NamesEncoder(name: string, lower: string, encoder: string) {
    IsTrimmed(name) && ToLower(name) == lower && EncoderFor(lower) == encoder
  }

  lemma H264Name()
    ensures NamesEncoder("h264", "h264", "libx264")
  {
    assert ToLower("h264") == "h264";
  }

  lemma HevcName()
    ensures NamesEncoder("HEVC", "hevc", "libx265")
  {
    assert ToLower("HEVC") == "hevc";
  }

  lemma ProResName()
    ensures NamesEncoder("ProRes", "prores", "prores")
  {
    assert ToLower("ProRes") == "prores";
  }

  lemma TheoraName()
    ensures NamesEncoder("theora", "theora", "libx264")
  {
    assert ToLower("theora") == "theora";
  }

  /** H.264 sources are re-encoded with libx264. */
  lemma PreferredVideoEncoderH264()
    ensures PreferredVideoEncoder("h264") == "libx264"
  {
    H264Name();
    PreferredVideoEncoderOf("h264", "h264");
  }

  /** Upper case is ignored. */
  lemma PreferredVideoEncoderHevc()
    ensures PreferredVideoEncoder("HEVC") == "libx265"
  {
    HevcName();
    PreferredVideoEncoderOf("HEVC", "hevc");
  }

  /** A self-encoded codec keeps its (lower-cased) name. */
  lemma PreferredVideoEncoderProRes()
    ensures PreferredVideoEncoder("ProRes") == "prores"
  {
    ProResName();
    PreferredVideoEncoderOf("ProRes", "prores");
  }

  /** An unknown codec gets libx264. */
  lemma PreferredVideoEncoderUnknown()
    ensures PreferredVideoEncoder("theora") == "libx264"
  {
    TheoraName();
    PreferredVideoEncoderOf("theora", "theora");
  }

  // ---------- command lines ----------

  /** The fields the orientation probe asks ffprobe for. */
  const OrientationEntries: string := "stream=width,height,codec_name:stream_tags=rotate:stream_side_data=rotation"

  function ProbeArgs(input: string): (r: seq<string>)
    ensures |r| > 0 && r[|r| - 1] == input
  {
    ["-v", "error", "-select_streams", "v:0",
     "-show_entries", OrientationEntries, "-of", "json", input]
  }

  /** Quiet, overwriting ffmpeg. */
  const Quiet: seq<string> := ["-y", "-v", "error"]

  /** Stream copy with the rotate tag cleared. */
  const CopyClearTag: seq<string> := ["-c", "copy", "-metadata:s:v:0", "rotate=0"]

  /** The first video stream and any audio. */
  const MapStreams: seq<string> := ["-map", "0:v:0", "-map", "0:a?"]

  /** Audio copy with the rotate tag cleared. */
  const CopyAudioClearTag: seq<string> := ["-c:a", "copy", "-metadata:s:v:0", "rotate=0"]

  /** The remux copies every stream, clears the rotate tag, and writes `output`. */
  function RemuxArgs(input: string, output: string): (r: seq<string>)
    ensures |r| > 0 && r[|r| - 1] == output
    ensures "-c" in r && "copy" in r && "rotate=0" in r
  {
    Quiet + ["-i", input] + CopyClearTag + [output]
  }

  /** The re-encode disables ffmpeg's own autorotation, applies `filter` to
      the first video stream, copies audio, clears the rotate tag, and writes
      `output`. */
  function RotateArgs(input: string, output: string, encoder: string, filter: string): (r: seq<string>)
    ensures |r| > 0 && r[|r| - 1] == output
    ensures "-noautorotate" in r && filter in r && encoder in r && "rotate=0" in r
  {
    Quiet + ["-noautorotate", "-i", input] + MapStreams + ["-vf", filter, "-c:v", encoder]
      + CopyAudioClearTag + [output]
  }

  // ---------- probing ----------

  /** What the orientation probe keeps of the first video stream. */
  datatype Meta = Meta(codecName: string, width: int, height: int, rotation: int)

  datatype MetaProbe = MetaProbe(log: seq<Call>, result: Result<Meta, Error>)

  const ProbeFailed: string := "ffprobe orientation probe failed"
  const ParseFailed: string := "parse ffprobe json"

  /** `probeOrientationMetadata` and `parseOrientationProbeOutput`: one
      ffprobe call; its error is wrapped, an undecodable reply is a parse
      error, an empty stream list is an error, and otherwise the first
      stream is described. */
  function ProbeMeta(input: string, parseFloat: Probe.ParseFloat, respond: Responder, log: seq<Call>): (r: MetaProbe)
    ensures r.log == log + [Call("ffprobe", ProbeArgs(input))]
    ensures var rep := respond(|log|, Call("ffprobe", ProbeArgs(input)));
      && (rep.err.Some? ==> r.result == Err(Wrapped(ProbeFailed, rep.err.value)))
      && (rep.err.None? && rep.output.doc.None? ==> r.result == Err(Wrapped(ParseFailed, Probe.InvalidJson)))
      && (rep.err.None? && rep.output.doc.Some? && |rep.output.doc.value.streams| == 0 ==>
            r.result == Err(Probe.NoVideoStream))
      && (r.result.Ok? <==> rep.err.None? && rep.output.doc.Some? && |rep.output.doc.value.streams| > 0)
      && (r.result.Ok? ==>
            var s := rep.output.doc.value.streams[0];
            r.result.value == Meta(s.codecName, s.width, s.height, DetectOrientationRotation(s, parseFloat)))
    ensures r.result.Ok? ==> 0 <= r.result.value.rotation < 360
  {
    var (log1, rep) := Executor.Execute(respond, log, Call("ffprobe", ProbeArgs(input)));
    if rep.err.Some? then MetaProbe(log1, Err(Wrapped(ProbeFailed, rep.err.value)))
    else if rep.output.doc.None? then MetaProbe(log1, Err(Wrapped(ParseFailed, Probe.InvalidJson)))
    else if |rep.output.doc.value.streams| == 0 then MetaProbe(log1, Err(Probe.NoVideoStream))
    else
      var s := rep.output.doc.value.streams[0];
      MetaProbe(log1, Ok(Meta(s.codecName, s.width, s.height, DetectOrientationRotation(s, parseFloat))))
  }

  // ---------- normalising ----------

  /** The file-system outcomes the operation depends on: the temporary file
      `prepareTempOutput` creates next to the output (or its error), and the
      error, if any, of the final rename onto the output path. */
  datatype FileSystem = FileSystem(temp: Result<string, Error>, rename: Option<Error>)

  datatype Normalized = Normalized(log: seq<Call>, err: Option<Error>)

  /** The contexts the normalisation wraps its failures in. */
  const RemuxFailed: string := "normalize orientation: ffmpeg remux failed"
  const RemuxFinalize: string := "finalize remux output"
  const EncodeFailed: string := "normalize orientation: ffmpeg failed"
  const VerifyFailed: string := "verify normalized output"
  const OutputFinalize: string := "finalize normalized output"
  const StillPresent: string := "verify normalized output: rotate metadata still present ("

  const InputRequired: Error := Failure("input path is required")
  const OutputRequired: Error := Failure("output path is required")

  predicate PathsGiven(input: string, output: string) {
    TrimSpace(input) != "" && TrimSpace(output) != ""
  }

  /** Every call in `calls` names `path` as its last argument, the file it writes or probes. */
  predicate AllOn(calls: seq<Call>, path: string) {
    forall k | 0 <= k < |calls| :: |calls[k].args| > 0 && calls[k].args[|calls[k].args| - 1] == path
  }

  /** The remux branch: one ffmpeg call into the temp file, then the rename. */
  function Remux(input: string, tmp: string, fs: FileSystem, respond: Responder, log: seq<Call>): (r: Normalized)
    ensures r.log == log + [Call("ffmpeg", RemuxArgs(input, tmp))]
    ensures var rep := respond(|log|, Call("ffmpeg", RemuxArgs(input, tmp)));
      && (rep.err.Some? ==> r.err == Some(Wrapped(RemuxFailed, rep.err.value)))
      && (rep.err.None? && fs.rename.Some? ==> r.err == Some(Wrapped(RemuxFinalize, fs.rename.value)))
      && (r.err.None? <==> rep.err.None? && fs.rename.None?)
  {
    var (log1, rep) := Executor.Execute(respond, log, Call("ffmpeg", RemuxArgs(input, tmp)));
    if rep.err.Some? then Normalized(log1, Some(Wrapped(RemuxFailed, rep.err.value)))
    else if fs.rename.Some? then Normalized(log1, Some(Wrapped(RemuxFinalize, fs.rename.value)))
    else Normalized(log1, None)
  }

  /** The re-encode with one retry: when the preferred encoder fails and is
      not libx264, the same command is run once more with libx264. The error
      is the last attempt's. */
  function Reencode(input: string, tmp: string, encoder: string, filter: string, respond: Responder, log: seq<Call>): (r: (seq<Call>, Option<Error>))
    ensures |log| < |r.0| <= |log| + 2 && r.0[..|log|] == log && AllOn(r.0[|log|..], tmp)
    ensures var first := Call("ffmpeg", RotateArgs(input, tmp, encoder, filter));
      var retry := Call("ffmpeg", RotateArgs(input, tmp, "libx264", filter));
      var firstFailed := respond(|log|, first).err.Some?;
      && (firstFailed && encoder != "libx264" ==>
            r.0 == log + [first, retry] && r.1 == respond(|log| + 1, retry).err)
      && (!(firstFailed && encoder != "libx264") ==>
            r.0 == log + [first] && r.1 == respond(|log|, first).err)
  {
    var (log1, rep1) := Executor.Execute(respond, log, Call("ffmpeg", RotateArgs(input, tmp, encoder, filter)));
    if rep1.err.Some? && encoder != "libx264" then
      var (log2, rep2) := Executor.Execute(respond, log1, Call("ffmpeg", RotateArgs(input, tmp, "libx264", filter)));
      (log2, rep2.err)
    else (log1, rep1.err)
  }

  function StillRotated(rotation: int): Error {
    Failure(StillPresent + IntToString(rotation) + ")")
  }

  /** Verification after a re-encode: probe the temp file, refuse a result
      that still carries a rotation, then rename. */
  function Verify(tmp: string, parseFloat: Probe.ParseFloat, fs: FileSystem, respond: Responder, log: seq<Call>): (r: Normalized)
    ensures r.log == log + [Call("ffprobe", ProbeArgs(tmp))]
    ensures var check := ProbeMeta(tmp, parseFloat, respond, log);
      && (check.result.Err? ==> r.err == Some(Wrapped(VerifyFailed, check.result.error)))
      && (check.result.Ok? && check.result.value.rotation != 0 ==>
            r.err == Some(StillRotated(check.result.value.rotation)))
      && (check.result.Ok? && check.result.value.rotation == 0 && fs.rename.Some? ==>
            r.err == Some(Wrapped(OutputFinalize, fs.rename.value)))
      && (r.err.None? <==> check.result.Ok? && check.result.value.rotation == 0 && fs.rename.None?)
  {
    var check := ProbeMeta(tmp, parseFloat, respond, log);
    match check.result
    case Err(e) => Normalized(check.log, Some(Wrapped(VerifyFailed, e)))
    case Ok(out) =>
      if out.rotation != 0 then Normalized(check.log, Some(StillRotated(out.rotation)))
      else if fs.rename.Some? then Normalized(check.log, Some(Wrapped(OutputFinalize, fs.rename.value)))
      else Normalized(check.log, None)
  }

  /** The rotate branch: re-encode into the temp file; if that succeeds,
      verify it and rename. */
  function Rotate(input: string, tmp: string, encoder: string, filter: string, parseFloat: Probe.ParseFloat,
                  fs: FileSystem, respond: Responder, log: seq<Call>): (r: Normalized)
    ensures |log| < |r.log| <= |log| + 3 && r.log[..|log|] == log && AllOn(r.log[|log|..], tmp)
    ensures r.err.None? ==> fs.rename.None?
    ensures var (log1, encErr) := Reencode(input, tmp, encoder, filter, respond, log);
      && (encErr.Some? ==> r == Normalized(log1, Some(Wrapped(EncodeFailed, encErr.value))))
      && (encErr.None? ==> r == Verify(tmp, parseFloat, fs, respond, log1))
  {
    var (log1, encErr) := Reencode(input, tmp, encoder, filter, respond, log);
    if encErr.Some? then Normalized(log1, Some(Wrapped(EncodeFailed, encErr.value)))
    else
      var r := Verify(tmp, parseFloat, fs, respond, log1);
      assert r.log[|log|..] == log1[|log|..] + [Call("ffprobe", ProbeArgs(tmp))];
      r
  }

  /** Everything after a successful probe of the source: no filter means
      remux, a filter means re-encode and verify; either way into the temp
      file. */
  function Transform(input: string, m: Meta, parseFloat: Probe.ParseFloat,
                     fs: FileSystem, respond: Responder, log: seq<Call>): (r: Normalized)
    ensures |log| <= |r.log| <= |log| + 3 && r.log[..|log|] == log
    ensures fs.temp.Err? ==> r == Normalized(log, Some(fs.temp.error))
    ensures fs.temp.Ok? ==> |r.log| > |log| && AllOn(r.log[|log|..], fs.temp.value)
    ensures r.err.None? ==> fs.temp.Ok? && fs.rename.None?
    ensures fs.temp.Ok? && !RotationFilter(m.rotation).1 ==> r == Remux(input, fs.temp.value, fs, respond, log)
    ensures fs.temp.Ok? && RotationFilter(m.rotation).1 ==>
      r == Rotate(input, fs.temp.value, PreferredVideoEncoder(m.codecName), RotationFilter(m.rotation).0,
                  parseFloat, fs, respond, log)
  {
    var (filter, shouldRotate) := RotationFilter(m.rotation);
    match fs.temp
    case Err(e) => Normalized(log, Some(e))
    case Ok(tmp) =>
      if !shouldRotate then Remux(input, tmp, fs, respond, log)
      else Rotate(input, tmp, PreferredVideoEncoder(m.codecName), filter, parseFloat, fs, respond, log)
  }

  /** `normalizeRotationWithExecutor`. Blank paths are refused before any
      command runs; the source is probed once; then it is transformed into
      the temp file, which only the final rename moves onto the output path. */
  function NormalizeWithExecutor(input: string, output: string, parseFloat: Probe.ParseFloat,
                                 fs: FileSystem, respond: Responder, log: seq<Call>): (r: Normalized)
    ensures TrimSpace(input) == "" ==> r == Normalized(log, Some(InputRequired))
    ensures TrimSpace(input) != "" && TrimSpace(output) == "" ==> r == Normalized(log, Some(OutputRequired))
    ensures |log| <= |r.log| <= |log| + 4 && r.log[..|log|] == log
    ensures PathsGiven(input, output) ==> |r.log| > |log| && r.log[|log|] == Call("ffprobe", ProbeArgs(input))
    ensures |r.log| > |log| + 1 ==> fs.temp.Ok? && AllOn(r.log[|log| + 1..], fs.temp.value)
    ensures r.err.None? ==> PathsGiven(input, output) && fs.temp.Ok? && fs.rename.None? && |r.log| > |log| + 1
  {
    if TrimSpace(input) == "" then Normalized(log, Some(InputRequired))
    else if TrimSpace(output) == "" then Normalized(log, Some(OutputRequired))
    else
      var meta := ProbeMeta(input, parseFloat, respond, log);
      match meta.result
      case Err(e) => Normalized(meta.log, Some(e))
      case Ok(m) =>
        var r := Transform(input, m, parseFloat, fs, respond, meta.log);
        assert r.log[|log| + 1..] == r.log[|meta.log|..];
        r
  }

  // ---------- the two paths ----------

  /** The source's probe succeeded; `m` is what it reported. */
  predicate Probed(input: string, parseFloat: Probe.ParseFloat, respond: Responder, log: seq<Call>, m: Meta) {
    ProbeMeta(input, parseFloat, respond, log).result == Ok(m)
  }

  /** After a successful probe the operation is the transformation of the
      source, with the probe logged. */
  lemma NormalizeAfterProbe(input: string, output: string, parseFloat: Probe.ParseFloat,
                            fs: FileSystem, respond: Responder, log: seq<Call>, m: Meta)
    requires PathsGiven(input, output) && Probed(input, parseFloat, respond, log, m)
    ensures NormalizeWithExecutor(input, output, parseFloat, fs, respond, log)
         == Transform(input, m, parseFloat, fs, respond, log + [Call("ffprobe", ProbeArgs(input))])
  {
    assert ProbeMeta(input, parseFloat, respond, log).log == log + [Call("ffprobe", ProbeArgs(input))];
  }

  /** The log of the rotate branch: the encoder attempts, then the probe of
      the temp file when the attempts succeeded. */
  lemma RotateLog(input: string, tmp: string, encoder: string, filter: string, parseFloat: Probe.ParseFloat,
                  fs: FileSystem, respond: Responder, log: seq<Call>)
    ensures var (log2, encErr) := Reencode(input, tmp, encoder, filter, respond, log);
      var r := Rotate(input, tmp, encoder, filter, parseFloat, fs, respond, log);
      && (encErr.Some? ==> r.log == log2 && r.err.Some?)
      && (encErr.None? ==> r.log == log2 + [Call("ffprobe", ProbeArgs(tmp))]
                           && r == Verify(tmp, parseFloat, fs, respond, log2))
  {
  }

  /** The attempts of the rotate branch, position by position. */
  lemma RotateAttempts(input: string, tmp: string, encoder: string, filter: string, parseFloat: Probe.ParseFloat,
                       fs: FileSystem, respond: Responder, log: seq<Call>)
    ensures var r := Rotate(input, tmp, encoder, filter, parseFloat, fs, respond, log);
      var first := Call("ffmpeg", RotateArgs(input, tmp, encoder, filter));
      var retried := respond(|log|, first).err.Some? && encoder != "libx264";
      var attempts := if retried then 2 else 1;
      && |log| + attempts <= |r.log| <= |log| + 1 + attempts
      && r.log[|log|] == first
      && (retried ==> r.log[|log| + 1] == Call("ffmpeg", RotateArgs(input, tmp, "libx264", filter)))
      && (|r.log| == |log| + 1 + attempts ==> r.log[|r.log| - 1] == Call("ffprobe", ProbeArgs(tmp)))
  {
    RotateLog(input, tmp, encoder, filter, parseFloat, fs, respond, log);
    var (log2, encErr) := Reencode(input, tmp, encoder, filter, respond, log);
    var r := Rotate(input, tmp, encoder, filter, parseFloat, fs, respond, log);
    assert r.log[..|log2|] == log2;
  }

  /** No filter: exactly the probe and one remux into the temp file; success
      exactly when the remux and the rename both succeed. */
  lemma RemuxPath(input: string, output: string, parseFloat: Probe.ParseFloat,
                  fs: FileSystem, respond: Responder, log: seq<Call>, m: Meta)
    requires PathsGiven(input, output) && Probed(input, parseFloat, respond, log, m)
    requires !RotationFilter(m.rotation).1 && fs.temp.Ok?
    ensures var r := NormalizeWithExecutor(input, output, parseFloat, fs, respond, log);
      && r.log == log + [Call("ffprobe", ProbeArgs(input)), Call("ffmpeg", RemuxArgs(input, fs.temp.value))]
      && (r.err.None? <==>
            respond(|log| + 1, Call("ffmpeg", RemuxArgs(input, fs.temp.value))).err.None? && fs.rename.None?)
  {
    var log1 := log + [Call("ffprobe", ProbeArgs(input))];
    NormalizeAfterProbe(input, output, parseFloat, fs, respond, log, m);
    assert |log1| == |log| + 1;
    assert log1 + [Call("ffmpeg", RemuxArgs(input, fs.temp.value))]
        == log + [Call("ffprobe", ProbeArgs(input)), Call("ffmpeg", RemuxArgs(input, fs.temp.value))];
  }

  /** A filter: one ffmpeg attempt with the preferred encoder, and a second
      one, with libx264, exactly when the first failed and did not already
      use libx264; whatever follows the attempts is the probe of the temp
      file. */
  lemma RotatePath(input: string, output: string, parseFloat: Probe.ParseFloat,
                   fs: FileSystem, respond: Responder, log: seq<Call>, m: Meta)
    requires PathsGiven(input, output) && Probed(input, parseFloat, respond, log, m)
    requires RotationFilter(m.rotation).1 && fs.temp.Ok?
    ensures var r := NormalizeWithExecutor(input, output, parseFloat, fs, respond, log);
      var encoder := PreferredVideoEncoder(m.codecName);
      var filter := RotationFilter(m.rotation).0;
      var first := Call("ffmpeg", RotateArgs(input, fs.temp.value, encoder, filter));
      var retried := respond(|log| + 1, first).err.Some? && encoder != "libx264";
      var attempts := if retried then 2 else 1;
      && |log| + 1 + attempts <= |r.log| <= |log| + 2 + attempts
      && r.log[|log| + 1] == first
      && (retried ==> r.log[|log| + 2] == Call("ffmpeg", RotateArgs(input, fs.temp.value, "libx264", filter)))
      && (|r.log| == |log| + 2 + attempts ==> r.log[|r.log| - 1] == Call("ffprobe", ProbeArgs(fs.temp.value)))
  {
    var tmp := fs.temp.value;
    var encoder := PreferredVideoEncoder(m.codecName);
    var filter := RotationFilter(m.rotation).0;
    var log1 := log + [Call("ffprobe", ProbeArgs(input))];
    NormalizeAfterProbe(input, output, parseFloat, fs, respond, log, m);
    var r := Rotate(input, tmp, encoder, filter, parseFloat, fs, respond, log1);
    assert NormalizeWithExecutor(input, output, parseFloat, fs, respond, log) == r;
    RotateAttempts(input, tmp, encoder, filter, parseFloat, fs, respond, log1);
    assert |log1| == |log| + 1;
  }

  /** Success after a re-encode means the temp file was probed last and
      reported no rotation. */
  lemma RotateSuccessVerified(input: string, output: string, parseFloat: Probe.ParseFloat,
                              fs: FileSystem, respond: Responder, log: seq<Call>, m: Meta)
    requires PathsGiven(input, output) && Probed(input, parseFloat, respond, log, m)
    requires RotationFilter(m.rotation).1
    requires NormalizeWithExecutor(input, output, parseFloat, fs, respond, log).err.None?
    ensures var r := NormalizeWithExecutor(input, output, parseFloat, fs, respond, log);
      var before := r.log[..|r.log| - 1];
      && r.log[|r.log| - 1] == Call("ffprobe", ProbeArgs(fs.temp.value))
      && ProbeMeta(fs.temp.value, parseFloat, respond, before).result.Ok?
      && ProbeMeta(fs.temp.value, parseFloat, respond, before).result.value.rotation == 0
  {
    var tmp := fs.temp.value;
    var encoder := PreferredVideoEncoder(m.codecName);
    var filter := RotationFilter(m.rotation).0;
    var log1 := log + [Call("ffprobe", ProbeArgs(input))];
    NormalizeAfterProbe(input, output, parseFloat, fs, respond, log, m);
    var r := Rotate(input, tmp, encoder, filter, parseFloat, fs, respond, log1);
    assert NormalizeWithExecutor(input, output, parseFloat, fs, respond, log) == r;
    RotateLog(input, tmp, encoder, filter, parseFloat, fs, respond, log1);
    var (log2, encErr) := Reencode(input, tmp, encoder, filter, respond, log1);
    assert encErr.None?;
    assert r.log[..|r.log| - 1] == log2;
  }

  /** An executor failure of the source probe is passed up wrapped, so
      `errors.Is` still finds it. */
  lemma ProbeErrorKept(input: string, output: string, parseFloat: Probe.ParseFloat,
                       fs: FileSystem, respond: Responder, log: seq<Call>)
    requires PathsGiven(input, output)
    requires respond(|log|, Call("ffprobe", ProbeArgs(input))).err.Some?
    ensures var r := NormalizeWithExecutor(input, output, parseFloat, fs, respond, log);
      var e := respond(|log|, Call("ffprobe", ProbeArgs(input))).err.value;
      && r.log == log + [Call("ffprobe", ProbeArgs(input))]
      && r.err == Some(Wrapped(ProbeFailed, e)) && Is(r.err.value, e)
  {
  }

  // ---------- the test scenarios ----------

  /** The canned replies of a scenario: the first call's ffprobe reply
      decodes to `first`, every later one to `later`; ffmpeg always succeeds. */
  function Scripted(first: Doc, later: Doc): Responder {
    (n: nat, c: Call) =>
      if c.name == "ffprobe" then Reply(Output("{}", Some(if n == 0 then first else later)), None, None)
      else Reply(NoOutput, None, None)
  }

  /** The stored 1920x1080 stream with a 90-degree side-data rotation, and
      the upright 1080x1920 stream the re-encode produces. */
  const Turned: Stream := Stream(1920, 1080, "", "h264", map[], [Number(90.0)])
  const Upright: Stream := Stream(1080, 1920, "", "h264", map[], [])

  /** The source probe of the scenario reports the quarter turn. */
  lemma TurnedProbed(parseFloat: Probe.ParseFloat, input: string)
    ensures Probed(input, parseFloat, Scripted(Doc([Turned]), Doc([Upright])), [], Meta("h264", 1920, 1080, 90))
  {
    assert Round(90.0) == 90;
    FirstRotationShort(Number(90.0), parseFloat);
  }

  /** Any later probe, such as the one verifying the temp file, reports an
      upright stream. */
  lemma UprightProbed(parseFloat: Probe.ParseFloat, path: string, log: seq<Call>)
    requires |log| > 0
    ensures Probed(path, parseFloat, Scripted(Doc([Turned]), Doc([Upright])), log, Meta("h264", 1080, 1920, 0))
  {
    FirstRotationShort(Other, parseFloat);
  }

  /** A source tagged with a 90-degree side-data rotation is re-encoded once,
      with autorotation off, the clockwise transpose and the tag cleared, and
      the (now upright) result passes verification. */
  lemma Rotation90Scenario(parseFloat: Probe.ParseFloat, input: string, output: string, tmp: string)
    requires PathsGiven(input, output)
    ensures var r := NormalizeWithExecutor(input, output, parseFloat, FileSystem(Ok(tmp), None),
      Scripted(Doc([Turned]), Doc([Upright])), []);
      && r.err.None? && |r.log| == 3 && r.log[1].name == "ffmpeg" && r.log[2].name == "ffprobe"
      && "-noautorotate" in r.log[1].args && "transpose=1" in r.log[1].args && "rotate=0" in r.log[1].args
  {
    var respond := Scripted(Doc([Turned]), Doc([Upright]));
    var fs := FileSystem(Ok(tmp), None);
    var m := Meta("h264", 1920, 1080, 90);
    var log1 := [Call("ffprobe", ProbeArgs(input))];
    TurnedProbed(parseFloat, input);
    NormalizeAfterProbe(input, output, parseFloat, fs, respond, [], m);
    assert [] + [Call("ffprobe", ProbeArgs(input))] == log1;
    assert RotationFilter(90) == ("transpose=1", true);
    PreferredVideoEncoderH264();
    var r := Rotate(input, tmp, "libx264", "transpose=1", parseFloat, fs, respond, log1);
    assert NormalizeWithExecutor(input, output, parseFloat, fs, respond, []) == r;
    var first := Call("ffmpeg", RotateArgs(input, tmp, "libx264", "transpose=1"));
    assert respond(1, first).err.None?;
    var log2 := log1 + [first];
    assert Reencode(input, tmp, "libx264", "transpose=1", respond, log1) == (log2, None);
    RotateLog(input, tmp, "libx264", "transpose=1", parseFloat, fs, respond, log1);
    UprightProbed(parseFloat, tmp, log2);
    assert r == Verify(tmp, parseFloat, fs, respond, log2);
  }

  /** A source without rotation is remuxed: one ffmpeg call that copies the
      streams and clears the tag. */
  lemma NoRotationScenario(parseFloat: Probe.ParseFloat, input: string, output: string, tmp: string)
    requires PathsGiven(input, output)
    ensures var plain := Doc([Stream(1280, 720, "", "h264", map[], [])]);
      var r := NormalizeWithExecutor(input, output, parseFloat, FileSystem(Ok(tmp), None),
                                     Scripted(plain, plain), []);
      && r.err.None? && |r.log| == 2 && r.log[1].name == "ffmpeg"
      && "-c" in r.log[1].args && "copy" in r.log[1].args && "rotate=0" in r.log[1].args
  {
    var plain := Doc([Stream(1280, 720, "", "h264", map[], [])]);
    var respond := Scripted(plain, plain);
    var m := Meta("h264", 1280, 720, 0);
    FirstRotationShort(Other, parseFloat);
    assert Probed(input, parseFloat, respond, [], m);
    assert !RotationFilter(0).1;
    RemuxPath(input, output, parseFloat, FileSystem(Ok(tmp), None), respond, [], m);
    assert respond(1, Call("ffmpeg", RemuxArgs(input, tmp))).err.None?;
  }
}
