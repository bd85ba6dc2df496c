/** The top-level pipeline (encode.go, config/profiles.go, job.go): probe the
    input, build and optimise the ladder, pick the packaging profile, then
    hand everything to the HLS or DASH encoder. */
module Mosaic {
  import opened Wrappers
  import opened Executor
  import opened Probe
  import opened Ladder
  import opened Optimize

  /** `config.Profile`: segment length in seconds and the low-latency switch. */
  datatype Profile = Profile(segmentDuration: int, lowLatency: bool)

  const ZeroProfile: Profile := Profile(0, false)
  const Vod: Profile := Profile(5, false)
  const Live: Profile := Profile(2, true)

  /** The job's profile names. */
  const ProfileVod: string := "vod"
  const ProfileLive: string := "live"

  /** `Job`: where to read, where to write, which profile. */
  datatype Job = Job(input: string, outputDir: string, profile: string)

  /** The profile switch: the live name selects `Live`; every other name,
      the empty one included, selects `Vod`. */
  function SelectProfile(name: string): (p: Profile)
    ensures p == Live <==> name == ProfileLive
    ensures p == Vod <==> name != ProfileLive
    ensures p.lowLatency <==> p.segmentDuration == 2
  {
    if name == ProfileLive then Live else Vod
  }

  /** What `initializeWithExecutor` returns besides the error. */
  datatype Setup = Setup(info: VideoInfo, profile: Profile, ladder: seq<Rendition>)

  const ZeroSetup: Setup := Setup(ZeroInfo, ZeroProfile, [])

  datatype Initialized = Initialized(log: seq<Call>, setup: Setup, err: Option<Error>)

  /** `initializeWithExecutor`: probe; on failure return the zero values and
      the probe's error; otherwise build the ladder, optimise it, and select
      the profile. */
  function InitializeWithExecutor(job: Job, parseFloat: ParseFloat, respond: Responder, log: seq<Call>): (r: Initialized)
    ensures var p := InputWithExecutor(job.input, parseFloat, respond, log);
      && r.log == p.log
      && (r.err.Some? <==> p.result.Err?)
      && (r.err.Some? ==> r.err.value == p.result.error && r.setup == ZeroSetup)
      && (r.err.None? ==> r.setup.info == p.result.value)
    ensures r.err.None? ==>
      && r.setup.ladder == Apply(Build(r.setup.info))
      && (r.setup.profile == Live <==> job.profile == ProfileLive)
      && (r.setup.profile == Vod <==> job.profile != ProfileLive)
      && (r.setup.ladder == [] <==> r.setup.info.height < 360)
      && Spread(r.setup.ladder)
      && (forall x | x in r.setup.ladder :: x.maxRate <= 5000 && x.bufSize == 2 * x.maxRate)
      && 0 <= r.setup.info.rotation < 360
  {
    var p := InputWithExecutor(job.input, parseFloat, respond, log);
    match p.result
    case Err(e) => Initialized(p.log, ZeroSetup, Some(e))
    case Ok(info) =>
      var l := Apply(Build(info));
      ProbedRotationNormalised(job.input, parseFloat, respond, log);
      Initialized(p.log, Setup(info, SelectProfile(job.profile), l), None)
  }

  /** What the pipeline hands to the packaging encoder. */
  datatype EncodeRequest = EncodeRequest(
    input: string,
    outputDir: string,
    info: VideoInfo,
    profile: Profile,
    ladder: seq<Rendition>)

  /** A packaging encoder (`EncodeHLSCMAFWithExecutor` or
      `EncodeDASHCMAFWithExecutor`), seen only through its outcome. */
  type Packager = EncodeRequest -> Option<Error>

  /** A run: the executor log of the set-up, the request the encoder got
      (none when set-up failed), and the returned error. */
  datatype Run = Run(log: seq<Call>, request: Option<EncodeRequest>, err: Option<Error>)

  /** The shared shape of `EncodeHlsWithExecutor` and `EncodeDashWithExecutor`. */
  function Encode(job: Job, parseFloat: ParseFloat, packager: Packager, respond: Responder, log: seq<Call>): (r: Run)
    ensures var init := InitializeWithExecutor(job, parseFloat, respond, log);
      && r.log == init.log
      && (r.request.None? <==> init.err.Some?)
      && (init.err.Some? ==> r.err == init.err)
      && (r.request.Some? ==>
            && r.request.value == EncodeRequest(job.input, job.outputDir, init.setup.info, init.setup.profile, init.setup.ladder)
            && r.err == packager(r.request.value))
  {
    var init := InitializeWithExecutor(job, parseFloat, respond, log);
    if init.err.Some? then Run(init.log, None, init.err)
    else
      var req := EncodeRequest(job.input, job.outputDir, init.setup.info, init.setup.profile, init.setup.ladder);
      Run(init.log, Some(req), packager(req))
  }

  /** `EncodeHlsWithExecutor`. */
  function EncodeHls(job: Job, parseFloat: ParseFloat, hls: Packager, respond: Responder, log: seq<Call>): (r: Run)
    ensures r.request.Some? ==> r.err == hls(r.request.value)
    ensures r.request.Some? ==> r.request.value.input == job.input && r.request.value.outputDir == job.outputDir
    ensures r.request.None? ==> r.err.Some?
  {
    Encode(job, parseFloat, hls, respond, log)
  }

  /** `EncodeDashWithExecutor`. */
  function EncodeDash(job: Job, parseFloat: ParseFloat, dash: Packager, respond: Responder, log: seq<Call>): (r: Run)
    ensures r.request.Some? ==> r.err == dash(r.request.value)
    ensures r.request.Some? ==> r.request.value.input == job.input && r.request.value.outputDir == job.outputDir
    ensures r.request.None? ==> r.err.Some?
  {
    Encode(job, parseFloat, dash, respond, log)
  }

  /** HLS and DASH share the set-up: the same job and replies give both
      packagers the same request. */
  lemma SameRequestForBothFormats(job: Job, parseFloat: ParseFloat, hls: Packager, dash: Packager, respond: Responder, log: seq<Call>)
    ensures EncodeHls(job, parseFloat, hls, respond, log).request == EncodeDash(job, parseFloat, dash, respond, log).request
    ensures EncodeHls(job, parseFloat, hls, respond, log).log == EncodeDash(job, parseFloat, dash, respond, log).log
  {
  }

  /** A failed probe never reaches the encoder, and its error comes back as is. */
  lemma ProbeFailureStopsEncode(job: Job, parseFloat: ParseFloat, packager: Packager, respond: Responder, log: seq<Call>)
    requires InputWithExecutor(job.input, parseFloat, respond, log).result.Err?
    ensures Encode(job, parseFloat, packager, respond, log).request.None?
    ensures Encode(job, parseFloat, packager, respond, log).err
      == Some(InputWithExecutor(job.input, parseFloat, respond, log).result.error)
  {
  }

  /** A 1080-line source gets three renditions, 1080p at 5000 kbps and the
      other two at 1000 kbps. */
  lemma Initialize1080(job: Job, parseFloat: ParseFloat, respond: Responder, log: seq<Call>)
    requires InputWithExecutor(job.input, parseFloat, respond, log).result.Ok?
    requires InputWithExecutor(job.input, parseFloat, respond, log).result.value.height == 1080
    ensures InitializeWithExecutor(job, parseFloat, respond, log).setup.ladder == [
      Rendition(1920, 1080, 5000, 10000, "main", "4.0", 0),
      Rendition(1280, 720, 1000, 2000, "main", "3.1", 0),
      Rendition(640, 360, 1000, 2000, "baseline", "3.0", 0)]
  {
    var info := InputWithExecutor(job.input, parseFloat, respond, log).result.value;
    BuildReadsOnlyHeight(info, VideoInfo(1920, 1080, 30.0, false, 0));
    BuildExamplesFull();
    ApplyStandardLadder();
  }

  /** The live profile has 2-second low-latency segments; anything else,
      including an unknown or empty name, 5-second regular ones. */
  lemma ProfileExamples()
    ensures SelectProfile("live") == Profile(2, true)
    ensures SelectProfile("vod") == Profile(5, false)
    ensures SelectProfile("") == Profile(5, false)
    ensures SelectProfile("LIVE") == Profile(5, false)
  {
  }
}
