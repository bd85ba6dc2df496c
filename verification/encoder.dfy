/** Encoder helpers (encoder/common.go, encoder/hls_cmaf.go): the GOP size,
    the HLS variant-stream map, the ffmpeg progress parser, and the
    filter-graph serialiser. */
module Encoder {
  import opened Wrappers
  import opened GoStrings
  import opened Ladder

  // ---------- GOP ----------

  /** `calcGOP` for the already rounded product `g` of frame rate and
      segment length: the least even number that is at least `g` and at
      least 24. */
  function CalcGop(g: int): (r: int)
    ensures r % 2 == 0
    ensures r >= g && r >= 24
    ensures r - 2 < g || r - 2 < 24
  {
    var even := if GoRem(g, 2) != 0 then g + 1 else g;
    if even < 24 then 24 else even
  }

  /** The three cases: an even g of 24 or more is kept, an odd one is bumped
      by one, and anything smaller becomes 24. */
  lemma CalcGopCases(g: int)
    ensures g % 2 == 0 && g >= 24 ==> CalcGop(g) == g
    ensures g % 2 == 1 && g + 1 >= 24 ==> CalcGop(g) == g + 1
    ensures g < 23 ==> CalcGop(g) == 24
  {
  }

  /** `calcGOP` as called: `int(math.Round(fps * segmentSec))`, then the rule. */
  function GopFor(fps: real, segmentSec: int): (r: int)
    ensures r % 2 == 0 && r >= 24
    ensures r >= Round(fps * segmentSec as real)
  {
    CalcGop(Round(fps * segmentSec as real))
  }

  lemma GopForExamples()
    ensures GopFor(30.0, 5) == 150
    ensures GopFor(24.0, 5) == 120
    ensures GopFor(29.97, 5) == 150
    ensures GopFor(25.0, 2) == 50
    ensures GopFor(60.0, 5) == 300
    ensures GopFor(23.976, 5) == 120
    ensures GopFor(4.0, 5) == 24
    ensures GopFor(5.0, 5) == 26
  {
  }

  // ---------- variant stream map ----------

  /** Variant group `i`: its video stream, and its audio stream when there is audio. */
  function Group(i: nat, hasAudio: bool): (g: string)
    ensures ' ' !in g && |g| > 0
  {
    var v := "v:" + NatToString(i);
    var g := if hasAudio then v + ",a:" + NatToString(i) else v;
    assert forall k | 0 <= k < |NatToString(i)| :: IsDigit(NatToString(i)[k]);
    g
  }

  function Groups(n: int, hasAudio: bool): (gs: seq<string>)
    ensures |gs| == if n <= 0 then 0 else n
    ensures forall i | 0 <= i < |gs| :: gs[i] == Group(i, hasAudio)
  {
    if n <= 0 then [] else seq(n, i requires 0 <= i < n => Group(i, hasAudio))
  }

  /** `buildVarStreamMap`: the groups, space separated. */
  function BuildVarStreamMap(n: int, hasAudio: bool): (r: string)
    ensures n <= 0 <==> r == ""
    ensures n >= 1 ==> Split(r, ' ') == Groups(n, hasAudio)
    ensures n >= 1 ==> Count(r, ' ') == n - 1
  {
    var gs := Groups(n, hasAudio);
    var r := Join(gs, " ");
    if n >= 1 then
      SplitJoin(gs, ' ');
      CountJoin(gs, ' ');
      assert |Group(0, hasAudio)| > 0;
      JoinNonEmpty(gs, " ");
      r
    else r
  }

  /** A join of non-empty parts is not empty. */
  lemma JoinNonEmpty(parts: seq<string>, sep: string)
    requires |parts| >= 1 && |parts[0]| > 0
    ensures |Join(parts, sep)| > 0
  {
  }

  /** Joining k separator-free parts puts exactly k - 1 separators in. */
  lemma {:induction false} CountJoin(parts: seq<string>, sep: char)
    requires |parts| >= 1
    requires forall i | 0 <= i < |parts| :: sep !in parts[i]
    ensures Count(Join(parts, [sep]), sep) == |parts| - 1
    decreases |parts|
  {
    CountAbsent(parts[0], sep);
    if |parts| > 1 {
      var rest := Join(parts[1..], [sep]);
      CountJoin(parts[1..], sep);
      CountConcat(parts[0] + [sep], rest, sep);
      CountConcat(parts[0], [sep], sep);
      assert Count([sep], sep) == 1 by {
        assert [sep][..0] == [];
      }
    }
  }

  lemma GroupTexts()
    ensures Group(0, false) == "v:0" && Group(1, false) == "v:1" && Group(2, false) == "v:2"
    ensures Group(0, true) == "v:0,a:0" && Group(1, true) == "v:1,a:1" && Group(2, true) == "v:2,a:2"
  {
    assert NatToString(0) == "0" && NatToString(1) == "1" && NatToString(2) == "2";
  }

  /** The map of two groups, piece by piece. */
  lemma VarMapTwo(hasAudio: bool)
    ensures BuildVarStreamMap(2, hasAudio) == Group(0, hasAudio) + " " + Group(1, hasAudio)
  {
    var gs := Groups(2, hasAudio);
    assert BuildVarStreamMap(2, hasAudio) == Join(gs, " ");
    assert gs[1..] == [gs[1]];
    assert Join(gs[1..], " ") == gs[1];
  }

  /** The map of three groups, piece by piece. */
  lemma VarMapThree(hasAudio: bool)
    ensures BuildVarStreamMap(3, hasAudio) == Group(0, hasAudio) + " " + Group(1, hasAudio) + " " + Group(2, hasAudio)
  {
    var gs := Groups(3, hasAudio);
    var a, b, c := gs[0], gs[1], gs[2];
    assert BuildVarStreamMap(3, hasAudio) == Join(gs, " ");
    assert gs[1..] == [b, c] && gs[1..][1..] == [c];
    assert Join(gs[1..][1..], " ") == c;
    assert Join(gs[1..], " ") == b + " " + c;
    assert Join(gs, " ") == a + " " + (b + " " + c);
    Assoc(a + " ", b + " ", c);
    Assoc(a + " ", b, " ");
  }

  lemma BuildVarStreamMapExamples()
    ensures BuildVarStreamMap(1, true) == "v:0,a:0"
    ensures BuildVarStreamMap(1, false) == "v:0"
    ensures BuildVarStreamMap(0, true) == ""
  {
    GroupTexts();
    assert Groups(1, true) == [Group(0, true)];
    assert Groups(1, false) == [Group(0, false)];
  }

  lemma BuildVarStreamMapSeveral()
    ensures BuildVarStreamMap(2, true) == "v:0,a:0" + " " + "v:1,a:1"
    ensures BuildVarStreamMap(2, false) == "v:0" + " " + "v:1"
    ensures BuildVarStreamMap(3, true) == "v:0,a:0" + " " + "v:1,a:1" + " " + "v:2,a:2"
    ensures BuildVarStreamMap(3, false) == "v:0" + " " + "v:1" + " " + "v:2"
  {
    GroupTexts();
    VarMapTwo(true);
    VarMapTwo(false);
    VarMapThree(true);
    VarMapThree(false);
  }

  // ---------- progress ----------

  /** The key and value a progress line contributes: the trimmed text before
      its first `=` and the trimmed rest; nothing when it has no `=`. */
  function Entry(line: string): (e: Option<(string, string)>)
    ensures e.None? <==> '=' !in line
  {
    match Cut(line, '=')
    case None => None
    case Some((k, v)) => Some((TrimSpace(k), TrimSpace(v)))
  }

  /** The entry of every line, in order. */
  function Entries(lines: seq<string>): (es: seq<Option<(string, string)>>)
    ensures |es| == |lines|
    ensures forall i | 0 <= i < |lines| :: es[i] == Entry(lines[i])
  {
    seq(|lines|, i requires 0 <= i < |lines| => Entry(lines[i]))
  }

  /** One entry applied to the map built so far. */
  function Add(m: map<string, string>, e: Option<(string, string)>): map<string, string> {
    match e
    case None => m
    case Some((k, v)) => m[k := v]
  }

  /** The map built from `es` in order, a later entry overwriting an earlier
      one with the same key. */
  function Collect(es: seq<Option<(string, string)>>): map<string, string> {
    if |es| == 0 then map[] else Add(Collect(es[..|es| - 1]), es[|es| - 1])
  }

  /** `ParseProgress`: split at newlines, then collect every `key=value` line. */
  function ParseProgress(raw: string): map<string, string> {
    Collect(Entries(Split(raw, '\n')))
  }

  /** Input without any `=`, the empty input among it, gives the empty map. */
  lemma ParseProgressNoEntries(raw: string)
    requires '=' !in raw
    ensures ParseProgress(raw) == map[]
  {
    NoEntries(raw);
    CollectEmpty(Entries(Split(raw, '\n')));
  }

  /** Without an `=` in the input no line has one. */
  lemma NoEntries(raw: string)
    requires '=' !in raw
    ensures forall i | 0 <= i < |Split(raw, '\n')| :: Entry(Split(raw, '\n')[i]).None?
  {
    var lines := Split(raw, '\n');
    forall i | 0 <= i < |lines| ensures '=' !in lines[i] {
      JoinSplit(raw, '\n');
      JoinContains(lines, i, ['\n']);
    }
  }

  /** Every part is contained in the join. */
  lemma {:induction false} JoinContains(parts: seq<string>, i: nat, sep: string)
    requires i < |parts|
    ensures forall c | c in parts[i] :: c in Join(parts, sep)
    decreases |parts|
  {
    if |parts| > 1 && i > 0 {
      JoinContains(parts[1..], i - 1, sep);
    }
  }

  lemma {:induction false} CollectEmpty(es: seq<Option<(string, string)>>)
    requires forall i | 0 <= i < |es| :: es[i].None?
    ensures Collect(es) == map[]
    decreases |es|
  {
    if |es| > 0 {
      CollectEmpty(es[..|es| - 1]);
    }
  }

  /** Entry `e` carries key `k`. */
  predicate HasKey(e: Option<(string, string)>, k: string) {
    e.Some? && e.value.0 == k
  }

  /** The last entry carrying a key decides its value. */
  lemma {:induction false} CollectLastWins(es: seq<Option<(string, string)>>, i: nat, k: string, v: string)
    requires i < |es| && es[i] == Some((k, v))
    requires forall j | i < j < |es| :: !HasKey(es[j], k)
    ensures k in Collect(es) && Collect(es)[k] == v
    decreases |es|
  {
    var n := |es| - 1;
    var init := es[..n];
    if i < n {
      assert init[i] == es[i];
      assert !HasKey(es[n], k);
      CollectLastWins(init, i, k, v);
    }
  }

  /** A key some entry carries is present. */
  lemma {:induction false} CollectHasKey(es: seq<Option<(string, string)>>, i: nat, k: string)
    requires i < |es| && HasKey(es[i], k)
    ensures k in Collect(es)
    decreases |es|
  {
    var n := |es| - 1;
    if i < n {
      assert es[..n][i] == es[i];
      CollectHasKey(es[..n], i, k);
    }
  }

  /** A present key comes from some entry: the one that gave it is returned. */
  lemma {:induction false} CollectKeySource(es: seq<Option<(string, string)>>, k: string) returns (i: nat)
    requires k in Collect(es)
    ensures i < |es| && HasKey(es[i], k)
    decreases |es|
  {
    var n := |es| - 1;
    if HasKey(es[n], k) {
      i := n;
    } else {
      i := CollectKeySource(es[..n], k);
      assert es[..n][i] == es[i];
    }
  }

  /** In terms of lines: the last line with key `k` gives its value. */
  lemma ParseProgressLastWins(raw: string, i: nat, k: string, v: string)
    requires i < |Split(raw, '\n')| && Entry(Split(raw, '\n')[i]) == Some((k, v))
    requires forall j | i < j < |Split(raw, '\n')| :: !HasKey(Entry(Split(raw, '\n')[j]), k)
    ensures k in ParseProgress(raw) && ParseProgress(raw)[k] == v
  {
    CollectLastWins(Entries(Split(raw, '\n')), i, k, v);
  }

  /** Exactly the keys some entry carries are present. */
  lemma CollectKeys(es: seq<Option<(string, string)>>, k: string)
    ensures k in Collect(es) <==> exists i | 0 <= i < |es| :: HasKey(es[i], k)
  {
    if k in Collect(es) {
      var i := CollectKeySource(es, k);
    }
    if exists i | 0 <= i < |es| :: HasKey(es[i], k) {
      var i :| 0 <= i < |es| && HasKey(es[i], k);
      CollectHasKey(es, i, k);
    }
  }

  /** The value is everything after the first `=`, itself possibly holding `=`. */
  lemma EntryKeepsLaterEquals(key: string, value: string)
    requires '=' !in key
    ensures Entry(key + "=" + value) == Some((TrimSpace(key), TrimSpace(value)))
  {
    CutAtFirst(key, '=', value);
    assert key + "=" + value == key + ['='] + value;
  }

  /** Collecting one more entry adds it to the map built so far. */
  lemma CollectStep(es: seq<Option<(string, string)>>, i: nat)
    requires i < |es|
    ensures Collect(es[..i + 1]) == Add(Collect(es[..i]), es[i])
  {
    assert es[..i + 1][..i] == es[..i];
  }

  /** The loop of `ParseProgress` over the split lines. */
  method ParseProgressLoop(raw: string) returns (m: map<string, string>)
    ensures m == ParseProgress(raw)
  {
    var lines := Split(raw, '\n');
    ghost var es := Entries(lines);
    m := map[];
    var i := 0;
    while i < |lines|
      invariant 0 <= i <= |lines|
      invariant m == Collect(es[..i])
    {
      CollectStep(es, i);
      var parts := Cut(lines[i], '=');
      if parts.Some? {
        m := m[TrimSpace(parts.value.0) := TrimSpace(parts.value.1)];
      }
      assert m == Add(Collect(es[..i]), Entry(lines[i]));
      i := i + 1;
    }
    assert es[..i] == es;
  }

  // ---------- filter graph ----------

  /** `[v0][v1]...[v(n-1)]`. */
  function Labels(n: nat): string {
    if n == 0 then "" else Labels(n - 1) + "[v" + NatToString(n - 1) + "]"
  }

  /** The split that feeds every rendition. */
  function Header(n: nat): string {
    "[0:v]split=" + NatToString(n) + Labels(n)
  }

  /** The scale, pad and SAR clause of rendition `i`. */
  function Clause(i: nat, r: Rendition): string {
    var idx, w, h := NatToString(i), IntToString(r.width), IntToString(r.height);
    ScaleTo(idx, w, h) + KeepAspect + PadTo(w, h) + Centre + OutLabel(idx)
  }

  /** Scale input `[v<idx>]` into the rendition's box... */
  function ScaleTo(idx: string, w: string, h: string): string {
    "[v" + idx + "]scale=" + w + ":" + h
  }

  /** ...without changing the aspect ratio... */
  const KeepAspect: string := ":force_original_aspect_ratio=decrease,"

  /** ...pad to the box... */
  function PadTo(w: string, h: string): string {
    "pad=" + w + ":" + h
  }

  /** ...centred, with square pixels... */
  const Centre: string := ":(ow-iw)/2:(oh-ih)/2,setsar=1"

  /** ...into output `[v<idx>o]`. */
  function OutLabel(idx: string): string {
    "[v" + idx + "o]"
  }

  function Clauses(l: seq<Rendition>): (cs: seq<string>)
    ensures |cs| == |l|
    ensures forall i | 0 <= i < |l| :: cs[i] == Clause(i, l[i])
  {
    seq(|l|, i requires 0 <= i < |l| => Clause(i, l[i]))
  }

  /** Each part followed by `;`, as the builder writes them. */
  function Terminated(parts: seq<string>): string {
    if |parts| == 0 then "" else parts[0] + ";" + Terminated(parts[1..])
  }

  /** `strings.TrimSuffix`. */
  function TrimSuffix(s: string, suffix: string): (r: string)
    ensures |suffix| <= |s| && s[|s| - |suffix|..] == suffix ==> r + suffix == s
  {
    if |suffix| <= |s| && s[|s| - |suffix|..] == suffix then s[..|s| - |suffix|] else s
  }

  /** `buildFilterGraph`: the header and every clause, each written with a
      trailing `;`, and the last `;` trimmed off. */
  function BuildFilterGraph(l: seq<Rendition>): (g: string)
    ensures g == Join([Header(|l|)] + Clauses(l), ";")
    ensures Header(|l|) <= g
  {
    var built := Header(|l|) + ";" + Terminated(Clauses(l));
    JoinTerminated(Header(|l|), Clauses(l));
    assert built[|built| - 1..] == ";";
    var g := TrimSuffix(built, ";");
    assert g + ";" == built;
    assert g == built[..|built| - 1];
    JoinStartsWithFirst(Header(|l|), Clauses(l));
    g
  }

  /** Writing every part with a trailing `;` is the `;`-join plus one final `;`. */
  lemma {:induction false} JoinTerminated(first: string, rest: seq<string>)
    ensures Join([first] + rest, ";") + ";" == first + ";" + Terminated(rest)
    decreases |rest|
  {
    if |rest| == 0 {
      assert [first] + rest == [first];
    } else {
      JoinTerminated(rest[0], rest[1..]);
      assert ([first] + rest)[1..] == [rest[0]] + rest[1..];
      assert [rest[0]] + rest[1..] == rest;
    }
  }

  lemma JoinStartsWithFirst(first: string, rest: seq<string>)
    ensures first <= Join([first] + rest, ";")
  {
    if |rest| > 0 {
      assert ([first] + rest)[1..] == rest;
    }
  }

  /** Only the widths and heights of the renditions matter. */
  lemma {:induction false} FilterGraphReadsOnlySize(a: seq<Rendition>, b: seq<Rendition>)
    requires |a| == |b|
    requires forall i | 0 <= i < |a| :: a[i].width == b[i].width && a[i].height == b[i].height
    ensures BuildFilterGraph(a) == BuildFilterGraph(b)
  {
    assert Clauses(a) == Clauses(b);
  }

  // The renditions of the filter-graph tests; only their sizes matter.
  const Test1080: Rendition := Rendition(1920, 1080, 5000, 10000, "main", "4.0", 0)
  const Test720: Rendition := Rendition(1280, 720, 3000, 6000, "main", "3.1", 0)
  const Test360: Rendition := Rendition(640, 360, 1000, 2000, "baseline", "3.0", 0)

  lemma Digits640()
    ensures IntToString(640) == "640" && IntToString(360) == "360"
  {
    assert NatToString(64) == "64" && NatToString(36) == "36";
  }

  lemma Digits720()
    ensures IntToString(1280) == "1280" && IntToString(720) == "720"
  {
    assert NatToString(12) == "12" && NatToString(128) == "128" && NatToString(72) == "72";
  }

  lemma Digits1080()
    ensures IntToString(1920) == "1920" && IntToString(1080) == "1080"
  {
    assert NatToString(19) == "19" && NatToString(192) == "192";
    assert NatToString(10) == "10" && NatToString(108) == "108";
  }

  lemma Indices()
    ensures NatToString(0) == "0" && NatToString(1) == "1"
    ensures NatToString(2) == "2" && NatToString(3) == "3"
  {
  }

  lemma Labels1()
    ensures Labels(1) == "[v0]"
  {
    Indices();
    assert Labels(0) == "";
  }

  lemma Labels2()
    ensures Labels(2) == "[v0][v1]"
  {
    Labels1();
    Indices();
    assert "[v0]" + "[v" + "1" + "]" == "[v0][v1]";
  }

  lemma Labels3()
    ensures Labels(3) == "[v0][v1][v2]"
  {
    Labels2();
    Indices();
    assert "[v0][v1]" + "[v" + "2" + "]" == "[v0][v1][v2]";
  }

  lemma Header1()
    ensures Header(1) == "[0:v]split=1[v0]"
  {
    Indices();
    Labels1();
  }

  lemma Header2()
    ensures Header(2) == "[0:v]split=2[v0][v1]"
  {
    Indices();
    Labels2();
  }

  lemma Header3()
    ensures Header(3) == "[0:v]split=3[v0][v1][v2]"
  {
    Indices();
    Labels3();
  }

  /** Clause `i` of a rendition whose numbers render as given. */
  lemma ClauseOf(i: nat, r: Rendition, idx: string, w: string, h: string)
    requires NatToString(i) == idx && IntToString(r.width) == w && IntToString(r.height) == h
    ensures Clause(i, r) == ScaleTo(idx, w, h) + KeepAspect + PadTo(w, h) + Centre + OutLabel(idx)
  {
  }

  lemma Clause0Of360()
    ensures Clause(0, Test360) == "[v0]scale=640:360" + ":force_original_aspect_ratio=decrease,"
      + "pad=640:360" + ":(ow-iw)/2:(oh-ih)/2,setsar=1" + "[v0o]"
  {
    Indices();
    Digits640();
    ClauseOf(0, Test360, "0", "640", "360");
    assert ScaleTo("0", "640", "360") == "[v0]scale=640:360";
    assert PadTo("640", "360") == "pad=640:360";
    assert OutLabel("0") == "[v0o]";
  }

  lemma Clause1Of360()
    ensures Clause(1, Test360) == "[v1]scale=640:360" + ":force_original_aspect_ratio=decrease,"
      + "pad=640:360" + ":(ow-iw)/2:(oh-ih)/2,setsar=1" + "[v1o]"
  {
    Indices();
    Digits640();
    ClauseOf(1, Test360, "1", "640", "360");
    assert ScaleTo("1", "640", "360") == "[v1]scale=640:360";
    assert PadTo("640", "360") == "pad=640:360";
    assert OutLabel("1") == "[v1o]";
  }

  lemma Clause2Of360()
    ensures Clause(2, Test360) == "[v2]scale=640:360" + ":force_original_aspect_ratio=decrease,"
      + "pad=640:360" + ":(ow-iw)/2:(oh-ih)/2,setsar=1" + "[v2o]"
  {
    Indices();
    Digits640();
    ClauseOf(2, Test360, "2", "640", "360");
    assert ScaleTo("2", "640", "360") == "[v2]scale=640:360";
    assert PadTo("640", "360") == "pad=640:360";
    assert OutLabel("2") == "[v2o]";
  }

  lemma Clause0Of720()
    ensures Clause(0, Test720) == "[v0]scale=1280:720" + ":force_original_aspect_ratio=decrease,"
      + "pad=1280:720" + ":(ow-iw)/2:(oh-ih)/2,setsar=1" + "[v0o]"
  {
    Indices();
    Digits720();
    ClauseOf(0, Test720, "0", "1280", "720");
    assert ScaleTo("0", "1280", "720") == "[v0]scale=1280:720";
    assert PadTo("1280", "720") == "pad=1280:720";
    assert OutLabel("0") == "[v0o]";
  }

  lemma Clause1Of720()
    ensures Clause(1, Test720) == "[v1]scale=1280:720" + ":force_original_aspect_ratio=decrease,"
      + "pad=1280:720" + ":(ow-iw)/2:(oh-ih)/2,setsar=1" + "[v1o]"
  {
    Indices();
    Digits720();
    ClauseOf(1, Test720, "1", "1280", "720");
    assert ScaleTo("1", "1280", "720") == "[v1]scale=1280:720";
    assert PadTo("1280", "720") == "pad=1280:720";
    assert OutLabel("1") == "[v1o]";
  }

  lemma Clause0Of1080()
    ensures Clause(0, Test1080) == "[v0]scale=1920:1080" + ":force_original_aspect_ratio=decrease,"
      + "pad=1920:1080" + ":(ow-iw)/2:(oh-ih)/2,setsar=1" + "[v0o]"
  {
    Indices();
    Digits1080();
    ClauseOf(0, Test1080, "0", "1920", "1080");
    assert ScaleTo("0", "1920", "1080") == "[v0]scale=1920:1080";
    assert PadTo("1920", "1080") == "pad=1920:1080";
    assert OutLabel("0") == "[v0o]";
  }

  lemma Assoc(a: string, b: string, c: string)
    ensures a + (b + c) == a + b + c
  {
  }

  /** Two parts joined by `;`. */
  lemma JoinTwo(h: string, c0: string)
    ensures Join([h, c0], ";") == h + ";" + c0
  {
    assert [h, c0][1..] == [c0];
  }

  /** Three parts joined by `;`. */
  lemma JoinThree(h: string, c0: string, c1: string)
    ensures Join([h, c0, c1], ";") == h + ";" + c0 + ";" + c1
  {
    assert [h, c0, c1][1..] == [c0, c1];
    JoinTwo(c0, c1);
    Assoc(h + ";", c0 + ";", c1);
    Assoc(h + ";", c0, ";");
  }

  /** Four parts joined by `;`. */
  lemma JoinFour(h: string, c0: string, c1: string, c2: string)
    ensures Join([h, c0, c1, c2], ";") == h + ";" + c0 + ";" + c1 + ";" + c2
  {
    assert [h, c0, c1, c2][1..] == [c0, c1, c2];
    JoinThree(c0, c1, c2);
    var rest := c0 + ";" + c1 + ";" + c2;
    assert Join([h, c0, c1, c2], ";") == h + ";" + rest;
    Assoc(h + ";", c0 + ";" + c1 + ";", c2);
    Assoc(h + ";", c0 + ";" + c1, ";");
    Assoc(h + ";", c0 + ";", c1);
    Assoc(h + ";", c0, ";");
  }

  /** The graph of a one-rendition ladder. */
  lemma GraphOfOne(l: seq<Rendition>)
    requires |l| == 1
    ensures BuildFilterGraph(l) == Header(1) + ";" + Clause(0, l[0])
  {
    assert [Header(1)] + Clauses(l) == [Header(1), Clause(0, l[0])];
    JoinTwo(Header(1), Clause(0, l[0]));
  }

  /** The graph of a two-rendition ladder. */
  lemma GraphOfTwo(l: seq<Rendition>)
    requires |l| == 2
    ensures BuildFilterGraph(l) == Header(2) + ";" + Clause(0, l[0]) + ";" + Clause(1, l[1])
  {
    assert [Header(2)] + Clauses(l) == [Header(2), Clause(0, l[0]), Clause(1, l[1])];
    JoinThree(Header(2), Clause(0, l[0]), Clause(1, l[1]));
  }

  /** The graph of a three-rendition ladder. */
  lemma GraphOfThree(l: seq<Rendition>)
    requires |l| == 3
    ensures BuildFilterGraph(l) == Header(3) + ";" + Clause(0, l[0]) + ";" + Clause(1, l[1]) + ";" + Clause(2, l[2])
  {
    var h, c0, c1, c2 := Header(3), Clause(0, l[0]), Clause(1, l[1]), Clause(2, l[2]);
    assert [h] + Clauses(l) == [h, c0, c1, c2];
    JoinFour(h, c0, c1, c2);
  }

  /** The one-rendition test graph. */
  lemma FilterGraphOne()
    ensures BuildFilterGraph([Test360]) == "[0:v]split=1[v0]" + ";"
      + ("[v0]scale=640:360" + ":force_original_aspect_ratio=decrease,"
      + "pad=640:360" + ":(ow-iw)/2:(oh-ih)/2,setsar=1" + "[v0o]")
  {
    GraphOfOne([Test360]);
    Header1();
    Clause0Of360();
  }

  /** The two-rendition test graph. */
  lemma FilterGraphTwo()
    ensures BuildFilterGraph([Test720, Test360]) == "[0:v]split=2[v0][v1]" + ";"
      + ("[v0]scale=1280:720" + ":force_original_aspect_ratio=decrease,"
      + "pad=1280:720" + ":(ow-iw)/2:(oh-ih)/2,setsar=1" + "[v0o]") + ";"
      + ("[v1]scale=640:360" + ":force_original_aspect_ratio=decrease,"
      + "pad=640:360" + ":(ow-iw)/2:(oh-ih)/2,setsar=1" + "[v1o]")
  {
    GraphOfTwo([Test720, Test360]);
    Header2();
    Clause0Of720();
    Clause1Of360();
  }

  /** The three-rendition test graph. */
  lemma FilterGraphThree()
    ensures BuildFilterGraph([Test1080, Test720, Test360]) == "[0:v]split=3[v0][v1][v2]" + ";"
      + ("[v0]scale=1920:1080" + ":force_original_aspect_ratio=decrease,"
      + "pad=1920:1080" + ":(ow-iw)/2:(oh-ih)/2,setsar=1" + "[v0o]") + ";"
      + ("[v1]scale=1280:720" + ":force_original_aspect_ratio=decrease,"
      + "pad=1280:720" + ":(ow-iw)/2:(oh-ih)/2,setsar=1" + "[v1o]") + ";"
      + ("[v2]scale=640:360" + ":force_original_aspect_ratio=decrease,"
      + "pad=640:360" + ":(ow-iw)/2:(oh-ih)/2,setsar=1" + "[v2o]")
  {
    GraphOfThree([Test1080, Test720, Test360]);
    Header3();
    Clause0Of1080();
    Clause1Of720();
    Clause2Of360();
  }
}
