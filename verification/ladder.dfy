/** Ladder construction (ladder/ladder.go): up to three fixed renditions,
    chosen by the source's stored height alone. */
module Ladder {
  import opened Probe

  /** One quality level of the ladder; rates are in kbps. */
  datatype Rendition = Rendition(
    width: int,
    height: int,
    maxRate: int,
    bufSize: int,
    profile: string,
    level: string,
    bFrames: int)

  /** `a` is `b` with some elements deleted, order kept. */
  predicate Subsequence<T(==)>(a: seq<T>, b: seq<T>)
    decreases |b|
  {
    || |a| == 0
    || (|b| > 0 && ((a[0] == b[0] && Subsequence(a[1..], b[1..])) || Subsequence(a, b[1..])))
  }

  /** Heights strictly decrease along the ladder. */
  predicate StrictlyDescending(l: seq<Rendition>) {
    forall i, j | 0 <= i < j < |l| :: l[j].height < l[i].height
  }

  const Tier1080: Rendition := Rendition(1920, 1080, 5200, 10400, "main", "4.0", 0)
  const Tier720: Rendition := Rendition(1280, 720, 3000, 6000, "main", "3.1", 0)
  const Tier360: Rendition := Rendition(640, 360, 1000, 2000, "baseline", "3.0", 0)

  const Tiers: seq<Rendition> := [Tier1080, Tier720, Tier360]

  /** `Build`: every tier whose height the source's stored height reaches,
      largest first. */
  function Build(info: VideoInfo): (l: seq<Rendition>)
    ensures Subsequence(l, Tiers)
    ensures Tier1080 in l <==> info.height >= 1080
    ensures Tier720 in l <==> info.height >= 720
    ensures Tier360 in l <==> info.height >= 360
    ensures info.height < 360 <==> l == []
    ensures StrictlyDescending(l)
    ensures forall i | 0 <= i < |l| :: l[i].bufSize == 2 * l[i].maxRate && l[i].width > l[i].height
  {
    var l := (if info.height >= 1080 then [Tier1080] else [])
      + (if info.height >= 720 then [Tier720] else [])
      + (if info.height >= 360 then [Tier360] else []);
    var k := TierSkip(info.height);
    assert l == Tiers[k..] by {
      if k == 0 {
        assert l == [Tier1080, Tier720, Tier360];
      } else if k == 1 {
        assert l == [Tier720, Tier360];
      } else if k == 2 {
        assert l == [Tier360];
      }
    }
    TierSuffix(k);
    l
  }

  /** What a ladder that misses the `k` largest tiers holds. */
  lemma TierSuffix(k: nat)
    requires k <= 3
    ensures Subsequence(Tiers[k..], Tiers)
    ensures Tier1080 in Tiers[k..] <==> k == 0
    ensures Tier720 in Tiers[k..] <==> k <= 1
    ensures Tier360 in Tiers[k..] <==> k <= 2
    ensures Tiers[k..] == [] <==> k == 3
    ensures StrictlyDescending(Tiers[k..])
    ensures forall i | 0 <= i < |Tiers[k..]| ::
      Tiers[k..][i].bufSize == 2 * Tiers[k..][i].maxRate && Tiers[k..][i].width > Tiers[k..][i].height
  {
    SubsequenceSuffix(Tiers, k);
    if k == 0 {
      assert Tiers[k..] == [Tier1080, Tier720, Tier360];
    } else if k == 1 {
      assert Tiers[k..] == [Tier720, Tier360];
    } else if k == 2 {
      assert Tiers[k..] == [Tier360];
    } else {
      assert Tiers[k..] == [];
    }
  }

  /** How many of the largest tiers a source of height `h` misses. */
  function TierSkip(h: int): nat {
    if h >= 1080 then 0 else if h >= 720 then 1 else if h >= 360 then 2 else 3
  }

  lemma {:induction false} SubsequenceReflexive<T>(b: seq<T>)
    ensures Subsequence(b, b)
    decreases |b|
  {
    if |b| > 0 {
      SubsequenceReflexive(b[1..]);
    }
  }

  /** Dropping a prefix leaves a subsequence. */
  lemma {:induction false} SubsequenceSuffix<T>(b: seq<T>, k: nat)
    requires k <= |b|
    ensures Subsequence(b[k..], b)
    decreases k
  {
    if k == 0 {
      SubsequenceReflexive(b);
    } else {
      SubsequenceSuffix(b[1..], k - 1);
      assert b[1..][k - 1..] == b[k..];
    }
  }

  /** Width, frame rate, audio and rotation never matter: there is no
      portrait swap and no use of the display height. */
  lemma BuildReadsOnlyHeight(a: VideoInfo, b: VideoInfo)
    requires a.height == b.height
    ensures Build(a) == Build(b)
  {
  }

  /** A taller source gets every rendition a shorter one gets, plus possibly
      larger ones in front. */
  lemma BuildMonotone(a: VideoInfo, b: VideoInfo)
    requires a.height <= b.height
    ensures |Build(a)| <= |Build(b)|
    ensures Build(a) == Build(b)[|Build(b)| - |Build(a)|..]
  {
  }

  /** Sources of 1080 lines and more get every tier, including a portrait
      source whose stored height is 1280. */
  lemma BuildExamplesFull()
    ensures Build(VideoInfo(1920, 1080, 30.0, false, 0)) == Tiers
    ensures Build(VideoInfo(3840, 2160, 60.0, false, 0)) == Tiers
    ensures Build(VideoInfo(720, 1280, 30.0, false, 0)) == Tiers
  {
    assert Tiers[0..] == Tiers;
  }

  /** A 720p source gets two tiers, a 540p source one, a 240p source none. */
  lemma BuildExamplesPartial()
    ensures Build(VideoInfo(1280, 720, 25.0, false, 0)) == [Tier720, Tier360]
    ensures Build(VideoInfo(960, 540, 30.0, false, 0)) == [Tier360]
    ensures Build(VideoInfo(426, 240, 30.0, false, 0)) == []
  {
    assert Tiers[1..] == [Tier720, Tier360];
    assert Tiers[2..] == [Tier360];
  }
}
