/** Bitrate optimisation (optimize/cost.go, optimize/optimize.go): a
    cascading per-rendition bitrate cap, then removal of renditions whose
    height is too close to the last one kept. */
module Optimize {
  import opened Ladder

  // ---------- the cap ----------

  /** `capBitrate`: three tiers tried top-down; a tier whose condition is
      false falls through to the next one, so a 1080p rendition at exactly
      5000 is capped by the 720p tier and then lands on 1000 only when that
      tier's condition is false too. */
  function CapBitrate(height: int, bitrate: int): (r: int)
    ensures r <= bitrate
    ensures r == bitrate || r == 1000 || r == 3000 || r == 5000
    ensures r <= 5000
    ensures height < 1080 ==> r <= 3000
    ensures height < 720 ==> r <= 1000
    ensures bitrate <= 1000 ==> r == bitrate
    ensures bitrate > 1000 ==> r >= 1000
    ensures height >= 1080 && bitrate > 5000 ==> r == 5000
    ensures height >= 720 && bitrate > 3000 && !(height >= 1080 && bitrate > 5000) ==> r == 3000
  {
    if height >= 1080 && bitrate > 5000 then 5000
    else if height >= 720 && bitrate > 3000 then 3000
    else if bitrate > 1000 then 1000
    else bitrate
  }

  /** The fall-through: a rendition under its own tier's cap is handled by
      the next tier down, and comparisons are strict. */
  lemma CapBitrateCascade(height: int, bitrate: int)
    ensures height >= 1080 && 3000 < bitrate <= 5000 ==> CapBitrate(height, bitrate) == 3000
    ensures height >= 720 && 1000 < bitrate <= 3000 ==> CapBitrate(height, bitrate) == 1000
    ensures height < 720 && bitrate > 1000 ==> CapBitrate(height, bitrate) == 1000
  {
  }

  lemma CapBitrateExamples()
    ensures CapBitrate(1080, 6000) == 5000
    ensures CapBitrate(1080, 4500) == 3000
    ensures CapBitrate(1080, 5000) == 3000
    ensures CapBitrate(720, 4000) == 3000
    ensures CapBitrate(720, 2500) == 1000
    ensures CapBitrate(720, 3000) == 1000
    ensures CapBitrate(720, 800) == 800
    ensures CapBitrate(360, 1500) == 1000
    ensures CapBitrate(360, 1000) == 1000
    ensures CapBitrate(240, 500) == 500
  {
  }

  /** A result of at most 1000 is a fixed point, and below 720p every
      result is; larger results are not in general (5000 at 1080p drops to
      3000 on a second pass). */
  lemma CapBitrateSettles(height: int, bitrate: int)
    ensures CapBitrate(height, bitrate) <= 1000 ==>
      CapBitrate(height, CapBitrate(height, bitrate)) == CapBitrate(height, bitrate)
    ensures height < 720 ==>
      CapBitrate(height, CapBitrate(height, bitrate)) == CapBitrate(height, bitrate)
  {
  }

  // ---------- the trim ----------

  /** trim's keep test, `float64(h)/float64(prev) < 0.7`, on exact reals. A
      zero `prev` gives +Inf (h > 0), NaN (h = 0) or -Inf (h < 0), and only
      -Inf passes. */
  predicate FarEnough(h: int, prev: int) {
    if prev == 0 then h < 0 else (h as real) / (prev as real) < 0.7
  }

  /** For a positive previous height the test is the integer test 10h < 7prev. */
  lemma FarEnoughIsIntegerTest(h: int, prev: int)
    requires prev > 0
    ensures FarEnough(h, prev) <==> 10 * h < 7 * prev
  {
    DivBelow(h as real, prev as real);
  }

  lemma DivBelow(x: real, p: real)
    requires p > 0.0
    ensures x / p < 0.7 <==> x < 0.7 * p
  {
    var q := x / p;
    assert q * p == x;
    if q < 0.7 {
      MulPositive(0.7 - q, p);
    } else {
      MulNonnegative(q - 0.7, p);
    }
  }

  lemma MulPositive(a: real, b: real)
    requires a > 0.0 && b > 0.0
    ensures a * b > 0.0
  {
  }

  lemma MulNonnegative(a: real, b: real)
    requires a >= 0.0 && b > 0.0
    ensures a * b >= 0.0
  {
  }

  /** Each rendition after the first passes the keep test against its predecessor. */
  predicate Spread(l: seq<Rendition>) {
    forall i | 0 <= i < |l| - 1 :: FarEnough(l[i + 1].height, l[i].height)
  }

  predicate PositiveHeights(l: seq<Rendition>) {
    forall i | 0 <= i < |l| :: l[i].height > 0
  }

  /** The renditions of `rest` kept when `last` is the last one kept so far. */
  function KeepAfter(last: Rendition, rest: seq<Rendition>): (r: seq<Rendition>)
    ensures |r| <= |rest|
    ensures Subsequence(r, rest)
    ensures |r| > 0 ==> FarEnough(r[0].height, last.height)
    ensures Spread(r)
    decreases |rest|
  {
    if |rest| == 0 then []
    else if FarEnough(rest[0].height, last.height) then
      var tail := KeepAfter(rest[0], rest[1..]);
      [rest[0]] + tail
    else
      KeepAfter(last, rest[1..])
  }

  /** `trim`: the first rendition is always kept; each later one is kept
      when it passes the keep test against the last rendition kept. */
  function Trim(l: seq<Rendition>): (r: seq<Rendition>)
    ensures |l| <= 1 ==> r == l
    ensures |l| >= 1 ==> |r| >= 1 && r[0] == l[0]
    ensures |r| <= |l|
    ensures Subsequence(r, l)
    ensures Spread(r)
  {
    if |l| <= 1 then l
    else
      var tail := KeepAfter(l[0], l[1..]);
      assert Subsequence([l[0]] + tail, l) by {
        assert ([l[0]] + tail)[1..] == tail;
      }
      [l[0]] + tail
  }

  /** Renditions that already pass the test against each other are all kept. */
  lemma {:induction false} KeepAfterSpread(last: Rendition, rest: seq<Rendition>)
    requires |rest| > 0 ==> FarEnough(rest[0].height, last.height)
    requires Spread(rest)
    ensures KeepAfter(last, rest) == rest
    decreases |rest|
  {
    if |rest| > 0 {
      KeepAfterSpread(rest[0], rest[1..]);
    }
  }

  /** `trim` keeps a spread ladder whole, so trimming is idempotent. */
  lemma TrimIdempotent(l: seq<Rendition>)
    ensures Spread(l) ==> Trim(l) == l
    ensures Trim(Trim(l)) == Trim(l)
  {
    if Spread(l) && |l| > 1 {
      KeepAfterSpread(l[0], l[1..]);
      assert [l[0]] + l[1..] == l;
    }
    var t := Trim(l);
    if |t| > 1 {
      KeepAfterSpread(t[0], t[1..]);
      assert [t[0]] + t[1..] == t;
    }
  }

  /** A spread ladder of positive heights is strictly descending, each height
      under 70% of the one before. */
  lemma {:induction false} SpreadDescends(l: seq<Rendition>)
    requires Spread(l) && PositiveHeights(l)
    ensures StrictlyDescending(l)
    ensures forall i | 0 <= i < |l| - 1 :: 10 * l[i + 1].height < 7 * l[i].height
  {
    forall i | 0 <= i < |l| - 1
      ensures 10 * l[i + 1].height < 7 * l[i].height
    {
      FarEnoughIsIntegerTest(l[i + 1].height, l[i].height);
    }
    forall i, j | 0 <= i < j < |l|
      ensures l[j].height < l[i].height
    {
      DescendsBetween(l, i, j);
    }
  }

  lemma {:induction false} DescendsBetween(l: seq<Rendition>, i: nat, j: nat)
    requires i < j < |l|
    requires forall k | 0 <= k < |l| - 1 :: 10 * l[k + 1].height < 7 * l[k].height
    requires PositiveHeights(l)
    ensures l[j].height < l[i].height
    decreases j - i
  {
    if j > i + 1 {
      DescendsBetween(l, i + 1, j);
    }
  }

  /** Deleting elements keeps every element's properties. */
  lemma {:induction false} SubsequenceElements(a: seq<Rendition>, b: seq<Rendition>)
    requires Subsequence(a, b)
    ensures forall x | x in a :: x in b
    decreases |b|
  {
    if |a| > 0 && |b| > 0 {
      if a[0] == b[0] && Subsequence(a[1..], b[1..]) {
        SubsequenceElements(a[1..], b[1..]);
        assert a == [a[0]] + a[1..];
      } else {
        SubsequenceElements(a, b[1..]);
      }
    }
  }

  /** The comparison is with the last rendition kept, not the last one seen. */
  lemma TrimComparesWithLastKept()
    ensures var l := [Tier1080, Rendition(1600, 900, 4000, 8000, "main", "3.2", 0), Tier360];
      Trim(l) == [Tier1080, Tier360]
    ensures Trim(Tiers) == Tiers
    ensures Trim([]) == []
  {
    var r900 := Rendition(1600, 900, 4000, 8000, "main", "3.2", 0);
    assert !FarEnough(900, 1080);
    assert FarEnough(360, 1080) && FarEnough(720, 1080) && FarEnough(360, 720);
    assert KeepAfter(Tier1080, [Tier360]) == [Tier360];
    assert [r900, Tier360][1..] == [Tier360];
    assert KeepAfter(Tier1080, [r900, Tier360]) == [Tier360];
    assert KeepAfter(Tier720, [Tier360]) == [Tier360];
    assert Tiers[1..] == [Tier720, Tier360];
    assert KeepAfter(Tier1080, [Tier720, Tier360]) == [Tier720, Tier360];
  }

  /** The loop of optimize.go: `res` starts with the first rendition and each
      later rendition is appended when it passes the test against the last
      element of `res`. */
  method TrimLoop(l: seq<Rendition>) returns (res: seq<Rendition>)
    ensures res == Trim(l)
  {
    if |l| <= 1 {
      return l;
    }
    res := [l[0]];
    var i := 1;
    while i < |l|
      invariant 1 <= i <= |l|
      invariant res == [l[0]] + KeepAfter(l[0], l[1..i])
    {
      var prev := res[|res| - 1];
      TrimStep(l, i, res);
      if FarEnough(l[i].height, prev.height) {
        res := res + [l[i]];
      }
      i := i + 1;
    }
    assert l[1..i] == l[1..];
  }

  /** One round of the loop: testing the next rendition against the last
      element of the list so far extends it to the next prefix's result. */
  lemma TrimStep(l: seq<Rendition>, i: nat, res: seq<Rendition>)
    requires 1 <= i < |l| && res == [l[0]] + KeepAfter(l[0], l[1..i])
    ensures (if FarEnough(l[i].height, res[|res| - 1].height) then res + [l[i]] else res)
         == [l[0]] + KeepAfter(l[0], l[1..i + 1])
  {
    KeepAfterSnoc(l[0], l[1..i], l[i]);
    assert l[1..i + 1] == l[1..i] + [l[i]];
    assert res[|res| - 1] == LastKept(l[0], l[1..i]);
  }

  /** The last rendition kept so far. */
  function LastKept(last: Rendition, rest: seq<Rendition>): Rendition {
    var kept := KeepAfter(last, rest);
    if |kept| == 0 then last else kept[|kept| - 1]
  }

  /** Extending the input by one rendition extends the kept list by that
      rendition exactly when it passes against the last one kept. */
  lemma {:induction false} KeepAfterSnoc(last: Rendition, rest: seq<Rendition>, x: Rendition)
    ensures KeepAfter(last, rest + [x])
         == KeepAfter(last, rest) + (if FarEnough(x.height, LastKept(last, rest).height) then [x] else [])
    decreases |rest|
  {
    if |rest| == 0 {
      assert rest + [x] == [x];
    } else {
      assert (rest + [x])[1..] == rest[1..] + [x];
      if FarEnough(rest[0].height, last.height) {
        KeepAfterSnoc(rest[0], rest[1..], x);
      } else {
        KeepAfterSnoc(last, rest[1..], x);
      }
    }
  }

  // ---------- Apply ----------

  /** One rendition after capping: rate capped for its height, buffer twice
      the rate, every other field copied. */
  function Capped(r: Rendition): Rendition {
    r.(maxRate := CapBitrate(r.height, r.maxRate), bufSize := 2 * CapBitrate(r.height, r.maxRate))
  }

  function CapAll(l: seq<Rendition>): (r: seq<Rendition>)
    ensures |r| == |l|
    ensures forall i | 0 <= i < |l| ::
      && r[i].width == l[i].width && r[i].height == l[i].height
      && r[i].profile == l[i].profile && r[i].level == l[i].level && r[i].bFrames == l[i].bFrames
      && r[i].maxRate == CapBitrate(l[i].height, l[i].maxRate)
      && r[i].bufSize == 2 * r[i].maxRate
  {
    seq(|l|, i requires 0 <= i < |l| => Capped(l[i]))
  }

  /** `Apply`: cap every rendition, then trim. */
  function Apply(l: seq<Rendition>): (r: seq<Rendition>)
    ensures Subsequence(r, CapAll(l))
    ensures |l| >= 1 ==> |r| >= 1 && r[0] == Capped(l[0])
    ensures |l| == 0 ==> r == []
    ensures Spread(r)
    ensures forall x | x in r :: x.bufSize == 2 * x.maxRate && x.maxRate <= 5000
  {
    var capped := CapAll(l);
    var r := Trim(capped);
    SubsequenceElements(r, capped);
    r
  }

  /** On positive heights the optimised ladder is strictly descending. */
  lemma ApplyDescends(l: seq<Rendition>)
    requires PositiveHeights(l)
    ensures StrictlyDescending(Apply(l))
  {
    var r := Apply(l);
    SubsequenceElements(r, CapAll(l));
    assert PositiveHeights(r) by {
      forall i | 0 <= i < |r| ensures r[i].height > 0 {
        assert r[i] in CapAll(l);
      }
    }
    SpreadDescends(r);
  }

  /** The built 1080p ladder: rates 5000, 1000, 1000 and all three kept. */
  lemma ApplyStandardLadder()
    ensures Apply(Tiers) == [
      Rendition(1920, 1080, 5000, 10000, "main", "4.0", 0),
      Rendition(1280, 720, 1000, 2000, "main", "3.1", 0),
      Rendition(640, 360, 1000, 2000, "baseline", "3.0", 0)]
  {
    var c := CapAll(Tiers);
    assert c[0] == Rendition(1920, 1080, 5000, 10000, "main", "4.0", 0);
    assert c[1] == Rendition(1280, 720, 1000, 2000, "main", "3.1", 0);
    assert c[2] == Rendition(640, 360, 1000, 2000, "baseline", "3.0", 0);
    assert FarEnough(720, 1080) && FarEnough(360, 720);
    assert c[1..][1..] == [c[2]];
    assert KeepAfter(c[1], [c[2]]) == [c[2]];
    assert KeepAfter(c[0], c[1..]) == [c[1], c[2]];
  }

  /** A second pass lowers the 1080p rate again (5000 -> 3000): `Apply` is
      not idempotent. */
  lemma ApplyNotIdempotent()
    ensures Apply(Apply(Tiers)) != Apply(Tiers)
    ensures Apply(Apply(Tiers))[0].maxRate == 3000
  {
    ApplyStandardLadder();
  }
}
