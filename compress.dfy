/**
 * The attempt schedule of `compressImage`: the rendered meme is scaled to fit
 * a bounding box, encoded at falling qualities until it is at most 1,000,000
 * bytes, and if that fails the bounds shrink by a fifth (rounded down) while
 * both stay above 800 pixels.
 */
module Compress {
  /** Encoded-size limit in bytes. */
  const SizeLimit := 1000000
  /** Bounds and qualities of the first tier; qualities are in hundredths. */
  const InitialBound := 1920
  const InitialQuality := 85
  /** Quality used by every later tier. */
  const RetryQuality := 70
  /** Smallest quality that may still be lowered, and the step. */
  const QualityFloor := 50
  const QualityStep := 10
  /** Bounds at or below this stop the shrinking. */
  const MinBound := 800

  function Min(a: real, b: real): real { if a <= b then a else b }

  /** The scaled size of a `width × height` canvas for the bounds
      `maxWidth × maxHeight`: untouched when it fits, otherwise shrunk by
      `min(maxWidth / width, maxHeight / height)`. */
  function FitWithin(width: real, height: real, maxWidth: real, maxHeight: real): (r: (real, real))
    requires width > 0.0 && height > 0.0 && maxWidth > 0.0 && maxHeight > 0.0
    ensures r.0 <= maxWidth && r.1 <= maxHeight
    ensures r.0 * height == r.1 * width
    ensures width <= maxWidth && height <= maxHeight ==> r == (width, height)
    ensures !(width <= maxWidth && height <= maxHeight) ==> r.0 == maxWidth || r.1 == maxHeight
  {
    if width > maxWidth || height > maxHeight then
      var ratio := Min(maxWidth / width, maxHeight / height);
      ScaledBelow(ratio, maxWidth, width);
      ScaledBelow(ratio, maxHeight, height);
      assert (width * ratio) * height == (height * ratio) * width;
      (width * ratio, height * ratio)
    else
      (width, height)
  }

  /** A factor at most `bound / size` scales `size` to at most `bound`, and
      exactly that factor reaches it. */
  lemma ScaledBelow(ratio: real, bound: real, size: real)
    requires size > 0.0 && ratio <= bound / size
    ensures size * ratio <= bound
    ensures ratio == bound / size ==> size * ratio == bound
  {
    assert size * (bound / size) == bound;
  }

  /** `Math.floor(bound * 0.8)` for a whole-pixel bound. */
  function ShrinkBound(bound: nat): (r: nat)
    ensures 5 * r <= 4 * bound < 5 * r + 5
    ensures bound > 0 ==> r < bound
  {
    (bound * 4) / 5
  }

  /** The bounds of every tier tried, starting from `(maxWidth, maxHeight)`. */
  function Tiers(maxWidth: nat, maxHeight: nat): (tiers: seq<(nat, nat)>)
    ensures |tiers| >= 1 && tiers[0] == (maxWidth, maxHeight)
    decreases maxWidth
  {
    var w, h := ShrinkBound(maxWidth), ShrinkBound(maxHeight);
    if w > MinBound && h > MinBound then [(maxWidth, maxHeight)] + Tiers(w, h)
    else [(maxWidth, maxHeight)]
  }

  /** Every tier after the first has both bounds above 800 and is the shrink
      of the one before; the last tier could not be shrunk further. */
  lemma {:induction false} TiersShape(maxWidth: nat, maxHeight: nat)
    ensures var tiers := Tiers(maxWidth, maxHeight);
            && (forall i :: 0 < i < |tiers| ==> tiers[i].0 > MinBound && tiers[i].1 > MinBound)
            && (forall i :: 0 < i < |tiers| ==> tiers[i] == (ShrinkBound(tiers[i - 1].0), ShrinkBound(tiers[i - 1].1)))
            && var last := tiers[|tiers| - 1];
               !(ShrinkBound(last.0) > MinBound && ShrinkBound(last.1) > MinBound)
    decreases maxWidth
  {
    var w, h := ShrinkBound(maxWidth), ShrinkBound(maxHeight);
    if w > MinBound && h > MinBound {
      TiersShape(w, h);
      var tiers := Tiers(maxWidth, maxHeight);
      var rest := Tiers(w, h);
      assert tiers == [(maxWidth, maxHeight)] + rest;
      forall i | 0 < i < |tiers|
        ensures tiers[i].0 > MinBound && tiers[i].1 > MinBound
        ensures tiers[i] == (ShrinkBound(tiers[i - 1].0), ShrinkBound(tiers[i - 1].1))
      {
        assert tiers[i] == rest[i - 1];
        if i > 1 {
          assert tiers[i - 1] == rest[i - 2];
        }
      }
    }
  }

  /** The recursion ends: there are at most `maxWidth / 160` tiers beyond the
      first, since each later tier is above 800 and a fifth smaller. */
  lemma {:induction false} TiersBounded(maxWidth: nat, maxHeight: nat)
    ensures |Tiers(maxWidth, maxHeight)| <= maxWidth / 160 + 1
    decreases maxWidth
  {
    var w, h := ShrinkBound(maxWidth), ShrinkBound(maxHeight);
    if w > MinBound && h > MinBound {
      TiersBounded(w, h);
      assert w / 160 + 1 <= maxWidth / 160;
    }
  }

  /** The default bounds give four tiers: 1920, 1536, 1228 and 982. */
  lemma DefaultTiers()
    ensures Tiers(InitialBound, InitialBound) == [(1920, 1920), (1536, 1536), (1228, 1228), (982, 982)]
  {
    assert ShrinkBound(982) == 785;
    assert Tiers(982, 982) == [(982, 982)];
  }

  /** The qualities tried within one tier: lower by 0.1 while above 0.5. */
  function Qualities(q: int): (qs: seq<int>)
    ensures |qs| >= 1 && qs[0] == q
    ensures forall i :: 0 <= i < |qs| - 1 ==> qs[i] > QualityFloor && qs[i + 1] == qs[i] - QualityStep
    ensures qs[|qs| - 1] <= QualityFloor
    decreases q
  {
    if q > QualityFloor then [q] + Qualities(q - QualityStep) else [q]
  }

  /** The first tier tries 0.85, 0.75, 0.65, 0.55 and 0.45; later tiers try
      0.7, 0.6 and 0.5. */
  lemma DefaultQualities()
    ensures Qualities(InitialQuality) == [85, 75, 65, 55, 45]
    ensures Qualities(RetryQuality) == [70, 60, 50]
  {
    assert Qualities(45) == [45];
    assert Qualities(50) == [50];
  }

  datatype Attempt = Attempt(width: real, height: real, quality: int)

  function TierAttempts(width: real, height: real, tier: (nat, nat), qs: seq<int>): (r: seq<Attempt>)
    requires width > 0.0 && height > 0.0 && tier.0 > 0 && tier.1 > 0
    ensures |r| == |qs|
    ensures forall i :: 0 <= i < |qs| ==> r[i] == Attempt(FitWithin(width, height, tier.0 as real, tier.1 as real).0,
                                                    FitWithin(width, height, tier.0 as real, tier.1 as real).1, qs[i])
  {
    var dims := FitWithin(width, height, tier.0 as real, tier.1 as real);
    seq(|qs|, i requires 0 <= i < |qs| => Attempt(dims.0, dims.1, qs[i]))
  }

  /** Every encoding tried, in order, for a `width × height` canvas. */
  function Attempts(width: real, height: real, tiers: seq<(nat, nat)>, first: bool): (r: seq<Attempt>)
    requires width > 0.0 && height > 0.0
    requires forall i :: 0 <= i < |tiers| ==> tiers[i].0 > 0 && tiers[i].1 > 0
    ensures |r| >= |tiers|
    ensures tiers != [] ==> r[0].quality == (if first then InitialQuality else RetryQuality)
    ensures tiers != [] ==> r[0].width <= tiers[0].0 as real && r[0].height <= tiers[0].1 as real
  {
    if tiers == [] then []
    else TierAttempts(width, height, tiers[0], Qualities(if first then InitialQuality else RetryQuality))
         + Attempts(width, height, tiers[1..], false)
  }

  /** Encoded size in bytes of an attempt; the encoder is not part of this model. */
  type Encoder = Attempt -> nat

  /** `compressImage(canvas)`: the first attempt that fits the limit, or the
      last attempt when none does. */
  function Compressed(attempts: seq<Attempt>, size: Encoder): (r: Attempt)
    requires |attempts| >= 1
    ensures exists i :: 0 <= i < |attempts| && attempts[i] == r
    ensures size(r) <= SizeLimit || (forall i :: 0 <= i < |attempts| ==> size(attempts[i]) > SizeLimit)
    ensures (forall i :: 0 <= i < |attempts| ==> size(attempts[i]) > SizeLimit) ==> r == attempts[|attempts| - 1]
    decreases |attempts|
  {
    if |attempts| == 1 || size(attempts[0]) <= SizeLimit then attempts[0]
    else
      var r := Compressed(attempts[1..], size);
      assert forall i :: 1 <= i < |attempts| ==> attempts[1..][i - 1] == attempts[i];
      r
  }

  /** The attempt chosen is the first that fits: every attempt before it is
      too large. */
  lemma {:induction false} CompressedIsFirstFit(attempts: seq<Attempt>, size: Encoder, k: nat)
    requires k < |attempts| && size(attempts[k]) <= SizeLimit
    requires forall i :: 0 <= i < k ==> size(attempts[i]) > SizeLimit
    ensures Compressed(attempts, size) == attempts[k]
    decreases k
  {
    if k > 0 {
      CompressedIsFirstFit(attempts[1..], size, k - 1);
    }
  }

  lemma {:induction false} AttemptsLength(width: real, height: real, tiers: seq<(nat, nat)>, first: bool)
    requires width > 0.0 && height > 0.0
    requires forall i :: 0 <= i < |tiers| ==> tiers[i].0 > 0 && tiers[i].1 > 0
    ensures |Attempts(width, height, tiers, first)|
            == (if tiers == [] then 0 else |Qualities(if first then InitialQuality else RetryQuality)| + 3 * (|tiers| - 1))
    decreases |tiers|
  {
    if tiers != [] {
      AttemptsLength(width, height, tiers[1..], false);
      DefaultQualities();
    }
  }

  /** With the default bounds a too-large image is encoded at most 14 times:
      five qualities at 1920 pixels and three at each of 1536, 1228 and 982. */
  lemma DefaultAttemptCount(width: real, height: real)
    requires width > 0.0 && height > 0.0
    ensures |Attempts(width, height, Tiers(InitialBound, InitialBound), true)| == 14
  {
    DefaultTiers();
    DefaultQualities();
    AttemptsLength(width, height, Tiers(InitialBound, InitialBound), true);
  }
}
