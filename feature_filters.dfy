/**
 * The two match filters of 8/code/Lab8_temp.py: the distance threshold
 * (`distance_filter`) and Lowe's ratio test (`ratio_test`). A match is the
 * part of an OpenCV `DMatch` the filters read; the matcher that produces
 * the matches is not part of this model.
 */
module FeatureFilters {
  import opened Wrappers

  /** A descriptor match: the two descriptor indices and their distance. */
  datatype Match = Match(queryIdx: int, trainIdx: int, distance: real)

  /** `ratio_test`'s default ratio. */
  const DEFAULT_RATIO: real := 0.75

  /** `a` is `b` with some entries removed, the rest in their original order. */
  predicate Subseq(a: seq<Match>, b: seq<Match>)
    decreases |b|
  {
    if |a| == 0 then true
    else if |b| == 0 then false
    else (a[|a| - 1] == b[|b| - 1] && Subseq(a[..|a| - 1], b[..|b| - 1])) || Subseq(a, b[..|b| - 1])
  }

  lemma {:induction false} SubseqExtend(a: seq<Match>, b: seq<Match>, x: Match)
    requires Subseq(a, b)
    ensures Subseq(a, b + [x]) && Subseq(a + [x], b + [x])
  {
    assert (a + [x])[..|a|] == a;
    assert (b + [x])[..|b|] == b;
  }

  /** An order-preserving subsequence is never longer and only holds entries of the original. */
  lemma {:induction false} SubseqFacts(a: seq<Match>, b: seq<Match>)
    requires Subseq(a, b)
    ensures |a| <= |b|
    ensures forall m :: m in a ==> m in b
    decreases |b|
  {
    if |a| > 0 {
      var bi := b[..|b| - 1];
      assert b == bi + [b[|b| - 1]];
      if Subseq(a, bi) {
        SubseqFacts(a, bi);
      } else {
        var ai := a[..|a| - 1];
        SubseqFacts(ai, bi);
        assert a == ai + [b[|b| - 1]];
      }
    }
  }

  // ---------------------------------------------------------------------
  // distance_filter
  // ---------------------------------------------------------------------

  /** `distance_filter`: the matches strictly closer than `threshold`, in order. */
  function DistanceFilter(matches: seq<Match>, threshold: real): (r: seq<Match>)
    ensures |r| <= |matches|
    ensures forall i :: 0 <= i < |r| ==> r[i].distance < threshold
  {
    if |matches| == 0 then []
    else
      var last := matches[|matches| - 1];
      var kept := DistanceFilter(matches[..|matches| - 1], threshold);
      if last.distance < threshold then kept + [last] else kept
  }

  /** The result keeps the surviving matches in their original order. */
  lemma {:induction false} DistanceFilterSubseq(matches: seq<Match>, threshold: real)
    ensures Subseq(DistanceFilter(matches, threshold), matches)
  {
    if |matches| > 0 {
      var init := matches[..|matches| - 1];
      var last := matches[|matches| - 1];
      DistanceFilterSubseq(init, threshold);
      SubseqExtend(DistanceFilter(init, threshold), init, last);
      assert init + [last] == matches;
    }
  }

  /** Each match occurs in the result exactly as often as in the input if it is close enough, and not at all otherwise. */
  lemma {:induction false} DistanceFilterCounts(matches: seq<Match>, threshold: real, m: Match)
    ensures multiset(DistanceFilter(matches, threshold))[m] ==
              if m.distance < threshold then multiset(matches)[m] else 0
  {
    if |matches| > 0 {
      var init := matches[..|matches| - 1];
      DistanceFilterCounts(init, threshold, m);
      assert matches == init + [matches[|matches| - 1]];
    }
  }

  /** A match is kept exactly when it is in the input with distance below the threshold. */
  lemma DistanceFilterKeeps(matches: seq<Match>, threshold: real, m: Match)
    ensures m in DistanceFilter(matches, threshold) <==> m in matches && m.distance < threshold
  {
    DistanceFilterCounts(matches, threshold, m);
    assert m in DistanceFilter(matches, threshold) <==> multiset(DistanceFilter(matches, threshold))[m] > 0;
  }

  /** Filtering twice with the same threshold is filtering once. */
  lemma {:induction false} DistanceFilterIdempotent(matches: seq<Match>, threshold: real)
    ensures DistanceFilter(DistanceFilter(matches, threshold), threshold) == DistanceFilter(matches, threshold)
  {
    if |matches| > 0 {
      var init := matches[..|matches| - 1];
      var last := matches[|matches| - 1];
      var kept := DistanceFilter(init, threshold);
      DistanceFilterIdempotent(init, threshold);
      if last.distance < threshold {
        var r := kept + [last];
        assert DistanceFilter(matches, threshold) == r;
        assert r[..|r| - 1] == kept && r[|r| - 1] == last;
        assert DistanceFilter(r, threshold) == DistanceFilter(kept, threshold) + [last];
      } else {
        assert DistanceFilter(matches, threshold) == kept;
      }
    }
  }

  /** A lower threshold keeps exactly what it would keep from the higher threshold's result. */
  lemma {:induction false} DistanceFilterNested(matches: seq<Match>, low: real, high: real)
    requires low <= high
    ensures DistanceFilter(DistanceFilter(matches, high), low) == DistanceFilter(matches, low)
  {
    if |matches| > 0 {
      var init := matches[..|matches| - 1];
      var last := matches[|matches| - 1];
      var kept := DistanceFilter(init, high);
      DistanceFilterNested(init, low, high);
      if last.distance < high {
        var r := kept + [last];
        assert DistanceFilter(matches, high) == r;
        assert r[..|r| - 1] == kept && r[|r| - 1] == last;
        assert DistanceFilter(r, low) == DistanceFilter(kept, low) + if last.distance < low then [last] else [];
      } else {
        assert DistanceFilter(matches, high) == kept;
      }
    }
  }

  /** Lowering the threshold yields a subsequence of the higher threshold's result. */
  lemma DistanceFilterMonotone(matches: seq<Match>, low: real, high: real)
    requires low <= high
    ensures Subseq(DistanceFilter(matches, low), DistanceFilter(matches, high))
  {
    DistanceFilterNested(matches, low, high);
    DistanceFilterSubseq(DistanceFilter(matches, high), low);
  }

  // ---------------------------------------------------------------------
  // ratio_test
  // ---------------------------------------------------------------------

  /** `for m, n in knn_matches` raises on an entry that does not hold exactly two matches. */
  datatype RatioError = UnpackError(index: nat)

  /** Entry `e` passes Lowe's test: its best match is clearly closer than its second best. */
  predicate Distinctive(e: seq<Match>, ratio: real)
    requires |e| == 2
  {
    e[0].distance < ratio * e[1].distance
  }

  /** The result `ratio_test` computes: the kept best matches, or the first entry that cannot be unpacked. */
  function RatioSpec(knn: seq<seq<Match>>, ratio: real): (r: Result<seq<Match>, RatioError>)
    ensures r.Success? ==> |r.value| <= |knn|
  {
    if |knn| == 0 then Success([])
    else
      var last := knn[|knn| - 1];
      match RatioSpec(knn[..|knn| - 1], ratio)
      case Failure(e) => Failure(e)
      case Success(good) =>
        if |last| != 2 then Failure(UnpackError(|knn| - 1))
        else if Distinctive(last, ratio) then Success(good + [last[0]])
        else Success(good)
  }

  /** `ratio_test`: one pass over the pairs, appending each best match that passes the test. */
  method RatioTest(knn: seq<seq<Match>>, ratio: real) returns (r: Result<seq<Match>, RatioError>)
    ensures r == RatioSpec(knn, ratio)
  {
    var good: seq<Match> := [];
    for i := 0 to |knn|
      invariant RatioSpec(knn[..i], ratio) == Success(good)
    {
      assert knn[..i + 1][..i] == knn[..i];
      if |knn[i]| != 2 {
        RatioSpecFailureSticks(knn, ratio, i + 1);
        return Failure(UnpackError(i));
      }
      var m := knn[i][0];
      var n := knn[i][1];
      if m.distance < ratio * n.distance {
        good := good + [m];
      }
      assert knn[..i + 1][i] == knn[i];
      assert RatioSpec(knn[..i + 1], ratio) == Success(good);
    }
    assert knn[..|knn|] == knn;
    r := Success(good);
  }

  /** Once a prefix fails, every longer prefix fails the same way. */
  lemma {:induction false} RatioSpecFailureSticks(knn: seq<seq<Match>>, ratio: real, i: nat)
    requires i <= |knn| && RatioSpec(knn[..i], ratio).Failure?
    ensures RatioSpec(knn, ratio) == RatioSpec(knn[..i], ratio)
    decreases |knn| - i
  {
    if i < |knn| {
      assert knn[..i + 1][..i] == knn[..i];
      RatioSpecFailureSticks(knn, ratio, i + 1);
    } else {
      assert knn[..i] == knn;
    }
  }

  /** The test fails exactly on the first entry that is not a pair. */
  lemma {:induction false} RatioSpecFails(knn: seq<seq<Match>>, ratio: real)
    ensures RatioSpec(knn, ratio).Success? <==> forall j :: 0 <= j < |knn| ==> |knn[j]| == 2
    ensures RatioSpec(knn, ratio).Failure? ==>
              var i := RatioSpec(knn, ratio).error.index;
              i < |knn| && |knn[i]| != 2 && forall j :: 0 <= j < i ==> |knn[j]| == 2
  {
    if |knn| > 0 {
      var init := knn[..|knn| - 1];
      RatioSpecFails(init, ratio);
      assert forall j :: 0 <= j < |init| ==> init[j] == knn[j];
    }
  }

  /** The best match of every pair, in order. */
  function Firsts(knn: seq<seq<Match>>): (fs: seq<Match>)
    requires forall j :: 0 <= j < |knn| ==> |knn[j]| == 2
    ensures |fs| == |knn| && forall j :: 0 <= j < |knn| ==> fs[j] == knn[j][0]
  {
    if |knn| == 0 then [] else Firsts(knn[..|knn| - 1]) + [knn[|knn| - 1][0]]
  }

  /** On pairs, the result is an order-preserving selection of the best matches. */
  lemma {:induction false} RatioSpecSelects(knn: seq<seq<Match>>, ratio: real)
    requires forall j :: 0 <= j < |knn| ==> |knn[j]| == 2
    ensures RatioSpec(knn, ratio).Success? && Subseq(RatioSpec(knn, ratio).value, Firsts(knn))
  {
    if |knn| > 0 {
      var init := knn[..|knn| - 1];
      var last := knn[|knn| - 1];
      RatioSpecSelects(init, ratio);
      var good := RatioSpec(init, ratio).value;
      SubseqExtend(good, Firsts(init), last[0]);
      assert forall j :: 0 <= j < |init| ==> init[j] == knn[j];
    }
  }

  /** On pairs, a match is kept exactly when it is the best match of a pair that passes the test. */
  lemma {:induction false} RatioSpecKeeps(knn: seq<seq<Match>>, ratio: real, m: Match)
    requires forall j :: 0 <= j < |knn| ==> |knn[j]| == 2
    ensures RatioSpec(knn, ratio).Success?
    ensures m in RatioSpec(knn, ratio).value <==>
              exists j :: 0 <= j < |knn| && knn[j][0] == m && Distinctive(knn[j], ratio)
  {
    RatioSpecSelects(knn, ratio);
    if |knn| > 0 {
      var init := knn[..|knn| - 1];
      var last := knn[|knn| - 1];
      assert forall j :: 0 <= j < |init| ==> init[j] == knn[j];
      RatioSpecKeeps(init, ratio, m);
      var good := RatioSpec(init, ratio).value;
      if m in RatioSpec(knn, ratio).value && m !in good {
        assert knn[|knn| - 1][0] == m;
      }
      if exists j :: 0 <= j < |knn| && knn[j][0] == m && Distinctive(knn[j], ratio) {
        var j :| 0 <= j < |knn| && knn[j][0] == m && Distinctive(knn[j], ratio);
        if j < |init| {
          assert init[j] == knn[j];
        }
      }
    }
  }
}
