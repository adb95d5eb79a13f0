/**
 * The review summary (HygieneStats.tsx): the number of reviews and their
 * mean rating, with 0 standing for "no reviews", and how both are shown.
 */
module HygieneStats {
  import opened Domain

  /** The sum of the ratings, the reference the fold below is measured against. */
  function SumRatings(reviews: seq<Review>): int {
    if reviews == [] then 0 else reviews[0].rating + SumRatings(reviews[1..])
  }

  /**
   * `reviews.reduce((acc, review) => acc + Number(review.rating), acc)`:
   * the left-to-right fold, which adds the sum of the ratings to its
   * starting accumulator.
   */
  function Reduce(reviews: seq<Review>, acc: int): (r: int)
    ensures r == acc + SumRatings(reviews)
  {
    if reviews == [] then acc else Reduce(reviews[1..], acc + reviews[0].rating)
  }

  datatype Stats = Stats(average: real, count: nat)

  /** `stats`: average and count, both 0 unless at least one review arrived. */
  function StatsOf(reviews: Option<seq<Review>>): (st: Stats)
    ensures reviews.None? || reviews.value == [] ==> st == Stats(0.0, 0)
    ensures reviews.Some? && reviews.value != [] ==>
              st.count == |reviews.value| && st.average * (st.count as real) == SumRatings(reviews.value) as real
  {
    if reviews.Some? && |reviews.value| > 0 then
      Stats(Reduce(reviews.value, 0) as real / |reviews.value| as real, |reviews.value|)
    else
      Stats(0.0, 0)
  }

  /** Ratings all within `[lo, hi]` sum to between `lo` and `hi` times their number. */
  lemma {:induction false} SumBounds(reviews: seq<Review>, lo: int, hi: int)
    requires forall i :: 0 <= i < |reviews| ==> lo <= reviews[i].rating <= hi
    ensures lo * |reviews| <= SumRatings(reviews) <= hi * |reviews|
  {
    if reviews != [] {
      SumBounds(reviews[1..], lo, hi);
    }
  }

  /** When every rating lies in `[lo, hi]`, so does the average of a non-empty list. */
  lemma AverageBounds(reviews: seq<Review>, lo: int, hi: int)
    requires reviews != []
    requires forall i :: 0 <= i < |reviews| ==> lo <= reviews[i].rating <= hi
    ensures lo as real <= StatsOf(Some(reviews)).average <= hi as real
  {
    SumBounds(reviews, lo, hi);
    var st := StatsOf(Some(reviews));
    QuotientOfBoundedSum(st.average, |reviews|, SumRatings(reviews), lo, hi);
  }

  /** A mean of `n` values whose sum lies in `[lo·n, hi·n]` lies in `[lo, hi]`. */
  lemma QuotientOfBoundedSum(avg: real, n: int, sum: int, lo: int, hi: int)
    requires n > 0 && avg * (n as real) == sum as real
    requires lo * n <= sum <= hi * n
    ensures lo as real <= avg <= hi as real
  {
    IntToRealProduct(lo, n);
    IntToRealProduct(hi, n);
    QuotientBounds(avg, n as real, lo as real, hi as real);
  }

  /** Converting a product of integers to a real multiplies the conversions. */
  lemma IntToRealProduct(a: int, b: int)
    ensures (a * b) as real == (a as real) * (b as real)
  {
  }

  /** A positive factor preserves the order of a bound. */
  lemma QuotientBounds(x: real, n: real, lo: real, hi: real)
    requires n > 0.0 && lo * n <= x * n <= hi * n
    ensures lo <= x <= hi
  {
    assert (x - lo) * n >= 0.0 && (hi - x) * n >= 0.0;
  }

  /** Taking one review out of a list takes its rating out of the sum. */
  lemma {:induction false} SumRemove(reviews: seq<Review>, j: nat)
    requires j < |reviews|
    ensures SumRatings(reviews) == reviews[j].rating + SumRatings(reviews[..j] + reviews[j + 1..])
  {
    if j > 0 {
      SumRemove(reviews[1..], j - 1);
      assert reviews[1..][..j - 1] + reviews[1..][j..] == (reviews[..j] + reviews[j + 1..])[1..];
    } else {
      assert reviews[..0] + reviews[1..] == reviews[1..];
    }
  }

  /** Removing position `j` removes one copy of `s[j]` from the multiset. */
  lemma MultisetWithout<T>(s: seq<T>, j: nat)
    requires j < |s|
    ensures multiset(s[..j] + s[j + 1..]) == multiset(s) - multiset{s[j]}
  {
    assert s == s[..j] + [s[j]] + s[j + 1..];
    assert multiset(s) == multiset(s[..j]) + multiset{s[j]} + multiset(s[j + 1..]);
  }

  /** Matching the head of `a` with `b[j]` leaves permutations of each other behind. */
  lemma PermutationTails<T>(a: seq<T>, b: seq<T>, j: nat)
    requires multiset(a) == multiset(b)
    requires a != [] && j < |b| && b[j] == a[0]
    ensures multiset(a[1..]) == multiset(b[..j] + b[j + 1..])
  {
    MultisetWithout(b, j);
    MultisetWithoutHead(a);
    assert multiset{a[0]} == multiset{b[j]};
  }

  /** Dropping the head removes one copy of it from the multiset. */
  lemma MultisetWithoutHead<T>(s: seq<T>)
    requires s != []
    ensures multiset(s[1..]) == multiset(s) - multiset{s[0]}
  {
    assert s == [s[0]] + s[1..];
  }

  /** Reordering the reviews does not change the sum. */
  lemma {:induction false} SumPermutation(a: seq<Review>, b: seq<Review>)
    requires multiset(a) == multiset(b)
    ensures SumRatings(a) == SumRatings(b)
    decreases |a|
  {
    if a != [] {
      assert a[0] in multiset(b);
      var j :| 0 <= j < |b| && b[j] == a[0];
      var rest := b[..j] + b[j + 1..];
      PermutationTails(a, b, j);
      SumPermutation(a[1..], rest);
      SumRemove(b, j);
    } else {
      assert |b| == |multiset(b)| == 0;
    }
  }

  /** The count and the average do not depend on the order of the reviews. */
  lemma StatsOrderIndependent(a: seq<Review>, b: seq<Review>)
    requires multiset(a) == multiset(b)
    ensures StatsOf(Some(a)) == StatsOf(Some(b))
  {
    SumPermutation(a, b);
    assert |a| == |multiset(a)| == |multiset(b)| == |b|;
  }

  /** Ratings of at least `lo` sum to at least `lo` times their number. */
  lemma {:induction false} SumAtLeast(reviews: seq<Review>, lo: int)
    requires forall i :: 0 <= i < |reviews| ==> lo <= reviews[i].rating
    ensures lo * |reviews| <= SumRatings(reviews)
  {
    if reviews != [] {
      SumAtLeast(reviews[1..], lo);
    }
  }

  /**
   * With every rating at least 1, a non-empty list sums to at least its
   * length, so its average is positive and the 0 sentinel never coincides
   * with a real average.
   */
  lemma SentinelIsDistinct(reviews: seq<Review>)
    requires forall i :: 0 <= i < |reviews| ==> 1 <= reviews[i].rating
    ensures StatsOf(Some(reviews)).average == 0.0 <==> reviews == []
  {
    if reviews != [] {
      SumAtLeast(reviews, 1);
      var st := StatsOf(Some(reviews));
      assert SumRatings(reviews) as real > 0.0;
      assert st.average * (st.count as real) != 0.0;
    }
  }

  /** The big figure under the star: a dash when there is nothing to average. */
  datatype AverageText = Dash | OneDecimal(value: real)

  function AverageTextFor(st: Stats): (r: AverageText)
    ensures r == Dash <==> st.count == 0
    ensures r.OneDecimal? ==> r.value == st.average
  {
    if st.count > 0 then OneDecimal(st.average) else Dash
  }

  /** The dash is shown exactly when no reviews arrived. */
  lemma DashIffNoReviews(reviews: Option<seq<Review>>)
    ensures AverageTextFor(StatsOf(reviews)) == Dash <==> reviews.None? || reviews.value == []
    ensures AverageTextFor(StatsOf(reviews)).OneDecimal? ==> AverageTextFor(StatsOf(reviews)).value == StatsOf(reviews).average
  {
  }

  /** The caption under the count. */
  function CountCaption(count: nat): (r: string)
    ensures r == "Customer Review" <==> count == 1
    ensures r == "Customer Reviews" <==> count != 1
  {
    if count == 1 then "Customer Review" else "Customer Reviews"
  }

  /** The caption is singular exactly when there is one review. */
  lemma CaptionSingularIffOne(reviews: Option<seq<Review>>)
    ensures CountCaption(StatsOf(reviews).count) == "Customer Review" <==> reviews.Some? && |reviews.value| == 1
  {
    var caption := CountCaption(StatsOf(reviews).count);
    if StatsOf(reviews).count != 1 {
      assert |caption| == 16;
    }
  }
}
