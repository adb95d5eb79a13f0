/**
 * The five-star widget (RatingStars.tsx): which stars are drawn filled or
 * half-way, and when a click on a star reaches the `onChange` callback.
 * The `rating` prop is a JavaScript number, modelled as a `real`.
 */
module RatingStars {
  import opened Domain

  /** The literal `[1, 2, 3, 4, 5]` the widget maps over. */
  const StarValues: seq<int> := [1, 2, 3, 4, 5]

  /** One rendered star: its value and its two highlight flags. */
  datatype Star = Star(value: int, filled: bool, partial: bool)

  /** A star is drawn in the highlight colour when it is filled or partial. */
  predicate Highlighted(s: Star)
    ensures s.filled ==> Highlighted(s)
    ensures s.partial ==> Highlighted(s)
    ensures !s.filled && !s.partial ==> !Highlighted(s)
  {
    s.filled || s.partial
  }

  /** `isFilled` and `isPartial` for the star of value `v`. */
  function StarFor(v: int, rating: real): (s: Star)
    ensures s.value == v
    ensures s.filled <==> v as real <= rating
    ensures !(s.filled && s.partial)
    ensures Highlighted(s) <==> v as real - 0.5 <= rating
  {
    Star(v, v as real <= rating, v as real - 0.5 <= rating && v as real > rating)
  }

  /** The stars in display order. */
  function Stars(rating: real): (r: seq<Star>)
    ensures |r| == |StarValues|
    ensures forall i :: 0 <= i < |r| ==> r[i] == StarFor(StarValues[i], rating)
  {
    seq(|StarValues|, i requires 0 <= i < |StarValues| => StarFor(StarValues[i], rating))
  }

  /** Exactly five stars, valued 1 to 5 in order. */
  lemma FiveStarsInOrder(rating: real)
    ensures |Stars(rating)| == 5
    ensures forall i :: 0 <= i < 5 ==> Stars(rating)[i].value == i + 1
  {
  }

  /**
   * Star `i + 1` is filled exactly when it is at most the rating, partial
   * exactly when the rating lies in `[i + 0.5, i + 1)`, and highlighted
   * exactly when it is at most half a star above the rating.
   */
  lemma StarFlags(rating: real, i: int)
    requires 0 <= i < 5
    ensures Stars(rating)[i].filled <==> (i + 1) as real <= rating
    ensures Stars(rating)[i].partial <==> (i + 1) as real - 0.5 <= rating < (i + 1) as real
    ensures Highlighted(Stars(rating)[i]) <==> (i + 1) as real - 0.5 <= rating
  {
  }

  /** At most one star is drawn partial. */
  lemma AtMostOnePartial(rating: real, i: int, j: int)
    requires 0 <= i < 5 && 0 <= j < 5
    requires Stars(rating)[i].partial && Stars(rating)[j].partial
    ensures i == j
  {
    StarFlags(rating, i);
    StarFlags(rating, j);
  }

  /** The highlighted stars form a prefix: every star left of a highlighted one is highlighted. */
  lemma HighlightedPrefix(rating: real, i: int, j: int)
    requires 0 <= i <= j < 5
    requires Highlighted(Stars(rating)[j])
    ensures Highlighted(Stars(rating)[i])
  {
    StarFlags(rating, i);
    StarFlags(rating, j);
  }

  /** How many stars of a row are highlighted. */
  function CountHighlighted(stars: seq<Star>): (n: nat)
    ensures n <= |stars|
  {
    if stars == [] then 0
    else (if Highlighted(stars[0]) then 1 else 0) + CountHighlighted(stars[1..])
  }

  /** A row whose highlighted stars are exactly its first `k` counts `k` of them. */
  lemma {:induction false} CountOfPrefix(stars: seq<Star>, k: nat)
    requires k <= |stars|
    requires forall i :: 0 <= i < |stars| ==> (Highlighted(stars[i]) <==> i < k)
    ensures CountHighlighted(stars) == k
  {
    if stars != [] {
      if k > 0 {
        CountOfPrefix(stars[1..], k - 1);
      } else {
        CountOfPrefix(stars[1..], 0);
      }
    }
  }

  /**
   * A whole-number rating `r` between 0 and 5 highlights exactly the first
   * `r` stars, all of them filled and none partial.
   */
  lemma WholeRating(r: int)
    requires 0 <= r <= 5
    ensures var stars := Stars(r as real);
            && CountHighlighted(stars) == r
            && (forall i :: 0 <= i < 5 ==> !stars[i].partial)
            && (forall i :: 0 <= i < 5 ==> (stars[i].filled <==> i < r))
  {
    var stars := Stars(r as real);
    forall i | 0 <= i < 5
      ensures Highlighted(stars[i]) <==> i < r
      ensures !stars[i].partial
    {
      StarFlags(r as real, i);
    }
    CountOfPrefix(stars, r);
  }

  /**
   * `handleClick(value)`: the callback receives `value` when the widget is
   * not read-only and a callback was given; otherwise nothing happens.
   */
  function Click(value: int, readonly: bool, hasOnChange: bool): (r: Option<int>)
    ensures r.Some? <==> !readonly && hasOnChange
    ensures r.Some? ==> r.value == value
  {
    if !readonly && hasOnChange then Some(value) else None
  }

  /** Any rating a click on a rendered star delivers lies between 1 and 5. */
  lemma ClickedRatingInRange(rating: real, i: int, readonly: bool, hasOnChange: bool)
    requires 0 <= i < 5
    ensures var c := Click(Stars(rating)[i].value, readonly, hasOnChange);
            c.Some? ==> 1 <= c.value <= 5 && c.value == i + 1
  {
  }
}
