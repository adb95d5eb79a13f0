/**
 * The review list (HygieneReviewList.tsx): a spinner, an empty-state
 * message, or the reviews newest first, each with its stars, a
 * shortened author, its text when there is one, and a separator below
 * every entry but the last.
 */
module HygieneReviewList {
  import opened Domain
  import RatingStars

  /** `[...reviews].reverse()`: a reversed copy of the fetched list. */
  function Reverse<T>(s: seq<T>): (r: seq<T>)
    ensures |r| == |s|
    ensures forall i :: 0 <= i < |s| ==> r[i] == s[|s| - 1 - i]
  {
    if s == [] then [] else Reverse(s[1..]) + [s[0]]
  }

  /** Reversing twice gives the fetched order back. */
  lemma ReverseInvolution<T>(s: seq<T>)
    ensures Reverse(Reverse(s)) == s
  {
    var r := Reverse(Reverse(s));
    assert |r| == |s|;
    forall i | 0 <= i < |s|
      ensures r[i] == s[i]
    {
      assert r[i] == Reverse(s)[|s| - 1 - i];
    }
  }

  /** Reversal keeps every review, with its multiplicity. */
  lemma {:induction false} ReversePermutes<T>(s: seq<T>)
    ensures multiset(Reverse(s)) == multiset(s)
  {
    if s != [] {
      ReversePermutes(s[1..]);
      assert s == [s[0]] + s[1..];
    }
  }

  /** `author.toString().slice(0, 8)` followed by an ellipsis. */
  function AuthorLabel(author: Principal): (r: string)
    ensures |r| == (if |author.text| < 8 then |author.text| else 8) + 3
    ensures r[..|r| - 3] <= author.text
    ensures r[|r| - 3..] == "..."
  {
    var shown := if |author.text| < 8 then author.text else author.text[..8];
    assert shown + "..." == (shown + "...")[..|shown|] + "...";
    shown + "..."
  }

  /** The paragraph under the stars: only a present, non-empty text is shown. */
  function ShownText(reviewText: Option<string>): (r: Option<string>)
    ensures r.Some? <==> reviewText.Some? && reviewText.value != ""
    ensures r.Some? ==> r.value == reviewText.value
  {
    if reviewText.Some? && reviewText.value != "" then reviewText else None
  }

  /** One rendered entry. */
  datatype ReviewItem = ReviewItem(stars: seq<RatingStars.Star>, author: string, text: Option<string>, separatorAfter: bool)

  /**
   * The entry at `index` of a list of `total` entries: five
   * stars that highlight as many stars as a whole rating in 0..5 names,
   * the text only when there is some, and a separator unless it is last.
   */
  function ItemFor(review: Review, index: int, total: int): (r: ReviewItem)
    ensures |r.stars| == 5
    ensures 0 <= review.rating <= 5 ==> RatingStars.CountHighlighted(r.stars) == review.rating
    ensures r.text.Some? <==> review.reviewText.Some? && review.reviewText.value != ""
    ensures r.separatorAfter <==> index < total - 1
  {
    var item := ReviewItem(RatingStars.Stars(review.rating as real), AuthorLabel(review.author), ShownText(review.reviewText), index < total - 1);
    if 0 <= review.rating <= 5 then
      RatingStars.WholeRating(review.rating);
      item
    else
      item
  }

  /** What the component renders. */
  datatype ListView = Spinner | EmptyState | Items(items: seq<ReviewItem>)

  /**
   * The spinner while loading, the empty-state message for a missing or
   * empty list, and otherwise one entry per review in reversed order.
   */
  function ListViewFor(isLoading: bool, reviews: Option<seq<Review>>): (v: ListView)
    ensures v == Spinner <==> isLoading
    ensures v == EmptyState <==> !isLoading && (reviews.None? || reviews.value == [])
    ensures v.Items? ==> reviews.Some? && |v.items| == |reviews.value| > 0
  {
    if isLoading then Spinner
    else if reviews.None? || |reviews.value| == 0 then EmptyState
    else
      var shown := Reverse(reviews.value);
      Items(seq(|shown|, i requires 0 <= i < |shown| => ItemFor(shown[i], i, |shown|)))
  }

  /**
   * The entries show the reviews newest first: entry `i` is review
   * `n - 1 - i`, with its stars, its shortened author and its text.
   */
  lemma EntriesReversed(reviews: seq<Review>, i: int)
    requires reviews != [] && 0 <= i < |reviews|
    ensures var v := ListViewFor(false, Some(reviews));
            var review := reviews[|reviews| - 1 - i];
            && v.Items?
            && v.items[i].stars == RatingStars.Stars(review.rating as real)
            && v.items[i].author == AuthorLabel(review.author)
            && v.items[i].text == ShownText(review.reviewText)
  {
  }

  /** The number of separators in a run of entries. */
  function CountSeparators(items: seq<ReviewItem>): (n: nat)
    ensures n <= |items|
  {
    if items == [] then 0
    else (if items[0].separatorAfter then 1 else 0) + CountSeparators(items[1..])
  }

  /** Entries whose separators are exactly on the first `k` count `k` separators. */
  lemma {:induction false} CountOfLeading(items: seq<ReviewItem>, k: nat)
    requires k <= |items|
    requires forall i :: 0 <= i < |items| ==> (items[i].separatorAfter <==> i < k)
    ensures CountSeparators(items) == k
  {
    if items != [] {
      CountOfLeading(items[1..], if k > 0 then k - 1 else 0);
    }
  }

  /**
   * A separator follows every entry except the last, so `n` reviews are
   * separated by `n - 1` separators.
   */
  lemma SeparatorCount(reviews: seq<Review>)
    requires reviews != []
    ensures var v := ListViewFor(false, Some(reviews));
            && v.Items?
            && (forall i :: 0 <= i < |v.items| ==> (v.items[i].separatorAfter <==> i < |v.items| - 1))
            && CountSeparators(v.items) == |reviews| - 1
  {
    var items := ListViewFor(false, Some(reviews)).items;
    CountOfLeading(items, |items| - 1);
  }
}
