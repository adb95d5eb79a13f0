/**
 * The review form (HygieneReviewForm.tsx): who may submit, the checks run
 * before the review mutation is sent, how the optional text is cleaned,
 * and the form state after the mutation settles.
 */
module HygieneReviewForm {
  import opened Domain
  import opened Strings
  import RatingStars
  import Queries

  /**
   * `reviewText.trim() || null`: the trimmed text, or nothing when only
   * whitespace was entered.
   */
  function NormalizeText(text: string): (r: Option<string>)
    ensures r.None? <==> forall i :: 0 <= i < |text| ==> IsWhitespace(text[i])
    ensures r.Some? ==> r.value == Trim(text) && r.value != []
  {
    var t := Trim(text);
    TrimEmptyIffAllWhitespace(text);
    if t == [] then None else Some(t)
  }

  /** Cleaning an already cleaned text changes nothing. */
  lemma NormalizeTextStable(text: string)
    requires NormalizeText(text).Some?
    ensures NormalizeText(NormalizeText(text).value) == NormalizeText(text)
  {
    TrimIdempotent(text);
  }

  /** What `handleSubmit` decides before anything is sent. */
  datatype SubmitCheck = NeedsSignIn | NeedsRating | Ready(m: Queries.Mutation)

  /**
   * The two guards of `handleSubmit`, in order: sign-in first, then a
   * chosen rating; otherwise the review mutation with the rating and the
   * cleaned text.
   */
  function CheckSubmit(identity: Option<Principal>, rating: int, reviewText: string): (c: SubmitCheck)
    ensures c == NeedsSignIn <==> !IsAuthenticated(identity)
    ensures c == NeedsRating <==> IsAuthenticated(identity) && rating == 0
    ensures c.Ready? ==> c.m == Queries.SubmitReview(rating, NormalizeText(reviewText))
  {
    if !IsAuthenticated(identity) then NeedsSignIn
    else if rating == 0 then NeedsRating
    else Ready(Queries.SubmitReview(rating, NormalizeText(reviewText)))
  }

  /** The submit button is enabled unless a submission is pending or no rating is chosen. */
  predicate SubmitEnabled(isPending: bool, rating: int)
    ensures isPending ==> !SubmitEnabled(isPending, rating)
    ensures rating == 0 ==> !SubmitEnabled(isPending, rating)
    ensures !isPending && rating != 0 ==> SubmitEnabled(isPending, rating)
  {
    !isPending && rating != 0
  }

  /**
   * The button's rule and the handler's rating guard agree: for a signed-in
   * user, an enabled button always leads to a send, and a missing rating
   * both disables the button and is refused by the handler.
   */
  lemma EnabledButtonSends(identity: Option<Principal>, isPending: bool, rating: int, reviewText: string)
    requires IsAuthenticated(identity)
    ensures SubmitEnabled(isPending, rating) ==> CheckSubmit(identity, rating, reviewText).Ready?
    ensures rating == 0 ==> !SubmitEnabled(isPending, rating) && CheckSubmit(identity, rating, reviewText) == NeedsRating
  {
  }

  /** What the component renders. */
  datatype FormView = SignInPrompt | ThankYou | ReviewEntry

  /** A sign-in prompt for a visitor, a thank-you after a success, the form otherwise. */
  function ViewFor(identity: Option<Principal>, isSuccess: bool): (v: FormView)
    ensures v == SignInPrompt <==> !IsAuthenticated(identity)
    ensures v == ThankYou <==> IsAuthenticated(identity) && isSuccess
    ensures v == ReviewEntry <==> IsAuthenticated(identity) && !isSuccess
  {
    if !IsAuthenticated(identity) then SignInPrompt
    else if isSuccess then ThankYou
    else ReviewEntry
  }

  /** How a press of the submit button ends. */
  datatype SubmitOutcome = SignInError | RatingError | Submitted(result: Reply<()>)

  /** The form's state: the chosen rating and the text typed so far. */
  class ReviewForm {
    var rating: int
    var reviewText: string

    /** The rating is 0 (none chosen) or the value of a clicked star. */
    ghost predicate Valid()
      reads this
    {
      0 <= rating <= 5
    }

    /** The initial state: no rating and no text. */
    constructor ()
      ensures Valid()
      ensures rating == 0 && reviewText == ""
    {
      rating := 0;
      reviewText := "";
    }

    /**
     * A click on star `i + 1` of the editable widget, whose `onChange` is
     * the rating setter.
     */
    method ClickStar(i: int)
      requires 0 <= i < 5
      modifies this
      ensures Valid()
      ensures rating == i + 1
      ensures reviewText == old(reviewText)
    {
      var delivered := RatingStars.Click(RatingStars.Stars(rating as real)[i].value, false, true);
      if delivered.Some? {
        rating := delivered.value;
      }
    }

    /** Typing in the text area replaces the text and keeps the rating. */
    method EditText(text: string)
      modifies this
      ensures reviewText == text
      ensures rating == old(rating)
    {
      reviewText := text;
    }

    /**
     * `handleSubmit`: refuse a visitor or a missing rating without sending
     * anything; otherwise send the review through the shared query client,
     * and clear the form only when the mutation succeeds.
     */
    method Submit(identity: Option<Principal>, cache: Queries.QueryCache, actor: Option<Queries.Remote>, reply: Reply<()>)
      returns (outcome: SubmitOutcome)
      requires Valid() && cache.Valid()
      modifies this, cache
      ensures Valid() && cache.Valid()
      ensures var c := CheckSubmit(identity, old(rating), old(reviewText));
              && (c == NeedsSignIn ==> outcome == SignInError)
              && (c == NeedsRating ==> outcome == RatingError)
              && (c.Ready? ==> outcome == Submitted(Queries.Settle(actor, reply)))
              && (c.Ready? ==> 1 <= c.m.rating <= 5)
              && (c.Ready? ==> cache.sent == old(cache.sent) + (if actor.Some? then [c.m] else []))
              && (c.Ready? ==> cache.freshness == Queries.AfterMutation(old(cache.freshness), c.m, outcome.result))
              && (!c.Ready? ==> cache.sent == old(cache.sent) && cache.freshness == old(cache.freshness))
      ensures outcome.Submitted? && outcome.result.Resolved? ==> rating == 0 && reviewText == ""
      ensures !(outcome.Submitted? && outcome.result.Resolved?) ==> rating == old(rating) && reviewText == old(reviewText)
    {
      if !IsAuthenticated(identity) {
        return SignInError;
      }
      if rating == 0 {
        return RatingError;
      }
      var result := cache.Run(Queries.SubmitReview(rating, NormalizeText(reviewText)), actor, reply);
      outcome := Submitted(result);
      if result.Resolved? {
        rating := 0;
        reviewText := "";
      }
    }
  }
}
