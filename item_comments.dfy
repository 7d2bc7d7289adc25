/** The review list under an item (frontend/src/components/item/ItemComments.jsx): the
    effect that decides whether the list is shown, and how each review's comment and
    image link are displayed. */
module ItemComments {
  import opened Wrappers
  import opened Strings
  import StringUtils

  /** An uploaded review image. */
  datatype ReviewImage = ReviewImage(url: string)

  /** One review as the reviews endpoint returns it; a missing comment or image is `None`. */
  datatype Review = Review(userName: string, rating: int, comment: Option<string>, image: Option<ReviewImage>)

  /** `review.comment && review.comment.trim() !== ""`. */
  predicate HasText(comment: Option<string>)
  {
    comment.Some? && comment.value != "" && JsTrim(comment.value) != ""
  }

  /** A review that makes the list worth showing: some comment text, or an image. */
  predicate Qualifies(r: Review)
  {
    HasText(r.comment) || r.image.Some?
  }

  /** Where the effect's loop returns: the first qualifying review, if any. */
  function FirstQualifying(reviews: seq<Review>): (r: Option<nat>)
    ensures r.Some? ==> r.value < |reviews| && Qualifies(reviews[r.value])
    ensures r.Some? ==> forall k :: 0 <= k < r.value ==> !Qualifies(reviews[k])
    ensures r.None? ==> forall k :: 0 <= k < |reviews| ==> !Qualifies(reviews[k])
  {
    if reviews == [] then None
    else if Qualifies(reviews[0]) then Some(0)
    else
      var r := FirstQualifying(reviews[1..]);
      assert forall k :: 1 <= k < |reviews| ==> reviews[k] == reviews[1..][k - 1];
      if r.Some? then Some(r.value + 1) else None
  }

  /** `hasComments` after the effect runs on one fetched `reviews` value (`None` is a
      null or undefined body): set when some review qualifies, otherwise left alone. */
  function AfterReviews(has: bool, reviews: Option<seq<Review>>): bool
  {
    if reviews.Some? && |reviews.value| > 0 && FirstQualifying(reviews.value).Some? then true else has
  }

  /** The effect sets the flag exactly when some review qualifies; it never clears it,
      and a null or empty list leaves it as it was. */
  lemma AfterReviewsMeaning(has: bool, reviews: Option<seq<Review>>)
    ensures AfterReviews(has, reviews) <==>
      has || (reviews.Some? && exists k :: 0 <= k < |reviews.value| && Qualifies(reviews.value[k]))
    ensures reviews.None? || reviews.value == [] ==> AfterReviews(has, reviews) == has
  {
    if reviews.Some? && FirstQualifying(reviews.value).Some? {
      var k := FirstQualifying(reviews.value).value;
      assert Qualifies(reviews.value[k]);
    }
  }

  /** The flag after the effect has run on each fetched value in turn, starting from `has`. */
  function AfterAll(has: bool, fetches: seq<Option<seq<Review>>>): bool
  {
    if fetches == [] then has
    else AfterReviews(AfterAll(has, fetches[..|fetches| - 1]), fetches[|fetches| - 1])
  }

  /** Once set, the flag stays set across every later refresh. */
  lemma {:induction false} AfterAllSticky(fetches: seq<Option<seq<Review>>>)
    ensures AfterAll(true, fetches)
  {
    if fetches != [] {
      AfterAllSticky(fetches[..|fetches| - 1]);
    }
  }

  /** Starting from the initial `false`, the flag is set exactly when some fetch so far
      held a qualifying review. */
  lemma {:induction false} AfterAllMeaning(fetches: seq<Option<seq<Review>>>)
    ensures AfterAll(false, fetches) <==>
      exists i :: 0 <= i < |fetches| && fetches[i].Some? && FirstQualifying(fetches[i].value).Some?
  {
    if fetches != [] {
      var n := |fetches| - 1;
      var init := fetches[..n];
      AfterAllMeaning(init);
      if exists i :: 0 <= i < |init| && init[i].Some? && FirstQualifying(init[i].value).Some? {
        var i :| 0 <= i < |init| && init[i].Some? && FirstQualifying(init[i].value).Some?;
        assert fetches[i] == init[i];
      }
      if exists i :: 0 <= i < |fetches| && fetches[i].Some? && FirstQualifying(fetches[i].value).Some? {
        var i :| 0 <= i < |fetches| && fetches[i].Some? && FirstQualifying(fetches[i].value).Some?;
        if i < n {
          assert init[i] == fetches[i];
        }
      }
    }
  }

  /** The text shown for a review's comment: the trimmed comment, or "No comment" when
      it is missing or blank. */
  function CommentText(r: Review): (t: string)
    ensures t != ""
    ensures HasText(r.comment) ==> t == JsTrim(r.comment.value)
    ensures !HasText(r.comment) ==> t == "No comment"
  {
    if r.comment.Some? && JsTrim(r.comment.value) != "" then JsTrim(r.comment.value) else "No comment"
  }

  /** A shown comment carries no surrounding blanks. */
  lemma CommentTextTrimmed(r: Review)
    ensures JsTrim(CommentText(r)) == CommentText(r)
  {
    if HasText(r.comment) {
      TrimIdempotent(r.comment.value, IsJsSpace);
    } else {
      var t := "No comment";
      assert !IsJsSpace(t[0]) && !IsJsSpace(t[|t| - 1]);
      assert TrimStart(t, IsJsSpace) == t;
      assert TrimEnd(t, IsJsSpace) == t;
    }
  }

  /** The comment is set in italics exactly when it is missing or empty. */
  predicate Italic(r: Review)
  {
    !(r.comment.Some? && r.comment.value != "")
  }

  /** A comment of blanks only is set upright, though its text is "No comment". */
  lemma BlankCommentUpright()
    ensures var r := Review("Ada", 5, Some(" "), None);
      !Italic(r) && CommentText(r) == "No comment" && !Qualifies(r)
  {
    assert TrimStart(" ", IsJsSpace) == "";
  }

  /** The "View Image" link: present when the image has a URL, made absolute against
      the API origin `env`. */
  function ImageLink(r: Review, env: Option<string>): (link: Option<string>)
    ensures link.Some? <==> r.image.Some? && r.image.value.url != ""
    ensures link.Some? && StringUtils.IsAbsoluteUrl(r.image.value.url) ==> link.value == r.image.value.url
  {
    if r.image.Some? && r.image.value.url != "" then Some(StringUtils.ToAbsoluteMediaUrl(Some(r.image.value.url), env))
    else None
  }

  /** The component's state. */
  class CommentsPanel {
    var hasComments: bool

    constructor()
      ensures !hasComments
    {
      hasComments := false;
    }

    /** What the section shows once loading has finished. */
    function Heading(): (h: string)
      reads this
      ensures hasComments <==> h == "User Review"
    {
      if hasComments then "User Review" else "No comments yet"
    }

    /** The effect on a fetched `reviews` value: scan in order and stop at the first
        qualifying review, setting the flag. Returns where the scan stopped. */
    method OnReviews(reviews: Option<seq<Review>>) returns (stoppedAt: Option<nat>)
      modifies this
      ensures stoppedAt == (if reviews.Some? then FirstQualifying(reviews.value) else None)
      ensures hasComments == AfterReviews(old(hasComments), reviews)
    {
      stoppedAt := None;
      if reviews.Some? && |reviews.value| > 0 {
        var rs := reviews.value;
        var i := 0;
        while i < |rs|
          invariant 0 <= i <= |rs|
          invariant forall k :: 0 <= k < i ==> !Qualifies(rs[k])
          invariant hasComments == old(hasComments)
        {
          var review := rs[i];
          if (review.comment.Some? && review.comment.value != "" && JsTrim(review.comment.value) != "")
             || review.image.Some? {
            hasComments := true;
            stoppedAt := Some(i);
            FirstQualifyingAt(rs, i);
            return;
          }
          i := i + 1;
        }
        FirstQualifyingNone(rs);
      }
    }
  }

  /** A qualifying review with none before it is where the scan stops. */
  lemma FirstQualifyingAt(rs: seq<Review>, i: nat)
    requires i < |rs| && Qualifies(rs[i])
    requires forall k :: 0 <= k < i ==> !Qualifies(rs[k])
    ensures FirstQualifying(rs) == Some(i)
  {
  }

  /** With no qualifying review the scan finds nothing. */
  lemma FirstQualifyingNone(rs: seq<Review>)
    requires forall k :: 0 <= k < |rs| ==> !Qualifies(rs[k])
    ensures FirstQualifying(rs).None?
  {
  }
}
