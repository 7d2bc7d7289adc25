/** The rating upsert of backend/social/views.py over the `UserRating` table
    (backend/social/models.py). Rows are kept in primary-key order; a suggestion is
    identified by its (unique) `external_id`. */
module Social {
  import opened Wrappers
  import opened Catalog
  import opened PyInt

  /** One rating row. */
  datatype UserRating = UserRating(user: nat, suggestion: string, rating: int)

  /** Whether a row belongs to the (user, suggestion) pair. */
  predicate Matches(row: UserRating, user: nat, suggestion: string)
  {
    row.user == user && row.suggestion == suggestion
  }

  /** The index of the first row of the pair: `filter(...)[0]`. */
  function FirstMatch(rows: seq<UserRating>, user: nat, suggestion: string): (r: Option<nat>)
    ensures r.Some? ==> r.value < |rows| && Matches(rows[r.value], user, suggestion)
    ensures r.Some? ==> forall k :: 0 <= k < r.value ==> !Matches(rows[k], user, suggestion)
    ensures r.None? ==> forall k :: 0 <= k < |rows| ==> !Matches(rows[k], user, suggestion)
  {
    if rows == [] then None
    else if Matches(rows[0], user, suggestion) then Some(0)
    else match FirstMatch(rows[1..], user, suggestion)
      case None => None
      case Some(i) => Some(i + 1)
  }

  /** The rating the pair's first row holds, if the pair has a row. */
  function RatingOf(rows: seq<UserRating>, user: nat, suggestion: string): Option<int>
  {
    match FirstMatch(rows, user, suggestion)
    case None => None
    case Some(i) => Some(rows[i].rating)
  }

  /** The table after rating: the pair's first row gets the new rating in place, or one
      new row is appended when the pair has none. */
  function Upsert(rows: seq<UserRating>, user: nat, suggestion: string, rating: int): seq<UserRating>
  {
    match FirstMatch(rows, user, suggestion)
    case Some(i) => rows[i := rows[i].(rating := rating)]
    case None => rows + [UserRating(user, suggestion, rating)]
  }

  /** Rating adds at most one row, and only when the pair had none; rows of other users
      or other suggestions are never touched, nor are later duplicate rows of the pair,
      and afterwards the pair reads back the new rating. */
  lemma UpsertMeaning(rows: seq<UserRating>, user: nat, suggestion: string, rating: int)
    ensures var u := Upsert(rows, user, suggestion, rating);
      && |u| == |rows| + (if RatingOf(rows, user, suggestion).None? then 1 else 0)
      && (forall k :: 0 <= k < |rows| && !Matches(rows[k], user, suggestion) ==> u[k] == rows[k])
      && (forall k :: 0 <= k < |rows| && FirstMatch(rows, user, suggestion) != Some(k) ==> u[k] == rows[k])
      && (forall k :: 0 <= k < |rows| ==> u[k].user == rows[k].user && u[k].suggestion == rows[k].suggestion)
      && RatingOf(u, user, suggestion) == Some(rating)
  {
    var u := Upsert(rows, user, suggestion, rating);
    match FirstMatch(rows, user, suggestion)
    case Some(i) =>
      FirstMatchSame(rows, u, user, suggestion);
    case None =>
      FirstMatchAppend(rows, UserRating(user, suggestion, rating), user, suggestion);
  }

  /** Two tables with the same (user, suggestion) columns have the same first match. */
  lemma {:induction false} FirstMatchSame(rows: seq<UserRating>, u: seq<UserRating>, user: nat, suggestion: string)
    requires |u| == |rows|
    requires forall k :: 0 <= k < |rows| ==> Matches(u[k], user, suggestion) == Matches(rows[k], user, suggestion)
    ensures FirstMatch(u, user, suggestion) == FirstMatch(rows, user, suggestion)
  {
    if rows != [] {
      FirstMatchSame(rows[1..], u[1..], user, suggestion);
    }
  }

  /** Appending a row of the pair to a table without one makes it the first match. */
  lemma {:induction false} FirstMatchAppend(rows: seq<UserRating>, row: UserRating, user: nat, suggestion: string)
    requires FirstMatch(rows, user, suggestion).None? && Matches(row, user, suggestion)
    ensures FirstMatch(rows + [row], user, suggestion) == Some(|rows|)
  {
    if rows != [] {
      assert (rows + [row])[1..] == rows[1..] + [row];
      FirstMatchAppend(rows[1..], row, user, suggestion);
    }
  }

  /** Ratings of another pair read back as before. */
  lemma UpsertOtherPairs(rows: seq<UserRating>, user: nat, suggestion: string, rating: int, user2: nat, suggestion2: string)
    requires user2 != user || suggestion2 != suggestion
    ensures RatingOf(Upsert(rows, user, suggestion, rating), user2, suggestion2) == RatingOf(rows, user2, suggestion2)
  {
    var u := Upsert(rows, user, suggestion, rating);
    match FirstMatch(rows, user, suggestion)
    case Some(i) =>
      FirstMatchSame(rows, u, user2, suggestion2);
    case None =>
      FirstMatchAppendOther(rows, UserRating(user, suggestion, rating), user2, suggestion2);
  }

  /** Appending a row of another pair leaves the first match where it was. */
  lemma {:induction false} FirstMatchAppendOther(rows: seq<UserRating>, row: UserRating, user: nat, suggestion: string)
    requires !Matches(row, user, suggestion)
    ensures FirstMatch(rows + [row], user, suggestion) == FirstMatch(rows, user, suggestion)
  {
    if rows != [] {
      assert (rows + [row])[1..] == rows[1..] + [row];
      FirstMatchAppendOther(rows[1..], row, user, suggestion);
    }
  }

  /** At most one row per (user, suggestion) pair. */
  predicate UniquePairs(rows: seq<UserRating>)
  {
    forall i, j :: 0 <= i < j < |rows| ==> !Matches(rows[j], rows[i].user, rows[i].suggestion)
  }

  /** Rating keeps the table at one row per pair. */
  lemma UpsertUniquePairs(rows: seq<UserRating>, user: nat, suggestion: string, rating: int)
    requires UniquePairs(rows)
    ensures UniquePairs(Upsert(rows, user, suggestion, rating))
  {
  }

  /** `MinValueValidator(1)` and `MaxValueValidator(5)` of the `rating` column. */
  predicate InRatingRange(n: int)
  {
    1 <= n <= 5
  }

  /** Every stored rating is a valid one. */
  predicate AllInRange(rows: seq<UserRating>)
  {
    forall k :: 0 <= k < |rows| ==> InRatingRange(rows[k].rating)
  }

  /** The view's reply: `{"status": "success"}` (200) or `{"status": "failure"}` (400). */
  datatype RateReply = RateSuccess | RateFailure
  {
    function Status(): string
    {
      if RateSuccess? then "success" else "failure"
    }

    function HttpStatus(): int
    {
      if RateSuccess? then 200 else 400
    }
  }

  /** The view as written: any exception (a rating that `int()` rejects or that is
      missing, an unknown id) becomes the failure reply, and the parsed rating is stored
      without a range check, since `save()` does not run field validators. */
  function PostAsWritten(rows: seq<UserRating>, catalog: seq<Suggestion>, user: nat,
                         externalId: Option<string>, ratingText: Option<string>): (RateReply, seq<UserRating>)
  {
    if ratingText.None? || ParseInt(ratingText.value).None? then (RateFailure, rows)
    else if externalId.None? || externalId.value !in ExternalIds(catalog) then (RateFailure, rows)
    else (RateSuccess, Upsert(rows, user, externalId.value, ParseInt(ratingText.value).value))
  }

  /** As written, a rating of -1 is stored and answered with success. */
  lemma AsWrittenStoresOutOfRange()
    ensures var s := Suggestion("x", "n", [], "", "", "", 0, []);
      PostAsWritten([], [s], 1, Some("x"), Some("-1")) == (RateSuccess, [UserRating(1, "x", -1)])
  {
    var s := Suggestion("x", "n", [], "", "", "", 0, []);
    ParseIntOfString(-1);
    assert DecimalDigits(1) == "1";
    assert IntToString(-1) == "-1";
    assert ParseInt("-1") == Some(-1);
    assert ExternalIds([s]) == ["x"];
    assert Upsert([], 1, "x", -1) == [UserRating(1, "x", -1)];
  }

  /** The view as intended: a rating outside 1..5 is the failure reply as well. */
  function Post(rows: seq<UserRating>, catalog: seq<Suggestion>, user: nat,
                externalId: Option<string>, ratingText: Option<string>): (RateReply, seq<UserRating>)
  {
    var r := PostAsWritten(rows, catalog, user, externalId, ratingText);
    if r.0.RateSuccess? && !InRatingRange(ParseInt(ratingText.value).value) then (RateFailure, rows)
    else r
  }

  /** A failed call writes nothing; a call succeeds exactly when the rating parses to a
      value in 1..5 and the id names a catalog row, and then it upserts that rating. */
  lemma PostMeaning(rows: seq<UserRating>, catalog: seq<Suggestion>, user: nat,
                    externalId: Option<string>, ratingText: Option<string>)
    ensures var r := Post(rows, catalog, user, externalId, ratingText);
      && (r.0.RateFailure? ==> r.1 == rows)
      && (r.0.RateSuccess? <==>
           ratingText.Some? && ParseInt(ratingText.value).Some? && InRatingRange(ParseInt(ratingText.value).value)
           && externalId.Some? && externalId.value in ExternalIds(catalog))
      && (r.0.RateSuccess? ==> r.1 == Upsert(rows, user, externalId.value, ParseInt(ratingText.value).value))
  {
  }

  /** The intended view keeps every stored rating in 1..5 and one row per pair. */
  lemma PostKeepsTableValid(rows: seq<UserRating>, catalog: seq<Suggestion>, user: nat,
                            externalId: Option<string>, ratingText: Option<string>)
    requires AllInRange(rows) && UniquePairs(rows)
    ensures AllInRange(Post(rows, catalog, user, externalId, ratingText).1)
    ensures UniquePairs(Post(rows, catalog, user, externalId, ratingText).1)
  {
    var r := Post(rows, catalog, user, externalId, ratingText);
    if r.0.RateSuccess? {
      UpsertUniquePairs(rows, user, externalId.value, ParseInt(ratingText.value).value);
    }
  }

  /** The intended view rejects the -1 rating and writes nothing. */
  lemma PostRejectsOutOfRange()
    ensures var s := Suggestion("x", "n", [], "", "", "", 0, []);
      Post([], [s], 1, Some("x"), Some("-1")) == (RateFailure, [])
  {
    AsWrittenStoresOutOfRange();
    ParseIntOfString(-1);
    assert IntToString(-1) == "-1";
  }

  /** The `UserRating` table. */
  class RatingTable {
    var rows: seq<UserRating>

    constructor()
      ensures rows == []
    {
      rows := [];
    }

    /** `UpdateOrModifySuggestionRating.post` with the intended range check, run for
        `user` against the catalog rows. */
    method Rate(user: nat, externalId: Option<string>, ratingText: Option<string>, catalog: seq<Suggestion>)
      returns (reply: RateReply)
      modifies this
      ensures (reply, rows) == Post(old(rows), catalog, user, externalId, ratingText)
    {
      if ratingText.None? {
        return RateFailure;
      }
      var parsed := ParseInt(ratingText.value);
      if parsed.None? {
        return RateFailure;
      }
      var rating := parsed.value;
      if externalId.None? || externalId.value !in ExternalIds(catalog) {
        return RateFailure;
      }
      if !InRatingRange(rating) {
        return RateFailure;
      }
      var suggestion := externalId.value;
      var existing := FirstMatch(rows, user, suggestion);
      if existing.Some? {
        var i := existing.value;
        rows := rows[i := rows[i].(rating := rating)];
      } else {
        rows := rows + [UserRating(user, suggestion, rating)];
      }
      reply := RateSuccess;
    }
  }
}
