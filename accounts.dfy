/** The profile views of backend/accounts/views.py: the saved-items bookmark toggle,
    its membership query, the saved-items listing and the onboarding-profile update.
    The views act for an authenticated user; `profile` is that user's `UserProfile`
    row, `null` when it does not exist. */
module Accounts {
  import opened Wrappers
  import opened Seqs
  import opened Json
  import opened Api
  import opened Catalog

  /** The per-user profile row (backend/accounts/models.py). The JSON columns hold the
      decoded JSON the client sent; `otherGoals` is `JNull` when unset. */
  class UserProfile {
    var name: string
    var email: string
    var googleSub: Option<string>
    var savedItems: seq<string>
    var basicInformation: Json
    var interests: Json
    var goals: Json
    var otherGoals: Json
    var finishedOnboarding: bool

    /** A new profile with the column defaults. */
    constructor(name0: string, email0: string, googleSub0: Option<string>)
      ensures name == name0 && email == email0 && googleSub == googleSub0
      ensures savedItems == [] && basicInformation == JObj(map[])
      ensures interests == JArr([]) && goals == JArr([]) && otherGoals == JNull
      ensures !finishedOnboarding
    {
      name := name0;
      email := email0;
      googleSub := googleSub0;
      savedItems := [];
      basicInformation := JObj(map[]);
      interests := JArr([]);
      goals := JArr([]);
      otherGoals := JNull;
      finishedOnboarding := false;
    }
  }

  /** `not external_id`: the id is missing, null or empty. */
  predicate MissingId(externalId: Option<string>)
  {
    externalId.None? || externalId.value == ""
  }

  /** `SaveItemView.post`: toggle the id in the saved list. The id is checked before
      the profile is read, and only `savedItems` is ever changed. */
  method SaveItem(profile: UserProfile?, externalId: Option<string>) returns (r: Result<string>)
    modifies profile
    ensures MissingId(externalId) ==> r == Failure(ValidationError("External ID is required"))
    ensures !MissingId(externalId) && profile == null ==> r == Failure(NotFound("User not found"))
    ensures !MissingId(externalId) && profile != null ==>
      r == Success(if externalId.value in old(profile.savedItems)
                   then "Item removed from saved items" else "Item added to saved items")
    ensures profile != null ==>
      profile.savedItems == if r.Success? then Toggle(old(profile.savedItems), externalId.value)
                            else old(profile.savedItems)
    ensures profile != null ==>
      && profile.name == old(profile.name) && profile.email == old(profile.email)
      && profile.googleSub == old(profile.googleSub)
      && profile.basicInformation == old(profile.basicInformation)
      && profile.interests == old(profile.interests) && profile.goals == old(profile.goals)
      && profile.otherGoals == old(profile.otherGoals)
      && profile.finishedOnboarding == old(profile.finishedOnboarding)
  {
    if MissingId(externalId) {
      return Failure(ValidationError("External ID is required"));
    }
    if profile == null {
      return Failure(NotFound("User not found"));
    }
    var id := externalId.value;
    if id in profile.savedItems {
      profile.savedItems := RemoveAll(profile.savedItems, id);
      r := Success("Item removed from saved items");
    } else {
      profile.savedItems := profile.savedItems + [id];
      r := Success("Item added to saved items");
    }
  }

  /** The body of a successful saved-status check. */
  datatype SavedStatus = SavedStatus(isSaved: bool, message: string)

  /** `CheckItemSavedView.post`: whether the id is in the saved list; nothing changes. */
  method CheckItemSaved(profile: UserProfile?, externalId: Option<string>) returns (r: Result<SavedStatus>)
    ensures MissingId(externalId) ==> r == Failure(ValidationError("External ID is required"))
    ensures !MissingId(externalId) && profile == null ==> r == Failure(NotFound("User not found"))
    ensures !MissingId(externalId) && profile != null ==> r.Success?
    ensures r.Success? ==>
      && (r.value.isSaved <==> externalId.value in profile.savedItems)
      && r.value.message == if r.value.isSaved then "Item is saved" else "Item is not saved"
  {
    if MissingId(externalId) {
      return Failure(ValidationError("External ID is required"));
    }
    if profile == null {
      return Failure(NotFound("User not found"));
    }
    if externalId.value in profile.savedItems {
      r := Success(SavedStatus(true, "Item is saved"));
    } else {
      r := Success(SavedStatus(false, "Item is not saved"));
    }
  }

  /** `SuggestionModel.objects.filter(external_id__in=saved)`: the catalog rows, in
      table order, whose id is saved. */
  function SavedRows(catalog: seq<Suggestion>, saved: seq<string>): (r: seq<Suggestion>)
    ensures |r| <= |catalog|
  {
    if catalog == [] then []
    else
      var n := |catalog| - 1;
      SavedRows(catalog[..n], saved) + (if catalog[n].externalId in saved then [catalog[n]] else [])
  }

  /** The listing holds exactly the catalog rows with a saved id, in table order; saved
      ids with no row contribute nothing. */
  lemma {:induction false} SavedRowsExactly(catalog: seq<Suggestion>, saved: seq<string>, x: Suggestion)
    ensures x in SavedRows(catalog, saved) <==> x in catalog && x.externalId in saved
  {
    if catalog != [] {
      var n := |catalog| - 1;
      SavedRowsExactly(catalog[..n], saved, x);
      assert catalog == catalog[..n] + [catalog[n]];
    }
  }

  /** The listing keeps the catalog's relative order. */
  lemma {:induction false} SavedRowsInOrder(catalog: seq<Suggestion>, saved: seq<string>)
    ensures IsSubsequence(SavedRows(catalog, saved), catalog)
  {
    if catalog != [] {
      var n := |catalog| - 1;
      var r0 := SavedRows(catalog[..n], saved);
      SavedRowsInOrder(catalog[..n], saved);
      assert catalog == catalog[..n] + [catalog[n]];
      SubsequenceExtend(r0, catalog[..n], catalog[n]);
      if catalog[n].externalId in saved {
        assert SavedRows(catalog, saved) == r0 + [catalog[n]];
      } else {
        assert SavedRows(catalog, saved) == r0;
      }
    }
  }

  /** With unique catalog ids, no row is listed twice, and the listed ids are exactly
      the saved ids that have a catalog row, however often they were saved. */
  lemma {:induction false} SavedRowsDistinct(catalog: seq<Suggestion>, saved: seq<string>)
    requires UniqueIds(catalog)
    ensures UniqueIds(SavedRows(catalog, saved))
    ensures forall id :: id in ExternalIds(SavedRows(catalog, saved)) <==> id in ExternalIds(catalog) && id in saved
  {
    if catalog != [] {
      var n := |catalog| - 1;
      var init := catalog[..n];
      assert ExternalIds(init) == ExternalIds(catalog)[..n];
      SavedRowsDistinct(init, saved);
      var r0 := SavedRows(init, saved);
      var last := catalog[n];
      assert ExternalIds(catalog) == ExternalIds(init) + [last.externalId];
      if last.externalId in saved {
        var r := SavedRows(catalog, saved);
        assert r == r0 + [last];
        assert ExternalIds(r) == ExternalIds(r0) + [last.externalId];
        forall k | 0 <= k < |r0|
          ensures r0[k].externalId != last.externalId
        {
          SavedRowsExactly(init, saved, r0[k]);
          var j :| 0 <= j < n && init[j] == r0[k];
          assert ExternalIds(catalog)[j] == r0[k].externalId;
        }
      } else {
        assert SavedRows(catalog, saved) == r0;
      }
    }
  }

  /** The listed ids as a set: the saved ids that have a catalog row. */
  lemma SavedRowsIds(catalog: seq<Suggestion>, saved: seq<string>)
    requires UniqueIds(catalog)
    ensures Elements(ExternalIds(SavedRows(catalog, saved))) == Elements(ExternalIds(catalog)) * Elements(saved)
    ensures |SavedRows(catalog, saved)| == |Elements(ExternalIds(catalog)) * Elements(saved)|
  {
    SavedRowsDistinct(catalog, saved);
    DistinctCount(ExternalIds(SavedRows(catalog, saved)));
  }

  /** One listed row: the serialized suggestion and the `is_saved` key the loop adds. */
  datatype SavedEntry = SavedEntry(row: Suggestion, isSaved: Option<bool>)

  /** The body of the saved-items listing. */
  datatype Listing = Listing(message: string, suggestions: seq<SavedEntry>)

  /** `SavedItemsView.post`: the saved rows, each marked `is_saved = true`; nothing
      changes. A missing profile raises a `ValidationError`, not the `NotFound` the other views raise. */
  method SavedItems(profile: UserProfile?, catalog: seq<Suggestion>) returns (r: Result<Listing>)
    ensures profile == null ==> r == Failure(ValidationError("User not found"))
    ensures profile != null ==> r.Success? && r.value.message == "Saved items retrieved successfully"
    ensures r.Success? ==>
      var rows := SavedRows(catalog, profile.savedItems);
      && |r.value.suggestions| == |rows|
      && forall k :: 0 <= k < |rows| ==> r.value.suggestions[k] == SavedEntry(rows[k], Some(true))
  {
    if profile == null {
      return Failure(ValidationError("User not found"));
    }
    var rows := SavedRows(catalog, profile.savedItems);
    var data := seq(|rows|, k requires 0 <= k < |rows| => SavedEntry(rows[k], None));
    for i := 0 to |data|
      invariant |data| == |rows|
      invariant forall k :: 0 <= k < i ==> data[k] == SavedEntry(rows[k], Some(true))
      invariant forall k :: i <= k < |data| ==> data[k] == SavedEntry(rows[k], None)
    {
      data := data[i := data[i].(isSaved := Some(true))];
    }
    r := Success(Listing("Saved items retrieved successfully", data));
  }

  /** `UpdateUserInformationView.post`. The three required values are checked in order,
      before the profile is read; a missing profile is an uncaught `DoesNotExist`. On
      success the four onboarding columns are stored as sent and onboarding is marked
      finished; the saved list and the identity columns are never touched. */
  method UpdateUserInformation(profile: UserProfile?, data: map<string, Json>) returns (r: Result<string>)
    modifies profile
    ensures !Truthy(Get(data, "basic_information")) ==>
      r == Failure(ValidationError("Basic information is required"))
    ensures Truthy(Get(data, "basic_information")) && !Truthy(Get(data, "interests")) ==>
      r == Failure(ValidationError("Interests are required"))
    ensures (Truthy(Get(data, "basic_information")) && Truthy(Get(data, "interests"))
      && !Truthy(Get(data, "goals"))) ==>
      r == Failure(ValidationError("Goals are required"))
    ensures (Truthy(Get(data, "basic_information")) && Truthy(Get(data, "interests"))
      && Truthy(Get(data, "goals"))) ==>
      r == if profile == null then Failure(DoesNotExist) else Success("User information updated successfully")
    ensures profile != null && r.Success? ==>
      && profile.basicInformation == Get(data, "basic_information")
      && profile.interests == Get(data, "interests")
      && profile.goals == Get(data, "goals")
      && profile.otherGoals == Get(data, "other_goals")
      && profile.finishedOnboarding
    ensures profile != null && r.Failure? ==>
      && profile.basicInformation == old(profile.basicInformation)
      && profile.interests == old(profile.interests) && profile.goals == old(profile.goals)
      && profile.otherGoals == old(profile.otherGoals)
      && profile.finishedOnboarding == old(profile.finishedOnboarding)
    ensures profile != null ==>
      && profile.savedItems == old(profile.savedItems)
      && profile.name == old(profile.name) && profile.email == old(profile.email)
      && profile.googleSub == old(profile.googleSub)
  {
    var basicInformation := Get(data, "basic_information");
    var interests := Get(data, "interests");
    var goals := Get(data, "goals");
    var otherGoals := Get(data, "other_goals");
    if !Truthy(basicInformation) {
      return Failure(ValidationError("Basic information is required"));
    }
    if !Truthy(interests) {
      return Failure(ValidationError("Interests are required"));
    }
    if !Truthy(goals) {
      return Failure(ValidationError("Goals are required"));
    }
    if profile == null {
      return Failure(DoesNotExist);
    }
    profile.basicInformation := basicInformation;
    profile.interests := interests;
    profile.goals := goals;
    profile.otherGoals := otherGoals;
    profile.finishedOnboarding := true;
    r := Success("User information updated successfully");
  }
}
