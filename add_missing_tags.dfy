/** The tagging command (backend/suggestions/management/commands/add_missing_tags.py):
    each catalog row is classified by a language model and its tags are rebuilt from
    the reply. The model call is the parameter `complete`, from a row's name and
    description to the decoded reply, `None` when the reply is not valid JSON. */
module AddMissingTags {
  import opened Wrappers
  import opened Json
  import opened Catalog
  import opened RecoSchema

  /** `ensure_list`: a list as it is, a string as a one-element list, anything else as
      the empty list. */
  function EnsureList(a: Json): (r: seq<Json>)
    ensures a.JArr? ==> r == a.items
    ensures a.JStr? ==> r == [a]
    ensures !a.JArr? && !a.JStr? ==> r == []
  {
    match a
    case JArr(items) => items
    case JStr(_) => [a]
    case _ => []
  }

  /** Normalising a normalised list changes nothing. */
  lemma EnsureListIdempotent(a: Json)
    ensures EnsureList(JArr(EnsureList(a))) == EnsureList(a)
  {
  }

  /** Python `j[key]` on a decoded JSON value: `None` is the `KeyError` of a missing key
      or the `TypeError` of subscripting a non-object with a string. */
  function Lookup(j: Json, key: string): (r: Option<Json>)
    ensures r.Some? <==> j.JObj? && key in j.fields
    ensures r.Some? ==> r.value == j.fields[key]
  {
    if j.JObj? && key in j.fields then Some(j.fields[key]) else None
  }

  /** The tag list of a reply: interest area, then activity type, then the skills, each
      through `ensure_list`. `None` when a lookup raises. */
  function TagsOf(content: Json): (r: Option<seq<Json>>)
    ensures r.Some? <==>
      && Lookup(content, "classification").Some?
      && Lookup(content.fields["classification"], "interest_area").Some?
      && Lookup(content.fields["classification"], "activity_type").Some?
      && Lookup(content.fields["classification"], "skill_focus").Some?
  {
    match Lookup(content, "classification")
    case None => None
    case Some(c) =>
      match (Lookup(c, "interest_area"), Lookup(c, "activity_type"), Lookup(c, "skill_focus"))
      case (Some(ia), Some(at), Some(sf)) => Some(EnsureList(ia) + EnsureList(at) + EnsureList(sf))
      case _ => None
  }

  /** The skill strings of a classification, in order. */
  function SkillTags(skills: seq<SkillFocus>): (r: seq<Json>)
    ensures |r| == |skills|
    ensures forall k :: 0 <= k < |skills| ==> r[k] == JStr(SkillFocusLabel(skills[k]))
  {
    seq(|skills|, k requires 0 <= k < |skills| => JStr(SkillFocusLabel(skills[k])))
  }

  /** The tags of a classification reply are its interest area, its activity type and its
      skills, in that order, so there are `2 + |skills|` of them. */
  lemma TagsOfClassification(c: Classification)
    ensures TagsOf(ToJson(c)) ==
      Some([JStr(InterestAreaLabel(c.interest)), JStr(ActivityTypeLabel(c.activity))] + SkillTags(c.skills))
    ensures |TagsOf(ToJson(c)).value| == 2 + |c.skills|
  {
    var inner := ToJson(c).fields["classification"];
    assert inner.fields["skill_focus"].items == SkillTags(c.skills);
    var ia := JStr(InterestAreaLabel(c.interest));
    var at := JStr(ActivityTypeLabel(c.activity));
    assert Lookup(inner, "interest_area") == Some(ia);
    assert Lookup(inner, "activity_type") == Some(at);
    assert Lookup(inner, "skill_focus") == Some(JArr(SkillTags(c.skills)));
    assert [ia] + [at] + SkillTags(c.skills) == [ia, at] + SkillTags(c.skills);
  }

  /** Every reply the schema accepts yields at least three tags: one interest area, one
      activity type and the (non-empty) skills, each a string of its vocabulary. */
  lemma ValidReplyTags(reply: Json)
    requires ValidClassification(reply)
    ensures TagsOf(reply).Some?
    ensures var tags := TagsOf(reply).value;
      var c := FromJson(reply).value;
      && |tags| == 2 + |c.skills| >= 3
      && tags[0] == JStr(InterestAreaLabel(c.interest))
      && tags[1] == JStr(ActivityTypeLabel(c.activity))
      && tags[2..] == SkillTags(c.skills)
  {
    var c := FromJson(reply).value;
    ClassificationRoundTrip(c, reply);
    TagsOfClassification(c);
  }

  /** One row after classification and `save()`: the same row with its tags replaced
      and, since `created_at` is an `auto_now` column, its timestamp set to the time
      `now` of the save; `None` when the reply is not JSON or lacks a key the command
      reads. */
  function Retag(s: Suggestion, complete: (string, string) -> Option<Json>, now: int): (r: Option<Suggestion>)
  {
    match complete(s.name, s.description)
    case None => None
    case Some(content) =>
      match TagsOf(content)
      case None => None
      case Some(tags) => Some(s.(tags := tags, createdAt := now))
  }

  /** The old tags and the old timestamp play no part: the tags are replaced wholesale,
      never merged, the timestamp becomes the save time, and every other field is
      kept. */
  lemma RetagReplacesTags(s: Suggestion, old1: seq<Json>, old2: seq<Json>, t1: int, t2: int,
                          complete: (string, string) -> Option<Json>, now: int)
    ensures Retag(s.(tags := old1, createdAt := t1), complete, now) == Retag(s.(tags := old2, createdAt := t2), complete, now)
    ensures Retag(s, complete, now).Some? ==>
      Retag(s, complete, now).value == s.(tags := TagsOf(complete(s.name, s.description).value).value, createdAt := now)
  {
  }

  /** The catalog rows in the order `SuggestionModel.objects.all()` yields them. */
  class SuggestionRows {
    var rows: seq<Suggestion>

    constructor(rows0: seq<Suggestion>)
      ensures rows == rows0
    {
      rows := rows0;
    }

    /** `Command.handle`: classify and save each row in turn; `clock(j)` is the time at
        which row `j` is saved. There is no transaction: when row `done` fails, the rows
        before it keep their new tags and it and the rows after it are untouched. */
    method AddMissingTags(complete: (string, string) -> Option<Json>, clock: nat -> int) returns (done: nat)
      modifies this
      ensures done <= |rows| == |old(rows)|
      ensures forall j :: 0 <= j < done ==>
        Retag(old(rows)[j], complete, clock(j)).Some? && rows[j] == Retag(old(rows)[j], complete, clock(j)).value
      ensures done < |rows| ==> Retag(old(rows)[done], complete, clock(done)).None?
      ensures rows[done..] == old(rows)[done..]
    {
      done := 0;
      while done < |rows|
        invariant done <= |rows| == |old(rows)|
        invariant forall j :: 0 <= j < done ==>
          Retag(old(rows)[j], complete, clock(j)).Some? && rows[j] == Retag(old(rows)[j], complete, clock(j)).value
        invariant rows[done..] == old(rows)[done..]
      {
        var updated := Retag(rows[done], complete, clock(done));
        if updated.None? {
          return;
        }
        rows := rows[done := updated.value];
        done := done + 1;
      }
    }
  }
}
