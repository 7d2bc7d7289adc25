/** The activity-classification response schema
    (backend/suggestions/management/commands/reco_schema.py): three closed vocabularies
    and the shape a strict structured-output reply must have. */
module RecoSchema {
  import opened Wrappers
  import opened Json

  /** The ten values of `interest_area`. */
  datatype InterestArea =
    | StemInnovation | ArtsDesign | SportsFitness | CommunityService | LeadershipGovernance
    | CultureLanguage | BusinessEntrepreneurship | AcademicResearch | LifestyleWellness
    | GamingTechnology

  /** The nine values of `activity_type`. */
  datatype ActivityType =
    | Club | Competition | Workshop | SeminarTalk | VolunteerProject
    | ExhibitionPerformance | HackathonChallenge | CampProgram | OnlineActivity

  /** The ten values of a `skill_focus` item. */
  datatype SkillFocus =
    | Leadership | Creativity | Collaboration | ProblemSolving | CriticalThinking
    | Communication | TechnicalSkills | PhysicalSkills | Innovation | ArtisticExpression

  function InterestAreaLabel(a: InterestArea): string
  {
    match a
    case StemInnovation => "STEM & Innovation"
    case ArtsDesign => "Arts & Design"
    case SportsFitness => "Sports & Fitness"
    case CommunityService => "Community & Service"
    case LeadershipGovernance => "Leadership & Governance"
    case CultureLanguage => "Culture & Language"
    case BusinessEntrepreneurship => "Business & Entrepreneurship"
    case AcademicResearch => "Academic & Research"
    case LifestyleWellness => "Lifestyle & Wellness"
    case GamingTechnology => "Gaming & Technology"
  }

  function ActivityTypeLabel(a: ActivityType): string
  {
    match a
    case Club => "Club"
    case Competition => "Competition"
    case Workshop => "Workshop"
    case SeminarTalk => "Seminar / Talk"
    case VolunteerProject => "Volunteer Project"
    case ExhibitionPerformance => "Exhibition / Performance"
    case HackathonChallenge => "Hackathon / Challenge"
    case CampProgram => "Camp / Program"
    case OnlineActivity => "Online Activity"
  }

  function SkillFocusLabel(a: SkillFocus): string
  {
    match a
    case Leadership => "Leadership"
    case Creativity => "Creativity"
    case Collaboration => "Collaboration"
    case ProblemSolving => "Problem Solving"
    case CriticalThinking => "Critical Thinking"
    case Communication => "Communication"
    case TechnicalSkills => "Technical Skills"
    case PhysicalSkills => "Physical Skills"
    case Innovation => "Innovation"
    case ArtisticExpression => "Artistic Expression"
  }

  /** The `interest_area` value a string names, if it is one of the enum strings. */
  function ParseInterestArea(s: string): (r: Option<InterestArea>)
    ensures r.Some? ==> InterestAreaLabel(r.value) == s
  {
    if s == "STEM & Innovation" then Some(StemInnovation)
    else if s == "Arts & Design" then Some(ArtsDesign)
    else if s == "Sports & Fitness" then Some(SportsFitness)
    else if s == "Community & Service" then Some(CommunityService)
    else if s == "Leadership & Governance" then Some(LeadershipGovernance)
    else if s == "Culture & Language" then Some(CultureLanguage)
    else if s == "Business & Entrepreneurship" then Some(BusinessEntrepreneurship)
    else if s == "Academic & Research" then Some(AcademicResearch)
    else if s == "Lifestyle & Wellness" then Some(LifestyleWellness)
    else if s == "Gaming & Technology" then Some(GamingTechnology)
    else None
  }

  /** The `activity_type` value a string names, if it is one of the enum strings. */
  function ParseActivityType(s: string): (r: Option<ActivityType>)
    ensures r.Some? ==> ActivityTypeLabel(r.value) == s
  {
    if s == "Club" then Some(Club)
    else if s == "Competition" then Some(Competition)
    else if s == "Workshop" then Some(Workshop)
    else if s == "Seminar / Talk" then Some(SeminarTalk)
    else if s == "Volunteer Project" then Some(VolunteerProject)
    else if s == "Exhibition / Performance" then Some(ExhibitionPerformance)
    else if s == "Hackathon / Challenge" then Some(HackathonChallenge)
    else if s == "Camp / Program" then Some(CampProgram)
    else if s == "Online Activity" then Some(OnlineActivity)
    else None
  }

  /** The `skill_focus` value a string names, if it is one of the enum strings. */
  function ParseSkillFocus(s: string): (r: Option<SkillFocus>)
    ensures r.Some? ==> SkillFocusLabel(r.value) == s
  {
    if s == "Leadership" then Some(Leadership)
    else if s == "Creativity" then Some(Creativity)
    else if s == "Collaboration" then Some(Collaboration)
    else if s == "Problem Solving" then Some(ProblemSolving)
    else if s == "Critical Thinking" then Some(CriticalThinking)
    else if s == "Communication" then Some(Communication)
    else if s == "Technical Skills" then Some(TechnicalSkills)
    else if s == "Physical Skills" then Some(PhysicalSkills)
    else if s == "Innovation" then Some(Innovation)
    else if s == "Artistic Expression" then Some(ArtisticExpression)
    else None
  }

  /** Every `interest_area` string is recognised as its value. */
  lemma InterestAreaRoundTrip(a: InterestArea)
    ensures ParseInterestArea(InterestAreaLabel(a)) == Some(a)
  {
    match a
    case StemInnovation =>
    case ArtsDesign =>
    case SportsFitness =>
    case CommunityService =>
    case LeadershipGovernance =>
    case CultureLanguage =>
    case BusinessEntrepreneurship =>
    case AcademicResearch =>
    case LifestyleWellness =>
    case GamingTechnology =>
  }

  /** Every `activity_type` string is recognised as its value. */
  lemma ActivityTypeRoundTrip(t: ActivityType)
    ensures ParseActivityType(ActivityTypeLabel(t)) == Some(t)
  {
    match t
    case Club =>
    case Competition =>
    case Workshop =>
    case SeminarTalk =>
    case VolunteerProject =>
    case ExhibitionPerformance =>
    case HackathonChallenge =>
    case CampProgram =>
    case OnlineActivity =>
  }

  /** Every `skill_focus` string is recognised as its value. */
  lemma SkillFocusRoundTrip(k: SkillFocus)
    ensures ParseSkillFocus(SkillFocusLabel(k)) == Some(k)
  {
    match k
    case Leadership =>
    case Creativity =>
    case Collaboration =>
    case ProblemSolving =>
    case CriticalThinking =>
    case Communication =>
    case TechnicalSkills =>
    case PhysicalSkills =>
    case Innovation =>
    case ArtisticExpression =>
  }

  /** Every enum value's string is recognised as that value, so the labels are distinct. */
  lemma LabelsRoundTrip(a: InterestArea, t: ActivityType, k: SkillFocus)
    ensures ParseInterestArea(InterestAreaLabel(a)) == Some(a)
    ensures ParseActivityType(ActivityTypeLabel(t)) == Some(t)
    ensures ParseSkillFocus(SkillFocusLabel(k)) == Some(k)
  {
    InterestAreaRoundTrip(a);
    ActivityTypeRoundTrip(t);
    SkillFocusRoundTrip(k);
  }

  /** Names of the three required properties of `classification`. */
  const ClassificationKeys: set<string> := {"interest_area", "activity_type", "skill_focus"}

  /** A `skill_focus` item: a string from its enum. */
  predicate ValidSkillItem(j: Json)
  {
    j.JStr? && ParseSkillFocus(j.s).Some?
  }

  /** A reply the schema accepts: the top level has exactly the key `classification`;
      that object has exactly the three required keys (`additionalProperties: false`);
      `interest_area` and `activity_type` are strings from their enums; `skill_focus`
      is an array of at least one (`minItems: 1`) enum string. */
  predicate ValidClassification(reply: Json)
  {
    && reply.JObj? && reply.fields.Keys == {"classification"}
    && var c := reply.fields["classification"];
    && c.JObj? && c.fields.Keys == ClassificationKeys
    && c.fields["interest_area"].JStr? && ParseInterestArea(c.fields["interest_area"].s).Some?
    && c.fields["activity_type"].JStr? && ParseActivityType(c.fields["activity_type"].s).Some?
    && c.fields["skill_focus"].JArr? && |c.fields["skill_focus"].items| >= 1
    && (forall k :: 0 <= k < |c.fields["skill_focus"].items| ==> ValidSkillItem(c.fields["skill_focus"].items[k]))
  }

  /** A classification as typed data. */
  datatype Classification = Classification(interest: InterestArea, activity: ActivityType, skills: seq<SkillFocus>)

  /** The reply object that carries a classification. */
  function ToJson(c: Classification): Json
  {
    JObj(map["classification" := JObj(map[
      "interest_area" := JStr(InterestAreaLabel(c.interest)),
      "activity_type" := JStr(ActivityTypeLabel(c.activity)),
      "skill_focus" := JArr(seq(|c.skills|, k requires 0 <= k < |c.skills| => JStr(SkillFocusLabel(c.skills[k]))))])])
  }

  /** The skill values a list of valid items names. */
  function SkillsOf(items: seq<Json>): (r: seq<SkillFocus>)
    requires forall k :: 0 <= k < |items| ==> ValidSkillItem(items[k])
    ensures |r| == |items|
    ensures forall k :: 0 <= k < |items| ==> items[k] == JStr(SkillFocusLabel(r[k]))
  {
    if items == [] then []
    else
      assert ValidSkillItem(items[0]);
      [ParseSkillFocus(items[0].s).value] + SkillsOf(items[1..])
  }

  /** The typed classification of a valid reply, `None` for any reply the schema rejects. */
  function FromJson(reply: Json): (r: Option<Classification>)
    ensures r.Some? <==> ValidClassification(reply)
  {
    if !ValidClassification(reply) then None
    else
      var c := reply.fields["classification"].fields;
      Some(Classification(
        ParseInterestArea(c["interest_area"].s).value,
        ParseActivityType(c["activity_type"].s).value,
        SkillsOf(c["skill_focus"].items)))
  }

  /** Every classification with at least one skill encodes to a valid reply that decodes
      back to it, and every valid reply is the encoding of its decoding. */
  lemma ClassificationRoundTrip(c: Classification, reply: Json)
    ensures |c.skills| >= 1 ==> FromJson(ToJson(c)) == Some(c)
    ensures ValidClassification(reply) ==> ToJson(FromJson(reply).value) == reply
  {
    LabelsRoundTrip(c.interest, c.activity, Leadership);
    var j := ToJson(c);
    var items := j.fields["classification"].fields["skill_focus"].items;
    forall k | 0 <= k < |items|
      ensures ValidSkillItem(items[k])
    {
      LabelsRoundTrip(c.interest, c.activity, c.skills[k]);
    }
    if |c.skills| >= 1 {
      var skills := SkillsOf(items);
      forall k | 0 <= k < |skills|
        ensures skills[k] == c.skills[k]
      {
        LabelsRoundTrip(c.interest, c.activity, c.skills[k]);
        LabelsRoundTrip(c.interest, c.activity, skills[k]);
      }
      assert skills == c.skills;
    }
    if ValidClassification(reply) {
      var d := FromJson(reply).value;
      var inner := reply.fields["classification"];
      var e := ToJson(d).fields["classification"];
      assert e.fields["skill_focus"] == inner.fields["skill_focus"];
      assert e.fields.Keys == inner.fields.Keys;
      assert e == inner;
      assert ToJson(d).fields.Keys == reply.fields.Keys;
    }
  }
}
