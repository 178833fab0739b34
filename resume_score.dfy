/** The score records: a plain `Score`, a `ScoreExplained`, and the `ResumeScoreConsolidated`
    that pairs an AI-judgement score with an ATS score under an id and a display name. */
module ScoreModels {
  import opened Common
  import opened Text

  /** `Score | ScoreExplained`: both carry the required number `score`; the explained form
      also requires its `explanation`. Scores are numbers carried through unchanged. */
  datatype AnyScore = Score(score: real) | ScoreExplained(score: real, explanation: string)

  predicate IsLowerHex(c: char) {
    IsDigit(c) || ('a' <= c <= 'f')
  }

  /** The string form of a version-4 UUID: 8-4-4-4-12 lower-case hex digits, version digit `4`,
      variant digit one of `8`, `9`, `a`, `b`. */
  predicate IsUuid4Text(s: string) {
    && |s| == 36
    && (forall k :: 0 <= k < 36 ==>
          if k == 8 || k == 13 || k == 18 || k == 23 then s[k] == '-' else IsLowerHex(s[k]))
    && s[14] == '4'
    && s[19] in {'8', '9', 'a', 'b'}
  }

  type Uuid4Text = s: string | IsUuid4Text(s) witness "00000000-0000-4000-8000-000000000000"

  /** The two fresh UUIDs the default factories draw when a record is built, in field order:
      first for `id`, then for `name`. */
  datatype FreshUuids = FreshUuids(forId: Uuid4Text, forName: Uuid4Text)

  datatype ResumeScoreConsolidated = ResumeScoreConsolidated(
    id: string,
    name: string,
    aiScore: AnyScore,
    atsScore: AnyScore)

  const AnonymousPrefix := "Anonymous+"

  /** The default `name`: `"Anonymous+"` and the first four characters of a fresh UUID. */
  function DefaultName(u: Uuid4Text): (r: string)
    ensures |r| == 14
    ensures r[..10] == AnonymousPrefix
    ensures r[10..] == u[..4]
    ensures forall k :: 10 <= k < 14 ==> IsLowerHex(r[k])
  {
    AnonymousPrefix + u[..4]
  }

  /** A record built with defaults for `id` and `name`: the id is the UUID text itself and the
      name is the anonymous placeholder. */
  function NewConsolidated(ai: AnyScore, ats: AnyScore, uuids: FreshUuids): (r: ResumeScoreConsolidated)
    ensures r.aiScore == ai && r.atsScore == ats
    ensures r.id == uuids.forId && r.name == DefaultName(uuids.forName)
    ensures IsUuid4Text(r.id)
    ensures |r.name| == 14 && r.name[..10] == AnonymousPrefix
  {
    ResumeScoreConsolidated(uuids.forId, DefaultName(uuids.forName), ai, ats)
  }

  /** What a caller does after scoring: overwrite `id` and `name`. The scores are untouched. */
  function WithIdentity(r: ResumeScoreConsolidated, id: string, name: string): (r': ResumeScoreConsolidated)
    ensures r'.id == id && r'.name == name
    ensures r'.aiScore == r.aiScore && r'.atsScore == r.atsScore
  {
    r.(id := id, name := name)
  }

  /** The two score fields, each known by its field name and by its alias. */
  datatype ScoreField = AiScoreField | AtsScoreField {
    function FieldName(): string {
      match this
      case AiScoreField => "ai_score"
      case AtsScoreField => "ats_score"
    }
    function Alias(): string {
      match this
      case AiScoreField => "aiScore"
      case AtsScoreField => "atsScore"
    }
  }

  /** The value given for a field, looked up by alias first and then by field name. */
  function FieldValue(input: map<string, AnyScore>, f: ScoreField): (r: Option<AnyScore>)
    ensures r.Some? <==> f.Alias() in input || f.FieldName() in input
    ensures f.Alias() in input ==> r == Some(input[f.Alias()])
    ensures f.Alias() !in input && f.FieldName() in input ==> r == Some(input[f.FieldName()])
  {
    if f.Alias() in input then Some(input[f.Alias()])
    else if f.FieldName() in input then Some(input[f.FieldName()])
    else None
  }

  /** Validation of a record from named input fields: both score fields are required, and
      `id` and `name` take their defaults. The error names the aliases of the missing fields. */
  function ConsolidatedFromFields(input: map<string, AnyScore>, uuids: FreshUuids): (r: Result<ResumeScoreConsolidated>)
    ensures r.Ok? <==> FieldValue(input, AiScoreField).Some? && FieldValue(input, AtsScoreField).Some?
    ensures r.Ok? ==> r.value == NewConsolidated(FieldValue(input, AiScoreField).value, FieldValue(input, AtsScoreField).value, uuids)
  {
    match (FieldValue(input, AiScoreField), FieldValue(input, AtsScoreField))
    case (Some(ai), Some(ats)) => Ok(NewConsolidated(ai, ats, uuids))
    case (None, Some(_)) => Err(ValidationError("aiScore"))
    case (Some(_), None) => Err(ValidationError("atsScore"))
    case (None, None) => Err(ValidationError("aiScore, atsScore"))
  }

  /** Populating by field name and populating by alias build the same record. */
  lemma PopulateByNameOrAlias(ai: AnyScore, ats: AnyScore, uuids: FreshUuids)
    ensures ConsolidatedFromFields(map["ai_score" := ai, "ats_score" := ats], uuids)
         == ConsolidatedFromFields(map["aiScore" := ai, "atsScore" := ats], uuids)
         == ConsolidatedFromFields(map["aiScore" := ai, "ats_score" := ats], uuids)
         == Ok(NewConsolidated(ai, ats, uuids))
  {
    var byName := map["ai_score" := ai, "ats_score" := ats];
    assert "aiScore" !in byName && "atsScore" !in byName;
  }
}
