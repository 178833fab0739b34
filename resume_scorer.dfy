/** The scorer: the prompt it sends, how it reads a score out of the model's reply, the ATS
    score from the two embeddings, and the consolidated record. Every call to the language
    model goes through the `Gateway`; the floating-point steps it cannot see into are the
    `FloatOps` handed in with it. */
module ResumeScorer {
  import opened Common
  import opened Text
  import opened Llm
  import opened ScoreModels
  import Documents

  /** A scorer's configuration: the chat model and temperature it asks with. */
  datatype Scorer = Scorer(model: Model, temperature: real)

  /** `ResumeScorer()`: GPT-4o at temperature 0. */
  const DefaultScorer := Scorer(Gpt4o, 0.0)

  const SystemPrompt := "You are an expert very strict Recruiter."

  /** The floating-point operations the scorer relies on: Python's `float(text)` (`None` where
      it raises `ValueError`), `str(x)` of a float, and the cosine similarity of two
      embeddings times 100 rounded to two places. */
  datatype FloatOps = FloatOps(
    parse: string -> Option<real>,
    repr: real -> string,
    cosinePercent: (seq<real>, seq<real>) -> real)

  // ---------------------------------------------------------------------------------------
  // The scoring prompt

  const JdHeading := "Job Description:\n"
  const ResumeHeading := "\n\nResume:\n"
  const ScoreRequest := "\n\nPlease provide only a score between 1 and 100 that indicates how well the resume"

  /** The start of every prompt: the description and the résumé under their headings, and the
      start of the request for a score. */
  function BasePrompt(resumeText: string, jdText: string): string {
    JdHeading + jdText + ResumePart(resumeText)
  }

  function ResumePart(resumeText: string): string {
    ResumeHeading + resumeText + ScoreRequest
  }

  /** How the sentence of the prompt ends: with the skill to emphasise when one is given. */
  function SkillClause(skill: Option<string>): string {
    if Truthy(skill) then
      " matches the job description, with a particular emphasis on the skill \"" + skill.value + "\"."
    else " matches the job description."
  }

  const ExplainRequest := " Please explain the reason you deducted points."

  /** `_build_scoring_prompt`: the base sentence, the skill clause, and the request for an
      explanation when asked. */
  function BuildScoringPrompt(resumeText: string, jdText: string, explain: bool, skill: Option<string>): (r: string)
    ensures |r| == |BasePrompt(resumeText, jdText)| + |SkillClause(skill)| + (if explain then |ExplainRequest| else 0)
  {
    var constructed := BasePrompt(resumeText, jdText) + SkillClause(skill);
    if explain then constructed + ExplainRequest else constructed
  }

  /** The prompt is the base sentence, then the skill clause, then the explanation request. */
  lemma PromptParts(resumeText: string, jdText: string, explain: bool, skill: Option<string>)
    ensures var r := BuildScoringPrompt(resumeText, jdText, explain, skill);
            var b := BasePrompt(resumeText, jdText);
            |r| >= |b| && r[..|b|] == b && r[|b|..] == SkillClause(skill) + (if explain then ExplainRequest else "")
  {
    var b := BasePrompt(resumeText, jdText);
    var c := SkillClause(skill);
    var r := BuildScoringPrompt(resumeText, jdText, explain, skill);
    if explain {
      assert r == (b + c) + ExplainRequest;
      assert r == b + (c + ExplainRequest);
    } else {
      assert c + "" == c;
    }
  }

  /** The prompt opens with the job description, under its heading. */
  lemma PromptOpensWithDescription(resumeText: string, jdText: string, explain: bool, skill: Option<string>)
    ensures var r := BuildScoringPrompt(resumeText, jdText, explain, skill);
            |r| >= |JdHeading| + |jdText| && r[..|JdHeading|] == JdHeading
            && r[|JdHeading|..|JdHeading| + |jdText|] == jdText
  {
    PromptParts(resumeText, jdText, explain, skill);
    var r := BuildScoringPrompt(resumeText, jdText, explain, skill);
    var b := BasePrompt(resumeText, jdText);
    SliceOfConcat(JdHeading, jdText, ResumePart(resumeText));
    PrefixOfPrefix(r, b, |JdHeading| + |jdText|);
  }

  lemma PrefixOfPrefix(r: string, b: string, n: nat)
    requires |r| >= |b| >= n && r[..|b|] == b
    ensures r[..n] == b[..n] && forall i, j :: 0 <= i <= j <= n ==> r[i..j] == b[i..j]
  {
    forall i, j | 0 <= i <= j <= n ensures r[i..j] == b[i..j] {
      forall k | 0 <= k < j - i ensures r[i..j][k] == b[i..j][k] {
        assert r[i + k] == r[..|b|][i + k];
      }
    }
  }

  lemma SliceOfConcat(x: string, y: string, z: string)
    ensures (x + y + z)[..|x|] == x && (x + y + z)[|x|..|x| + |y|] == y
  {
    assert (x + y + z)[|x|..|x| + |y|] == y by {
      assert forall k :: 0 <= k < |y| ==> (x + y + z)[|x|..|x| + |y|][k] == y[k];
    }
  }

  /** The prompt ends with the request for an explanation exactly when one is asked for. */
  lemma PromptAsksForExplanationIff(resumeText: string, jdText: string, explain: bool, skill: Option<string>)
    ensures var r := BuildScoringPrompt(resumeText, jdText, explain, skill);
            explain <==> |r| >= |ExplainRequest| && r[|r| - |ExplainRequest|..] == ExplainRequest
  {
    var r := BuildScoringPrompt(resumeText, jdText, explain, skill);
    var c := SkillClause(skill);
    var b := BasePrompt(resumeText, jdText);
    if explain {
      assert r == (b + c) + ExplainRequest;
      assert r[|r| - |ExplainRequest|..] == ExplainRequest;
    } else {
      assert r == b + c;
      // The clause ends with `"."` or with `description.`; the request ends with `points.`.
      assert c[|c| - 2] == '"' || c[|c| - 2] == 'n';
      assert r[|r| - 2] == c[|c| - 2];
      if |r| >= |ExplainRequest| {
        var tail := r[|r| - |ExplainRequest|..];
        assert tail[|ExplainRequest| - 2] == r[|r| - 2];
        assert ExplainRequest[|ExplainRequest| - 2] == 's';
        assert tail != ExplainRequest;
      }
    }
  }

  /** Asking for an explanation only appends the request for it. */
  lemma ExplainOnlyAppends(resumeText: string, jdText: string, skill: Option<string>)
    ensures BuildScoringPrompt(resumeText, jdText, true, skill)
         == BuildScoringPrompt(resumeText, jdText, false, skill) + ExplainRequest
  {
  }

  /** An empty skill is no skill. */
  lemma EmptySkillIsNoSkill(resumeText: string, jdText: string, explain: bool)
    ensures BuildScoringPrompt(resumeText, jdText, explain, Some(""))
         == BuildScoringPrompt(resumeText, jdText, explain, None)
  {
  }

  // ---------------------------------------------------------------------------------------
  // Reading a number out of a reply: re.search(r"(\d+(\.\d+)?)", text)

  /** The language of `\d+(\.\d+)?`: digits with at most one dot, which is neither first nor
      last. */
  predicate IsDecimal(t: string) {
    && |t| > 0 && IsDigit(t[0]) && IsDigit(t[|t| - 1])
    && (forall k :: 0 <= k < |t| ==> IsDigit(t[k]) || t[k] == '.')
    && (forall k, m :: 0 <= k < m < |t| && t[k] == '.' ==> t[m] != '.')
  }

  /** The position of the first digit of `s`. */
  function FirstDigit(s: string): (r: Option<nat>)
    ensures r.Some? ==> r.value < |s| && IsDigit(s[r.value])
    ensures r.Some? ==> forall i :: 0 <= i < r.value ==> !IsDigit(s[i])
    ensures r.None? ==> forall i :: 0 <= i < |s| ==> !IsDigit(s[i])
    decreases |s|
  {
    if s == [] then None
    else if IsDigit(s[0]) then Some(0)
    else
      match FirstDigit(s[1..])
      case None => None
      case Some(j) => Some(j + 1)
  }

  /** Where the run of digits starting at `i` ends. */
  function DigitRunEnd(s: string, i: nat): (j: nat)
    requires i <= |s|
    ensures i <= j <= |s|
    ensures forall k :: i <= k < j ==> IsDigit(s[k])
    ensures j < |s| ==> !IsDigit(s[j])
    decreases |s| - i
  {
    if i < |s| && IsDigit(s[i]) then DigitRunEnd(s, i + 1) else i
  }

  /** A match: `s[start..end]`. */
  datatype NumberMatch = NumberMatch(start: nat, end: nat)

  /** The search: at the first digit, the longest run of digits, extended by a dot and a
      second run of digits when a digit follows the dot. */
  function SearchNumber(s: string): (r: Option<NumberMatch>)
    ensures r.None? <==> forall i :: 0 <= i < |s| ==> !IsDigit(s[i])
    ensures r.Some? ==> r.value.start < r.value.end <= |s|
  {
    match FirstDigit(s)
    case None => None
    case Some(start) =>
      var e1 := DigitRunEnd(s, start);
      if e1 + 1 < |s| && s[e1] == '.' && IsDigit(s[e1 + 1]) then Some(NumberMatch(start, DigitRunEnd(s, e1 + 1)))
      else Some(NumberMatch(start, e1))
  }

  /** What the search finds is a match of the pattern; no match starts earlier, and none from
      the same start is longer. */
  lemma SearchNumberIsLeftmostLongest(s: string)
    requires SearchNumber(s).Some?
    ensures IsDecimal(s[SearchNumber(s).value.start..SearchNumber(s).value.end])
    ensures forall i, j :: 0 <= i < SearchNumber(s).value.start && i <= j <= |s| ==> !IsDecimal(s[i..j])
    ensures forall j :: SearchNumber(s).value.end < j <= |s| ==> !IsDecimal(s[SearchNumber(s).value.start..j])
  {
    var start := FirstDigit(s).value;
    var e1 := DigitRunEnd(s, start);
    var m := SearchNumber(s).value;
    assert m.start == start;
    var t := s[start..m.end];
    assert forall k :: 0 <= k < |t| ==> t[k] == s[start + k];
    if e1 + 1 < |s| && s[e1] == '.' && IsDigit(s[e1 + 1]) {
      var end := DigitRunEnd(s, e1 + 1);
      assert m.end == end;
      assert forall k :: 0 <= k < |t| && k != e1 - start ==> IsDigit(t[k]);
      forall j | end < j <= |s| ensures !IsDecimal(s[start..j]) {
        var u := s[start..j];
        assert u[e1 - start] == '.' && u[end - start] == s[end];
        assert !IsDigit(u[end - start]);
      }
    } else {
      assert m.end == e1;
      forall j | e1 < j <= |s| ensures !IsDecimal(s[start..j]) {
        var u := s[start..j];
        assert u[e1 - start] == s[e1] && !IsDigit(s[e1]);
        if s[e1] == '.' && j > e1 + 1 {
          assert u[e1 + 1 - start] == s[e1 + 1];
        }
      }
    }
    forall i, j | 0 <= i < start && i <= j <= |s| ensures !IsDecimal(s[i..j]) {
      if j > i {
        assert s[i..j][0] == s[i];
      }
    }
  }

  /** `float(m)` of a match, exactly: the integer part plus the fraction. */
  function DecimalValue(t: string): (r: real)
    requires IsDecimal(t)
    ensures r >= 0.0
  {
    match LastIndexOf(t, '.')
    case None =>
      assert AllDigits(t);
      DigitsValue(t) as real
    case Some(k) =>
      assert AllDigits(t[..k]);
      assert AllDigits(t[k + 1..]);
      (DigitsValue(t[..k]) as real) + (DigitsValue(t[k + 1..]) as real) / (Pow10(|t| - k - 1) as real)
  }

  /** What `\d+(?:\.\d+)?` matches as a whole: a run of digits, or two runs of digits
      around one dot. */
  lemma DecimalIsPattern(t: string)
    ensures IsDecimal(t) <==> (|t| > 0 && AllDigits(t))
                              || (exists k :: 0 < k < |t| - 1 && t[k] == '.' && AllDigits(t[..k]) && AllDigits(t[k + 1..]))
  {
    if IsDecimal(t) && !AllDigits(t) {
      var k := LastIndexOf(t, '.').value;
      assert 0 < k < |t| - 1 && t[k] == '.';
      assert forall i :: 0 <= i < k ==> t[..k][i] == t[i];
      assert AllDigits(t[..k]);
      var b := t[k + 1..];
      assert forall i :: 0 <= i < |b| ==> b[i] == t[k + 1 + i];
      assert AllDigits(b);
    }
    if exists k :: 0 < k < |t| - 1 && t[k] == '.' && AllDigits(t[..k]) && AllDigits(t[k + 1..]) {
      var k :| 0 < k < |t| - 1 && t[k] == '.' && AllDigits(t[..k]) && AllDigits(t[k + 1..]);
      DigitsAroundDot(t, k);
    }
  }

  /** Two runs of digits around a dot: the dot is the only one. */
  lemma DigitsAroundDot(t: string, k: nat)
    requires 0 < k < |t| - 1 && t[k] == '.' && AllDigits(t[..k]) && AllDigits(t[k + 1..])
    ensures IsDecimal(t)
    ensures forall i :: 0 <= i < |t| && i != k ==> IsDigit(t[i])
  {
    forall i | 0 <= i < |t| && i != k ensures IsDigit(t[i]) {
      if i < k {
        assert t[..k][i] == t[i];
      } else {
        assert t[k + 1..][i - k - 1] == t[i];
      }
    }
  }

  /** The value of digits written after other digits: the first run shifted by the
      length of the second. */
  lemma {:induction false} DigitsValueAppend(a: string, b: string)
    requires AllDigits(a) && AllDigits(b)
    ensures AllDigits(a + b)
    ensures DigitsValue(a + b) == DigitsValue(a) * Pow10(|b|) + DigitsValue(b)
    decreases |b|
  {
    AllDigitsAppend(a, b);
    if b == [] {
      assert a + b == a;
    } else {
      var b', d := b[..|b| - 1], b[|b| - 1];
      assert AllDigits(b');
      assert (a + b)[..|a + b| - 1] == a + b';
      DigitsValueAppend(a, b');
      assert DigitsValue(a + b) == 10 * DigitsValue(a + b') + DigitValue(d);
      ShiftByOneDigit(DigitsValue(a), Pow10(|b'|), DigitsValue(b'), DigitValue(d));
    }
  }

  lemma ShiftByOneDigit(x: nat, p: nat, v: nat, d: nat)
    ensures 10 * (x * p + v) + d == x * (10 * p) + (10 * v + d)
  {
  }

  lemma AllDigitsAppend(a: string, b: string)
    requires AllDigits(a) && AllDigits(b)
    ensures AllDigits(a + b)
  {
    forall k | 0 <= k < |a + b| ensures IsDigit((a + b)[k]) {
      if k >= |a| {
        assert (a + b)[k] == b[k - |a|];
      }
    }
  }

  /** A match with a dot is the integer all its digits spell, divided by ten once per digit
      after the dot. */
  lemma DecimalValueExact(t: string, k: nat)
    requires IsDecimal(t) && k < |t| && t[k] == '.'
    ensures AllDigits(t[..k] + t[k + 1..])
            && DecimalValue(t) == (DigitsValue(t[..k] + t[k + 1..]) as real) / (Pow10(|t| - k - 1) as real)
  {
    OnlyDot(t, k);
    DecimalValueSplit(t, k);
    JoinedDigitsValue(t[..k], t[k + 1..]);
  }

  /** Digits `a` and `b` read as `a.b`: the value of all of them over ten to the length of `b`. */
  lemma JoinedDigitsValue(a: string, b: string)
    requires AllDigits(a) && AllDigits(b)
    ensures AllDigits(a + b)
    ensures (DigitsValue(a) as real) + (DigitsValue(b) as real) / (Pow10(|b|) as real)
         == (DigitsValue(a + b) as real) / (Pow10(|b|) as real)
  {
    DigitsValueAppend(a, b);
    ShiftThenDivide(DigitsValue(a), DigitsValue(b), Pow10(|b|));
  }

  lemma DecimalValueSplit(t: string, k: nat)
    requires IsDecimal(t) && LastIndexOf(t, '.') == Some(k)
    ensures AllDigits(t[..k]) && AllDigits(t[k + 1..])
    ensures DecimalValue(t) == (DigitsValue(t[..k]) as real) + (DigitsValue(t[k + 1..]) as real) / (Pow10(|t| - k - 1) as real)
  {
  }

  /** The one dot of a decimal is the last one, and digits lie on either side of it. */
  lemma OnlyDot(t: string, k: nat)
    requires IsDecimal(t) && k < |t| && t[k] == '.'
    ensures LastIndexOf(t, '.') == Some(k)
    ensures AllDigits(t[..k]) && AllDigits(t[k + 1..])
  {
    assert LastIndexOf(t, '.') == Some(k);
    assert AllDigits(t[..k]);
    var b := t[k + 1..];
    assert forall i :: 0 <= i < |b| ==> b[i] == t[k + 1 + i];
  }

  lemma ShiftThenDivide(x: nat, y: nat, q: nat)
    requires q > 0
    ensures ((x * q + y) as real) / (q as real) == (x as real) + (y as real) / (q as real)
  {
    var p := q as real;
    assert (x * q) as real == (x as real) * p;
    assert ((x as real) + (y as real) / p) * p == (x as real) * p + (y as real);
  }

  /** A match without a dot is the integer its digits spell. */
  lemma DigitsOnlyIsWhole(t: string)
    requires |t| > 0 && AllDigits(t)
    ensures IsDecimal(t)
    ensures DecimalValue(t) == DigitsValue(t) as real
  {
    assert LastIndexOf(t, '.').None?;
  }

  const NoScoreMessage := "Could not parse a numerical score from the response: "

  /** `_parse_score_from_response`. With `explain` the reply is handed to structured extraction
      (the client's default model, the reply as the one user message); otherwise a reply that
      is a number as a whole is that number, else the first match of the pattern, else the
      reply is refused. */
  function ParseScoreFromResponse(response: string, explain: bool, gw: Gateway, ops: FloatOps): (r: Result<AnyScore>)
    ensures explain ==>
              var extracted := gw.extractExplained(ExtractRequest([UserMessage(response)], Gpt4oMini));
              && (extracted.Err? ==> r == Err(extracted.error))
              && (extracted.Ok? ==> r == Ok(ScoreExplained(extracted.value.0, extracted.value.1)))
    ensures !explain && ops.parse(response).Some? ==> r == Ok(Score(ops.parse(response).value))
    ensures !explain && ops.parse(response).None? && SearchNumber(response).Some?
            ==> var m := SearchNumber(response).value;
                IsDecimal(response[m.start..m.end]) && r == Ok(Score(DecimalValue(response[m.start..m.end])))
    ensures !explain && ops.parse(response).None? && (forall i :: 0 <= i < |response| ==> !IsDigit(response[i]))
            ==> r == Err(ValueError(NoScoreMessage + response))
    ensures !explain && r.Ok? ==> r.value.Score?
    ensures explain && r.Ok? ==> r.value.ScoreExplained?
  {
    if explain then
      var extracted :- gw.extractExplained(ExtractRequest([UserMessage(response)], Gpt4oMini));
      Ok(ScoreExplained(extracted.0, extracted.1))
    else
      match ops.parse(response)
      case Some(v) => Ok(Score(v))
      case None =>
        match SearchNumber(response)
        case Some(m) =>
          SearchNumberIsLeftmostLongest(response);
          Ok(Score(DecimalValue(response[m.start..m.end])))
        case None => Err(ValueError(NoScoreMessage + response))
  }

  /** An example reply: a label without digits, then the number and the rest. */
  const ExampleLabel := "Score: "
  const ExampleRest := "72.5 out of 100"
  const ExampleReply := ExampleLabel + ExampleRest

  /** Text without digits in front moves the first digit by its length. */
  lemma {:induction false} FirstDigitAfter(p: string, q: string)
    requires forall i :: 0 <= i < |p| ==> !IsDigit(p[i])
    ensures FirstDigit(q).None? ==> FirstDigit(p + q).None?
    ensures FirstDigit(q).Some? ==> FirstDigit(p + q) == Some(|p| + FirstDigit(q).value)
    decreases |p|
  {
    if p == [] {
      assert p + q == q;
    } else {
      assert (p + q)[0] == p[0];
      assert (p + q)[1..] == p[1..] + q;
      FirstDigitAfter(p[1..], q);
    }
  }

  /** Text in front moves the end of a digit run by its length. */
  lemma {:induction false} DigitRunEndAfter(p: string, q: string, i: nat)
    requires i <= |q|
    ensures DigitRunEnd(p + q, |p| + i) == |p| + DigitRunEnd(q, i)
    decreases |q| - i
  {
    if i < |q| {
      assert (p + q)[|p| + i] == q[i];
      if IsDigit(q[i]) {
        DigitRunEndAfter(p, q, i + 1);
      }
    }
  }

  lemma ExampleFirstDigit()
    ensures FirstDigit(ExampleReply) == Some(7)
  {
    var p := ExampleLabel;
    assert p[0] == 'S' && p[1] == 'c' && p[2] == 'o' && p[3] == 'r' && p[4] == 'e' && p[5] == ':' && p[6] == ' ';
    assert ExampleRest[0] == '7';
    FirstDigitAfter(p, ExampleRest);
  }

  lemma ExampleDigitRuns()
    ensures DigitRunEnd(ExampleReply, 7) == 9 && DigitRunEnd(ExampleReply, 10) == 11
  {
    var q := ExampleRest;
    assert q[0] == '7' && q[1] == '2' && q[2] == '.' && q[3] == '5' && q[4] == ' ';
    DigitRunEndAfter(ExampleLabel, q, 0);
    DigitRunEndAfter(ExampleLabel, q, 3);
  }

  /** In the example reply the search finds `72.5`. */
  lemma SearchExampleReply()
    ensures SearchNumber(ExampleReply) == Some(NumberMatch(7, 11))
  {
    ExampleFirstDigit();
    ExampleDigitRuns();
    var q := ExampleRest;
    assert q[2] == '.' && q[3] == '5';
    assert ExampleReply[9] == q[2] && ExampleReply[10] == q[3];
  }

  lemma ExampleMatchText()
    ensures ExampleReply[7..11] == "72.5"
  {
    var q := ExampleRest;
    assert ExampleReply[7..11] == q[..4];
    assert q[0] == '7' && q[1] == '2' && q[2] == '.' && q[3] == '5';
  }

  /** `float("72.5")` is 72.5. */
  lemma ExampleValue()
    ensures IsDecimal("72.5") && DecimalValue("72.5") == 72.5
  {
    var t := "72.5";
    assert IsDecimal(t) && t[2] == '.';
    OnlyDot(t, 2);
    DecimalValueSplit(t, 2);
    assert t[..2] == "72" && t[3..] == "5";
    assert Pow10(|t| - 2 - 1) == 10;
    assert DigitsValue("72") == 72 by {
      assert "72"[..1] == "7";
    }
    assert DigitsValue("5") == 5 by {
      assert "5"[..0] == "";
    }
  }

  /** "Score: 72.5 out of 100" gives 72.5. */
  lemma ParseScoreWithText(gw: Gateway, ops: FloatOps)
    requires ops.parse(ExampleReply) == None
    ensures ParseScoreFromResponse(ExampleReply, false, gw, ops) == Ok(Score(72.5))
  {
    SearchExampleReply();
    ExampleMatchText();
    ExampleValue();
  }

  /** A reply with no digit that is not a number fails, and the message ends with the reply. */
  lemma ParseScoreWithoutDigits(response: string, gw: Gateway, ops: FloatOps)
    requires ops.parse(response) == None
    requires forall i :: 0 <= i < |response| ==> !IsDigit(response[i])
    ensures ParseScoreFromResponse(response, false, gw, ops).Err?
    ensures var msg := ParseScoreFromResponse(response, false, gw, ops).error.message;
            |msg| >= |response| && msg[|msg| - |response|..] == response
  {
  }

  // ---------------------------------------------------------------------------------------
  // The two scores

  /** The chat request for a prompt: the system prompt, then the prompt, at the scorer's model
      and temperature. */
  function AiRequest(scorer: Scorer, prompt: string): (r: ChatRequest)
    ensures r.messages == [SystemMessage(SystemPrompt), UserMessage(prompt)]
    ensures r.model == scorer.model && r.temperature == Some(scorer.temperature)
  {
    ChatRequest([SystemMessage(SystemPrompt), UserMessage(prompt)], scorer.model, Some(scorer.temperature))
  }

  /** `generate_ai_score` with `normalize` off: a failure of the model or of parsing is passed
      on unchanged. */
  function GenerateAiScore(scorer: Scorer, resumeText: string, jdText: string, explain: bool, skill: Option<string>,
                           gw: Gateway, ops: FloatOps): (r: Result<AnyScore>)
    ensures var reply := gw.chat(AiRequest(scorer, BuildScoringPrompt(resumeText, jdText, explain, skill)));
            && (reply.Err? ==> r == Err(reply.error))
            && (reply.Ok? ==> r == ParseScoreFromResponse(reply.value, explain, gw, ops))
    ensures r.Ok? ==> (r.value.ScoreExplained? <==> explain)
  {
    var reply :- gw.chat(AiRequest(scorer, BuildScoringPrompt(resumeText, jdText, explain, skill)));
    ParseScoreFromResponse(reply, explain, gw, ops)
  }

  /** `generate_ats_score`: the embeddings of the résumé and of the description, their cosine
      as a percentage, explained as "ATS score is <value>" when asked. */
  function GenerateAtsScore(resumeText: string, jdText: string, explain: bool, gw: Gateway, ops: FloatOps): (r: Result<AnyScore>)
    ensures r.Ok? <==> gw.embed(resumeText, TextEmbed3Small).Ok? && gw.embed(jdText, TextEmbed3Small).Ok?
    ensures gw.embed(resumeText, TextEmbed3Small).Err? ==> r == Err(gw.embed(resumeText, TextEmbed3Small).error)
    ensures gw.embed(resumeText, TextEmbed3Small).Ok? && gw.embed(jdText, TextEmbed3Small).Err?
            ==> r == Err(gw.embed(jdText, TextEmbed3Small).error)
    ensures r.Ok? ==> r.value.score == ops.cosinePercent(gw.embed(resumeText, TextEmbed3Small).value,
                                                         gw.embed(jdText, TextEmbed3Small).value)
    ensures r.Ok? ==> (r.value.ScoreExplained? <==> explain)
    ensures r.Ok? && explain ==> r.value.explanation == "ATS score is " + ops.repr(r.value.score)
  {
    var resumeEmbedding :- gw.embed(resumeText, TextEmbed3Small);
    var jdEmbedding :- gw.embed(jdText, TextEmbed3Small);
    var atsScore := ops.cosinePercent(resumeEmbedding, jdEmbedding);
    if explain then Ok(ScoreExplained(atsScore, "ATS score is " + ops.repr(atsScore)))
    else Ok(Score(atsScore))
  }

  /** The end of `score_resume`: with `explain`, an ATS score that is not explained would be
      wrapped again, and building that wrapper from a score record fails validation. */
  function Consolidate(ai: AnyScore, ats: AnyScore, explain: bool, uuids: FreshUuids): (r: Result<ResumeScoreConsolidated>)
    ensures !(explain && ats.Score?) ==> r == Ok(NewConsolidated(ai, ats, uuids))
    ensures explain && ats.Score? ==> r.Err?
  {
    if explain && !ats.ScoreExplained? then Err(ValidationError("score"))
    else Ok(NewConsolidated(ai, ats, uuids))
  }

  /** `score_resume` on the two contents as their getters return them: the résumé's content is
      read first, then the description's; of the two scores a failure of the AI score is
      reported before one of the ATS score. */
  function ScoreContents(scorer: Scorer, resumeContent: Result<string>, jdContent: Result<string>,
                         skill: Option<string>, explain: bool, gw: Gateway, ops: FloatOps,
                         uuids: FreshUuids): (r: Result<ResumeScoreConsolidated>)
    ensures resumeContent.Err? ==> r == Err(resumeContent.error)
    ensures resumeContent.Ok? && jdContent.Err? ==> r == Err(jdContent.error)
    ensures r.Ok? <==> && resumeContent.Ok? && jdContent.Ok?
                       && GenerateAiScore(scorer, resumeContent.value, jdContent.value, explain, skill, gw, ops).Ok?
                       && GenerateAtsScore(resumeContent.value, jdContent.value, explain, gw, ops).Ok?
    ensures r.Ok? ==> && r.value.aiScore == GenerateAiScore(scorer, resumeContent.value, jdContent.value, explain, skill, gw, ops).value
                      && r.value.atsScore == GenerateAtsScore(resumeContent.value, jdContent.value, explain, gw, ops).value
    ensures r.Ok? ==> (r.value.aiScore.ScoreExplained? <==> explain) && (r.value.atsScore.ScoreExplained? <==> explain)
    ensures && resumeContent.Ok? && jdContent.Ok?
            && GenerateAiScore(scorer, resumeContent.value, jdContent.value, explain, skill, gw, ops).Err?
            ==> r == Err(GenerateAiScore(scorer, resumeContent.value, jdContent.value, explain, skill, gw, ops).error)
    ensures && resumeContent.Ok? && jdContent.Ok?
            && GenerateAiScore(scorer, resumeContent.value, jdContent.value, explain, skill, gw, ops).Ok?
            && GenerateAtsScore(resumeContent.value, jdContent.value, explain, gw, ops).Err?
            ==> r == Err(GenerateAtsScore(resumeContent.value, jdContent.value, explain, gw, ops).error)
  {
    var resumeText :- resumeContent;
    var jdText :- jdContent;
    var ai := GenerateAiScore(scorer, resumeText, jdText, explain, skill, gw, ops);
    var ats := GenerateAtsScore(resumeText, jdText, explain, gw, ops);
    if ai.Err? then Err(ai.error)
    else if ats.Err? then Err(ats.error)
    else Consolidate(ai.value, ats.value, explain, uuids)
  }

  /** `score_resume` on two documents: a document that is not loaded stops it before any
      request. */
  function ScoreResume(scorer: Scorer, resume: Documents.Document, jd: Documents.Document,
                       skill: Option<string>, explain: bool, gw: Gateway, ops: FloatOps,
                       uuids: FreshUuids): (r: Result<ResumeScoreConsolidated>)
    reads resume, jd
    ensures !resume.isLoaded
            ==> r == Err(ValueError(Documents.NotLoadedMessage(resume.kind)))
    ensures resume.Content().Ok? && !jd.isLoaded
            ==> r == Err(ValueError(Documents.NotLoadedMessage(jd.kind)))
    ensures r.Ok? ==> resume.isLoaded && jd.isLoaded
  {
    ScoreContents(scorer, resume.Content(), jd.Content(), skill, explain, gw, ops, uuids)
  }

  /** The ATS score `score_resume` receives is already of the right variant, so the re-wrap
      never happens and consolidation never fails. */
  lemma ConsolidationNeverRewraps(scorer: Scorer, resumeText: string, jdText: string, skill: Option<string>,
                                  explain: bool, gw: Gateway, ops: FloatOps, uuids: FreshUuids)
    requires GenerateAtsScore(resumeText, jdText, explain, gw, ops).Ok?
    ensures forall ai :: Consolidate(ai, GenerateAtsScore(resumeText, jdText, explain, gw, ops).value, explain, uuids)
                      == Ok(NewConsolidated(ai, GenerateAtsScore(resumeText, jdText, explain, gw, ops).value, uuids))
  {
  }
}
