/**
 * A judge turns the text generator's evaluation of the debate into a vote.
 * The reply is expected to hold a JSON object; the JSON decoder is a
 * parameter (a decoder that fails is None), and a reply without a
 * decodable object is read by a keyword heuristic instead.
 */
module Judge {
  import opened Wrappers
  import opened State
  import opened Text

  /** A decoded JSON value; numbers are exact. */
  datatype Json =
    | JNull
    | JBool(b: bool)
    | JNum(n: real)
    | JStr(s: string)
    | JArr(items: seq<Json>)
    | JObj(fields: map<string, Json>)

  /**
   * `json.loads` applied to a candidate block. A candidate always starts
   * with `{` and ends with `}`, so a successful decode is an object.
   */
  type Decoder = string -> Option<map<string, Json>>

  /** `d.get(key, default)`. */
  function Get(m: map<string, Json>, key: string, default: Json): Json {
    if key in m then m[key] else default
  }

  /**
   * `re.search(r'\{.*\}', content, re.DOTALL)`: the leftmost match starts
   * at the first `{` and, the star being greedy, ends at the last `}`.
   */
  function JsonBlock(content: string): (r: Option<string>)
    ensures r.None? <==> !exists i, j | 0 <= i < j < |content| :: content[i] == '{' && content[j] == '}'
    ensures r.Some? ==> exists i, j | 0 <= i < j < |content| ::
      && r.value == content[i..j + 1]
      && content[i] == '{' && '{' !in content[..i]
      && content[j] == '}' && '}' !in content[j + 1..]
  {
    match IndexOf(content, '{')
    case None => None
    case Some(i) =>
      match LastIndexOf(content, '}')
      case None => None
      case Some(j) =>
        if i < j then Some(content[i..j + 1])
        else
          assert forall a, b | 0 <= a < b < |content| && content[a] == '{' :: content[b] != '}' by {
            forall a, b | 0 <= a < b < |content| && content[a] == '{'
              ensures content[b] != '}'
            {
              if b > j {
                assert content[j + 1..][b - j - 1] == content[b];
              }
            }
          }
          None
  }

  /** The block runs from the first `{` to the last `}` whenever the first comes before the last. */
  lemma JsonBlockAt(content: string, i: nat, j: nat)
    requires i < j < |content|
    requires content[i] == '{' && '{' !in content[..i]
    requires content[j] == '}' && '}' !in content[j + 1..]
    ensures JsonBlock(content) == Some(content[i..j + 1])
  {
    FirstOccurrence(content, '{', i);
    LastOccurrence(content, '}', j);
  }

  /** The first hundred characters of the reply name the first speaker. */
  predicate MentionsAgentA(content: string) {
    Contains(Take(content, 100), "Agent A")
  }

  /** `_parse_evaluation_fallback`: the evaluation read from a reply without usable JSON. */
  function FallbackEvaluation(content: string): (ev: map<string, Json>)
    ensures ev.Keys == {"winner", "confidence", "reasoning", "criteria_scores"}
    ensures ev["winner"] == JStr(if MentionsAgentA(content) then "Agent A" else "Agent B")
    ensures ev["confidence"] == JNum(-1.0) && ev["reasoning"] == JStr(content)
    ensures ev["criteria_scores"] == JObj(map[])
  {
    map[
      "winner" := JStr(if MentionsAgentA(content) then "Agent A" else "Agent B"),
      "confidence" := JNum(-1.0),
      "reasoning" := JStr(content),
      "criteria_scores" := JObj(map[])]
  }

  /**
   * The `try`/`except` of `evaluate_debate`: the decoded block, or the
   * fallback when there is no block or it does not decode.
   */
  function Evaluation(content: string, decode: Decoder): (ev: map<string, Json>)
    ensures JsonBlock(content).Some? && decode(JsonBlock(content).value).Some? ==> Some(ev) == decode(JsonBlock(content).value)
    ensures JsonBlock(content).None? || decode(JsonBlock(content).value).None? ==> ev == FallbackEvaluation(content)
  {
    match JsonBlock(content)
    case None => FallbackEvaluation(content)
    case Some(block) =>
      match decode(block)
      case None => FallbackEvaluation(content)
      case Some(ev) => ev
  }

  /** `scores.get(side, 0)`, which must be a number to be compared. */
  function ScoreField(scores: map<string, Json>, side: string): Option<real> {
    match Get(scores, side, JNum(0.0))
    case JNum(x) => Some(x)
    case _ => None
  }

  /**
   * One criterion of the aggregation loop: both scores (missing ones are 0)
   * and the side that won it, agent_a only when strictly ahead.
   */
  function ScoreOf(raw: Json): (r: Option<CriterionScore>)
    ensures r.Some? <==> raw.JObj? && ScoreField(raw.fields, "agent_a").Some? && ScoreField(raw.fields, "agent_b").Some?
    ensures r.Some? ==> (r.value.winner == AgentA <==> r.value.agentA > r.value.agentB)
  {
    match raw
    case JObj(scores) =>
      (match (ScoreField(scores, "agent_a"), ScoreField(scores, "agent_b"))
       case (Some(a), Some(b)) => Some(CriterionScore(a, b, if a > b then AgentA else AgentB))
       case _ => None)
    case _ => None
  }

  /** The aggregated criteria, or None when some criterion is not a map of numbers. */
  function ScoredCriteria(raw: map<string, Json>): Option<map<string, CriterionScore>> {
    if forall k | k in raw :: ScoreOf(raw[k]).Some? then
      Some(map k | k in raw :: ScoreOf(raw[k]).value)
    else
      None
  }

  /** The aggregation loop of `evaluate_debate`, one criterion at a time. */
  method ScoreCriteria(raw: map<string, Json>) returns (r: Option<map<string, CriterionScore>>)
    ensures r == ScoredCriteria(raw)
  {
    var scored: map<string, CriterionScore> := map[];
    var todo := raw.Keys;
    while todo != {}
      invariant todo <= raw.Keys
      invariant scored.Keys == raw.Keys - todo
      invariant forall k | k in scored :: ScoreOf(raw[k]) == Some(scored[k])
      decreases |todo|
    {
      var k :| k in todo;
      match ScoreOf(raw[k])
      case None =>
        return None;
      case Some(c) =>
        scored := scored[k := c];
      todo := todo - {k};
    }
    assert scored == map k | k in raw :: ScoreOf(raw[k]).value;
    return Some(scored);
  }

  /** What the scores of one criterion mean: copied, missing as 0, ties to agent_b. */
  lemma ScoreOfMeaning(scores: map<string, Json>, a: real, b: real)
    requires Get(scores, "agent_a", JNum(0.0)) == JNum(a) && Get(scores, "agent_b", JNum(0.0)) == JNum(b)
    ensures ScoreOf(JObj(scores)) == Some(CriterionScore(a, b, if a > b then AgentA else AgentB))
    ensures a == b ==> ScoreOf(JObj(scores)).value.winner == AgentB
    ensures "agent_a" !in scores && "agent_b" !in scores ==> ScoreOf(JObj(scores)) == Some(CriterionScore(0.0, 0.0, AgentB))
  {
  }

  /** The criteria keep their keys, and each one is aggregated on its own. */
  lemma ScoredCriteriaKeys(raw: map<string, Json>)
    requires ScoredCriteria(raw).Some?
    ensures ScoredCriteria(raw).value.Keys == raw.Keys
    ensures forall k | k in raw :: Some(ScoredCriteria(raw).value[k]) == ScoreOf(raw[k])
  {
  }

  /** `evaluation.get("criteria_scores", {})`, which must be a map to be iterated. */
  function CriteriaField(ev: map<string, Json>): Option<map<string, Json>> {
    match Get(ev, "criteria_scores", JObj(map[]))
    case JObj(raw) => Some(raw)
    case _ => None
  }

  /** The vote's winner, checked against the two names. */
  function WinnerField(ev: map<string, Json>): Option<Participant> {
    match Get(ev, "winner", JStr("Agent A"))
    case JStr(w) => ParticipantFromName(w)
    case _ => None
  }

  function ConfidenceField(ev: map<string, Json>): Option<real> {
    match Get(ev, "confidence", JNum(-2.0))
    case JNum(x) => Some(x)
    case _ => None
  }

  function ReasoningField(ev: map<string, Json>): Option<string> {
    match Get(ev, "reasoning", JStr(""))
    case JStr(t) => Some(t)
    case _ => None
  }

  /**
   * The vote built from an evaluation: criteria first (a criterion that is
   * not a map of numbers aborts), then the fields with their defaults,
   * which the vote's types validate.
   */
  function VoteOf(judgeId: string, ev: map<string, Json>): (r: Result<JudgeVote, Error>)
    ensures r.Ok? ==> r.value.judgeId == judgeId
    ensures r.Err? ==> r.error == MalformedCriteria(judgeId) || r.error == InvalidVote(judgeId)
  {
    match CriteriaField(ev)
    case None => Err(MalformedCriteria(judgeId))
    case Some(raw) =>
      match ScoredCriteria(raw)
      case None => Err(MalformedCriteria(judgeId))
      case Some(criteria) =>
        match (WinnerField(ev), ConfidenceField(ev), ReasoningField(ev))
        case (Some(w), Some(c), Some(t)) => Ok(JudgeVote(judgeId, w, c, t, criteria))
        case _ => Err(InvalidVote(judgeId))
  }

  /** The vote for a judge's reply. */
  function Verdict(judgeId: string, content: string, decode: Decoder): (r: Result<JudgeVote, Error>)
    ensures r.Ok? ==> r.value.judgeId == judgeId
    ensures JsonBlock(content).None? || decode(JsonBlock(content).value).None? ==> r.Ok?
  {
    var ev := Evaluation(content, decode);
    assert CriteriaField(FallbackEvaluation(content)) == Some(map[]);
    assert ScoredCriteria(map[]) == Some(map[]);
    VoteOf(judgeId, ev)
  }

  /** The reply a judge gets for the transcript of `s`. */
  function JudgeReply(judgeId: string, s: DebateState, generate: Generator): Option<string> {
    generate(judgeId, Join(TranscriptParts(s), "\n"))
  }

  /** A judge's outcome on `s`: its vote, or the error that aborts the debate. */
  function JudgeVerdict(judgeId: string, s: DebateState, generate: Generator, decode: Decoder): (r: Result<JudgeVote, Error>)
    ensures r.Ok? ==> r.value.judgeId == judgeId
    ensures r.Err? ==> r.error in {GenerationFailed(judgeId), MalformedCriteria(judgeId), InvalidVote(judgeId)}
  {
    match JudgeReply(judgeId, s, generate)
    case None => Err(GenerationFailed(judgeId))
    case Some(content) => Verdict(judgeId, content, decode)
  }

  /**
   * `evaluate_debate`: the judge sends the transcript to the text generator
   * and turns the reply into a vote.
   */
  method EvaluateDebate(judgeId: string, s: DebateState, generate: Generator, decode: Decoder) returns (r: Result<JudgeVote, Error>)
    ensures r == JudgeVerdict(judgeId, s, generate, decode)
  {
    var transcript := PrepareTranscript(s);
    var reply := generate(judgeId, transcript);
    if reply.None? {
      return Err(GenerationFailed(judgeId));
    }
    var content := reply.value;
    var ev := Evaluation(content, decode);
    var raw := CriteriaField(ev);
    if raw.None? {
      return Err(MalformedCriteria(judgeId));
    }
    var criteria := ScoreCriteria(raw.value);
    if criteria.None? {
      return Err(MalformedCriteria(judgeId));
    }
    var w, c, t := WinnerField(ev), ConfidenceField(ev), ReasoningField(ev);
    if w.None? || c.None? || t.None? {
      return Err(InvalidVote(judgeId));
    }
    r := Ok(JudgeVote(judgeId, w.value, c.value, t.value, criteria.value));
  }

  /**
   * A reply without a decodable JSON object always yields a vote: for
   * Agent A exactly when "Agent A" lies within its first 100 characters,
   * with confidence -1, the whole reply as reasoning and no criteria.
   */
  lemma FallbackVerdict(judgeId: string, content: string, decode: Decoder)
    requires JsonBlock(content).None? || decode(JsonBlock(content).value).None?
    ensures Verdict(judgeId, content, decode)
      == Ok(JudgeVote(judgeId, if MentionsAgentA(content) then AgentA else AgentB, -1.0, content, map[]))
  {
    var ev := FallbackEvaluation(content);
    assert CriteriaField(ev) == Some(map[]);
    assert ScoredCriteria(map[]) == Some(map[]);
  }

  /** Without usable JSON, a reply with no `A` in its first hundred characters is a vote for Agent B. */
  lemma FallbackWithoutA(judgeId: string, content: string, decode: Decoder)
    requires JsonBlock(content).None? || decode(JsonBlock(content).value).None?
    requires 'A' !in Take(content, 100)
    ensures Verdict(judgeId, content, decode).Ok? && Verdict(judgeId, content, decode).value.winner == AgentB
  {
    FallbackVerdict(judgeId, content, decode);
    NotContainsWithoutFirst(Take(content, 100), "Agent A");
  }

  /** A decoded object is the evaluation; the heuristic is not consulted. */
  lemma DecodedVerdict(judgeId: string, content: string, decode: Decoder, ev: map<string, Json>)
    requires JsonBlock(content).Some? && decode(JsonBlock(content).value) == Some(ev)
    ensures Verdict(judgeId, content, decode) == VoteOf(judgeId, ev)
  {
  }

  /**
   * Fields the evaluation leaves out take their defaults: winner Agent A,
   * confidence -2, empty reasoning and no criteria.
   */
  lemma VoteDefaults(judgeId: string, ev: map<string, Json>)
    requires VoteOf(judgeId, ev).Ok?
    ensures "winner" !in ev ==> VoteOf(judgeId, ev).value.winner == AgentA
    ensures "confidence" !in ev ==> VoteOf(judgeId, ev).value.confidence == -2.0
    ensures "reasoning" !in ev ==> VoteOf(judgeId, ev).value.reasoning == ""
    ensures "criteria_scores" !in ev ==> VoteOf(judgeId, ev).value.criteriaScores == map[]
  {
    if "criteria_scores" !in ev {
      assert ScoredCriteria(map[]) == Some(map[]);
    }
  }

  /** An empty object is a vote for Agent A with the "not supplied" confidence. */
  lemma EmptyObjectVerdict(judgeId: string)
    ensures VoteOf(judgeId, map[]) == Ok(JudgeVote(judgeId, AgentA, -2.0, "", map[]))
  {
    assert ScoredCriteria(map[]) == Some(map[]);
  }

  /** The JSON a judge is asked to write for a criterion. */
  function CriterionJson(c: CriterionScore): Json {
    JObj(map["agent_a" := JNum(c.agentA), "agent_b" := JNum(c.agentB)])
  }

  /** The JSON a judge is asked to write for a vote. */
  function VoteJson(v: JudgeVote): map<string, Json> {
    map[
      "reasoning" := JStr(v.reasoning),
      "winner" := JStr(ParticipantName(v.winner)),
      "confidence" := JNum(v.confidence),
      "criteria_scores" := JObj(CriteriaJson(v.criteriaScores))]
  }

  /** Every criterion's recorded winner agrees with its scores. */
  predicate ConsistentCriteria(criteria: map<string, CriterionScore>) {
    forall k | k in criteria :: (criteria[k].winner == AgentA <==> criteria[k].agentA > criteria[k].agentB)
  }

  /**
   * Reading back a vote written in the requested format gives the same
   * vote, provided its criterion winners agree with the scores. Any other
   * fields the object carries besides the requested ones are ignored.
   */
  lemma VoteRoundTrip(v: JudgeVote, extra: map<string, Json>)
    requires ConsistentCriteria(v.criteriaScores)
    ensures VoteOf(v.judgeId, extra + VoteJson(v)) == Ok(v)
  {
    var ev := extra + VoteJson(v);
    VoteJsonFields(v, extra);
    CriteriaRoundTrip(v.criteriaScores);
    assert CriteriaField(ev) == Some(CriteriaJson(v.criteriaScores));
    assert WinnerField(ev) == Some(v.winner) by {
      assert ParticipantFromName(ParticipantName(v.winner)) == Some(v.winner);
    }
    assert ConfidenceField(ev) == Some(v.confidence);
    assert ReasoningField(ev) == Some(v.reasoning);
  }

  /** The requested fields of a vote's JSON win over any others the object carries. */
  lemma VoteJsonFields(v: JudgeVote, extra: map<string, Json>)
    ensures var ev := extra + VoteJson(v);
      && Get(ev, "reasoning", JStr("")) == JStr(v.reasoning)
      && Get(ev, "winner", JStr("Agent A")) == JStr(ParticipantName(v.winner))
      && Get(ev, "confidence", JNum(-2.0)) == JNum(v.confidence)
      && Get(ev, "criteria_scores", JObj(map[])) == JObj(CriteriaJson(v.criteriaScores))
  {
  }

  function CriteriaJson(criteria: map<string, CriterionScore>): map<string, Json> {
    map k | k in criteria :: CriterionJson(criteria[k])
  }

  lemma CriteriaRoundTrip(criteria: map<string, CriterionScore>)
    requires ConsistentCriteria(criteria)
    ensures ScoredCriteria(CriteriaJson(criteria)) == Some(criteria)
  {
    var raw := CriteriaJson(criteria);
    forall k | k in raw
      ensures ScoreOf(raw[k]) == Some(criteria[k])
    {
      var c := criteria[k];
      ScoreOfMeaning(CriterionJson(c).fields, c.agentA, c.agentB);
    }
    assert (map k | k in raw :: ScoreOf(raw[k]).value) == criteria;
  }

  /** The header lines of `_prepare_transcript`. */
  function TranscriptHeader(s: DebateState): seq<string> {
    [ "DEBATE TOPIC: " + s.topic,
      "AGENT A POSITION: " + Take(s.agentAPersona, 200) + "...",
      "AGENT B POSITION: " + Take(s.agentBPersona, 200) + "...",
      "\nDEBATE TRANSCRIPT:\n" ]
  }

  function TranscriptEntry(m: Message): string {
    "Turn " + IntToString(m.turn) + " - " + m.agent + " (" + KindLabel(m.kind) + "):\n" + m.content + "\n"
  }

  /** One entry per message, in order. */
  function TranscriptEntries(ms: seq<Message>): (entries: seq<string>)
    ensures |entries| == |ms|
  {
    seq(|ms|, i requires 0 <= i < |ms| => TranscriptEntry(ms[i]))
  }

  lemma TranscriptEntriesStep(ms: seq<Message>, i: nat)
    requires i < |ms|
    ensures TranscriptEntries(ms[..i + 1]) == TranscriptEntries(ms[..i]) + [TranscriptEntry(ms[i])]
  {
    var front, whole := TranscriptEntries(ms[..i]), TranscriptEntries(ms[..i + 1]);
    var last := [TranscriptEntry(ms[i])];
    forall k | 0 <= k < i + 1
      ensures whole[k] == (front + last)[k]
    {
      if k < i {
        assert ms[..i + 1][k] == ms[..i][k];
      }
    }
  }

  function TranscriptParts(s: DebateState): seq<string> {
    TranscriptHeader(s) + TranscriptEntries(s.messages)
  }

  /** `_prepare_transcript`: the transcript a judge is shown. */
  method PrepareTranscript(s: DebateState) returns (transcript: string)
    ensures transcript == Join(TranscriptParts(s), "\n")
  {
    var parts := TranscriptHeader(s);
    for i := 0 to |s.messages|
      invariant parts == TranscriptHeader(s) + TranscriptEntries(s.messages[..i])
    {
      TranscriptEntriesStep(s.messages, i);
      parts := parts + [TranscriptEntry(s.messages[i])];
    }
    assert s.messages[..|s.messages|] == s.messages;
    transcript := Join(parts, "\n");
  }

  /**
   * The transcript lists the topic, both positions cut to their first 200
   * characters and marked "...", the transcript heading, then every message
   * once, in the order of the debate.
   */
  lemma TranscriptShape(s: DebateState)
    ensures |TranscriptParts(s)| == 4 + |s.messages|
    ensures TranscriptParts(s)[0] == "DEBATE TOPIC: " + s.topic
    ensures TranscriptParts(s)[1] == "AGENT A POSITION: " + s.agentAPersona[..if |s.agentAPersona| <= 200 then |s.agentAPersona| else 200] + "..."
    ensures TranscriptParts(s)[2] == "AGENT B POSITION: " + s.agentBPersona[..if |s.agentBPersona| <= 200 then |s.agentBPersona| else 200] + "..."
    ensures TranscriptParts(s)[3] == "\nDEBATE TRANSCRIPT:\n"
    ensures forall i | 0 <= i < |s.messages| :: TranscriptParts(s)[4 + i] == TranscriptEntry(s.messages[i])
  {
  }

  /**
   * The vote as the declared record type would accept it: its criteria
   * field holds one number per criterion, so any aggregated criterion (a
   * map of scores and a winner) fails validation.
   */
  function VoteAsDeclared(judgeId: string, ev: map<string, Json>): (r: Result<JudgeVote, Error>)
    ensures r.Ok? ==> r == VoteOf(judgeId, ev) && r.value.criteriaScores == map[]
  {
    match VoteOf(judgeId, ev)
    case Ok(v) => if v.criteriaScores == map[] then Ok(v) else Err(InvalidVote(judgeId))
    case Err(e) => Err(e)
  }

  /** With the declared type, a reply in the requested format with any criterion aborts the debate. */
  lemma RequestedFormatRejectedAsDeclared(v: JudgeVote, extra: map<string, Json>)
    requires ConsistentCriteria(v.criteriaScores) && v.criteriaScores != map[]
    ensures VoteOf(v.judgeId, extra + VoteJson(v)) == Ok(v)
    ensures VoteAsDeclared(v.judgeId, extra + VoteJson(v)) == Err(InvalidVote(v.judgeId))
  {
    VoteRoundTrip(v, extra);
  }
}
