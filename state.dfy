/**
 * The records shared by the debate: messages, judge votes, the final
 * metrics and the debate state itself. The restricted (`Literal`) string
 * fields of the source become datatypes; the validation that pydantic
 * performs when such a field is filled from a string is KindFromLabel and
 * ParticipantFromName, which fail on any other string.
 */
module State {
  import opened Wrappers

  /** The two debaters, written "Agent A" and "Agent B" in the source. */
  datatype Participant = AgentA | AgentB

  function ParticipantName(p: Participant): string {
    match p
    case AgentA => "Agent A"
    case AgentB => "Agent B"
  }

  /** Validation of a `Literal["Agent A", "Agent B"]` field. */
  function ParticipantFromName(name: string): (r: Option<Participant>)
    ensures forall p: Participant :: r == Some(p) <==> ParticipantName(p) == name
  {
    if name == "Agent A" then Some(AgentA)
    else if name == "Agent B" then Some(AgentB)
    else None
  }

  /** The five message kinds a debater may tag its reply with. */
  datatype Kind = Argument | Rebuttal | Question | Answer | Conclusion

  function KindLabel(k: Kind): string {
    match k
    case Argument => "argument"
    case Rebuttal => "rebuttal"
    case Question => "question"
    case Answer => "answer"
    case Conclusion => "conclusion"
  }

  /** Validation of the `Literal` message-kind field: exactly the five labels pass. */
  function KindFromLabel(name: string): (r: Option<Kind>)
    ensures forall k: Kind :: r == Some(k) <==> KindLabel(k) == name
  {
    if name == "argument" then Some(Argument)
    else if name == "rebuttal" then Some(Rebuttal)
    else if name == "question" then Some(Question)
    else if name == "answer" then Some(Answer)
    else if name == "conclusion" then Some(Conclusion)
    else None
  }

  /** One turn's message; the creation timestamp is not modelled. */
  datatype Message = Message(agent: string, content: string, turn: int, kind: Kind)

  /**
   * One criterion as a judge's vote records it: both scores and the side
   * that won it (written "agent_a" / "agent_b" in the source).
   */
  datatype CriterionScore = CriterionScore(agentA: real, agentB: real, winner: Participant)

  datatype JudgeVote = JudgeVote(
    judgeId: string,
    winner: Participant,
    confidence: real,
    reasoning: string,
    criteriaScores: map<string, CriterionScore>)

  /** Mean scores of one criterion over the votes that mention it. */
  datatype CriterionAverage = CriterionAverage(agentAAvg: real, agentBAvg: real)

  /** The metrics dictionary built when the debate is decided. */
  datatype Metrics = Metrics(
    totalTurns: int,
    totalMessages: nat,
    messageTypes: map<string, map<Kind, nat>>,
    averageWordCounts: map<string, real>,
    totalWordCounts: map<string, nat>,
    rhetoricalQuestions: map<string, nat>,
    judgeAgreement: real,
    confidenceScores: seq<real>,
    criteriaAnalysis: map<string, CriterionAverage>)

  /** The debate state; `metrics` is None while the source holds an empty dict. */
  datatype DebateState = DebateState(
    topic: string,
    agentAPersona: string,
    agentBPersona: string,
    messages: seq<Message>,
    currentTurn: int,
    currentSpeaker: Participant,
    debateComplete: bool,
    judgeVotes: seq<JudgeVote>,
    finalWinner: Option<Participant>,
    metrics: Option<Metrics>)

  /**
   * The text generator behind every agent: the reply to a prompt sent on
   * behalf of a caller (a debater or a judge), or None when generation fails.
   */
  type Generator = (string, string) -> Option<string>

  /** The exceptions that abort a debate. */
  datatype Error =
    | GenerationFailed(caller: string)   // the text generator gave no reply
    | InvalidKind(name: string)         // a message kind outside the five labels
    | InvalidVote(judgeId: string)       // a vote field of the wrong type or value
    | MalformedCriteria(judgeId: string) // `criteria_scores` not a map of score maps
}
