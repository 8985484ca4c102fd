/**
 * The debate graph: two debater nodes that take turns, a judging node that
 * collects one vote per judge, and a final node that decides the winner
 * and compiles the metrics. Each node returns a partial update of the
 * debate state, which the graph merges before following its edges.
 */
module Workflow {
  import opened Wrappers
  import opened Text
  import opened State
  import opened Debater
  import opened Judge
  import opened DebateMetrics

  /** The graph's nodes; End is where the graph stops. */
  datatype Node = AgentATurn | AgentBTurn | JudgeEvaluation | FinalDecision | End

  /** The last turn on which the debaters speak. */
  const LastTurn: int := 10

  /** The number of judges on the panel. */
  const PanelSize: nat := 3

  /** `should_continue_debate`. */
  predicate ShouldContinue(s: DebateState) {
    s.currentTurn <= LastTurn
  }

  /** The debate goes on exactly while debater turns remain. */
  lemma ContinuesWhileTurnsLeft(s: DebateState)
    ensures ShouldContinue(s) <==> TurnsLeft(s.currentTurn) > 0
  {
  }

  /** The edges of `_build_workflow`: the node that follows `n` once it has produced `s`. */
  function Next(n: Node, s: DebateState): Node {
    match n
    case AgentATurn => if ShouldContinue(s) then AgentBTurn else JudgeEvaluation
    case AgentBTurn => if ShouldContinue(s) then AgentATurn else JudgeEvaluation
    case JudgeEvaluation => FinalDecision
    case FinalDecision => End
    case End => End
  }

  /**
   * The fixed edges: only the final node (and the end itself) lead to the
   * end, only the judges lead to the final node, and the judges follow a
   * node only once the debate stops.
   */
  lemma NextEdges(n: Node, s: DebateState)
    ensures Next(n, s) == End <==> n == FinalDecision || n == End
    ensures Next(n, s) == FinalDecision <==> n == JudgeEvaluation
    ensures Next(n, s) == JudgeEvaluation ==> !ShouldContinue(s)
  {
  }

  /** After a debater's node the graph goes on to the other debater exactly while turns remain. */
  lemma NextAfterDebater(n: Node, s: DebateState)
    requires n == AgentATurn || n == AgentBTurn
    ensures Next(n, s) != End && Next(n, s) != FinalDecision
    ensures Next(n, s) == JudgeEvaluation <==> s.currentTurn > LastTurn
    ensures Next(n, s) == (if n == AgentATurn then AgentBTurn else AgentATurn) <==> s.currentTurn <= LastTurn
  {
  }

  // ---------------------------------------------------------------------
  // Updates and how the graph merges them.

  /** The keys a node returns; an absent key leaves its field as it was. */
  datatype Update = Update(
    messages: Option<seq<Message>>,
    currentTurn: Option<int>,
    currentSpeaker: Option<Participant>,
    debateComplete: Option<bool>,
    judgeVotes: Option<seq<JudgeVote>>)

  function Overwrite<T>(current: T, given: Option<T>): T {
    if given.Some? then given.value else current
  }

  /**
   * The merge the debater nodes rely on: returned messages are appended to
   * the list, every other returned key replaces its field.
   */
  function Apply(s: DebateState, u: Update): (r: DebateState)
  {
    s.(messages := s.messages + Overwrite([], u.messages),
       currentTurn := Overwrite(s.currentTurn, u.currentTurn),
       currentSpeaker := Overwrite(s.currentSpeaker, u.currentSpeaker),
       debateComplete := Overwrite(s.debateComplete, u.debateComplete),
       judgeVotes := Overwrite(s.judgeVotes, u.judgeVotes))
  }

  /**
   * The merge the state declaration gives: `messages` carries no reducer,
   * so a returned list replaces the history like any other key.
   */
  function ApplyAsDeclared(s: DebateState, u: Update): (r: DebateState)
    ensures r == Apply(s, u).(messages := r.messages)
    ensures u.messages.Some? ==> r.messages == u.messages.value
    ensures s.messages == [] || u.messages.None? ==> r == Apply(s, u)
  {
    s.(messages := Overwrite(s.messages, u.messages),
       currentTurn := Overwrite(s.currentTurn, u.currentTurn),
       currentSpeaker := Overwrite(s.currentSpeaker, u.currentSpeaker),
       debateComplete := Overwrite(s.debateComplete, u.debateComplete),
       judgeVotes := Overwrite(s.judgeVotes, u.judgeVotes))
  }

  /** What Agent A's node returns for its message. */
  function TurnOfA(m: Message): Update {
    Update(Some([m]), None, Some(AgentB), None, None)
  }

  /** What Agent B's node returns for its message on state `s`. */
  function TurnOfB(s: DebateState, m: Message): Update {
    Update(Some([m]), Some(s.currentTurn + 1), Some(AgentA), None, None)
  }

  /** What the judging node returns for the panel's votes. */
  function Judged(votes: seq<JudgeVote>): Update {
    Update(None, None, None, Some(true), Some(votes))
  }

  /** Agent A's turn adds exactly its message, passes the floor to B and keeps the turn number. */
  lemma TurnOfAEffect(s: DebateState, m: Message)
    ensures var r := Apply(s, TurnOfA(m));
      && r.messages == s.messages + [m]
      && r.currentSpeaker == AgentB
      && r == s.(messages := s.messages + [m], currentSpeaker := AgentB)
  {
  }

  /** Agent B's turn adds exactly its message, passes the floor to A and advances the turn by one. */
  lemma TurnOfBEffect(s: DebateState, m: Message)
    ensures var r := Apply(s, TurnOfB(s, m));
      && r.messages == s.messages + [m]
      && r.currentTurn == s.currentTurn + 1
      && r.currentSpeaker == AgentA
      && r == s.(messages := s.messages + [m], currentTurn := s.currentTurn + 1, currentSpeaker := AgentA)
  {
  }

  /** The panel's votes complete the debate and touch nothing else: undoing them gives back the state the judges saw. */
  lemma JudgedEffect(s: DebateState, votes: seq<JudgeVote>)
    requires InDebate(s)
    ensures var r := Apply(s, Judged(votes));
      && r.messages == s.messages && r.judgeVotes == votes && r.debateComplete
      && BeforeJudging(r) == s
      && Apply(BeforeJudging(r), Judged(r.judgeVotes)) == BeforeDeciding(r)
  {
    assert s.messages + [] == s.messages;
  }

  /**
   * As declared, a debater's turn throws the history away: after A's and
   * B's first turns the state holds B's message alone.
   */
  lemma HistoryLostAsDeclared(topic: string, aPersona: string, bPersona: string, m1: Message, m2: Message)
    ensures var s0 := InitialState(topic, aPersona, bPersona);
      var s1 := ApplyAsDeclared(s0, TurnOfA(m1));
      ApplyAsDeclared(s1, TurnOfB(s1, m2)).messages == [m2]
    ensures var s0 := InitialState(topic, aPersona, bPersona);
      var s1 := Apply(s0, TurnOfA(m1));
      Apply(s1, TurnOfB(s1, m2)).messages == [m1, m2]
  {
  }

  // ---------------------------------------------------------------------
  // The initial state and the shape of a debate in progress.

  /** The state `run` starts from. */
  function InitialState(topic: string, aPersona: string, bPersona: string): (s: DebateState)
    ensures s.messages == [] && s.judgeVotes == []
    ensures s.currentTurn == 1 && s.currentSpeaker == AgentA
    ensures !s.debateComplete && s.finalWinner == None && s.metrics == None
  {
    DebateState(topic, aPersona, bPersona, [], 1, AgentA, false, [], None, None)
  }

  /** The name of the debater who speaks `i`-th (from 0): A and B alternate, A first. */
  function SpeakerAt(i: nat): string {
    if i % 2 == 0 then "Agent A" else "Agent B"
  }

  /** The `i`-th message (from 0) is by A when `i` is even, by B when odd, on turn `i / 2 + 1`. */
  predicate Alternates(ms: seq<Message>) {
    forall i | 0 <= i < |ms| :: ms[i].agent == SpeakerAt(i) && ms[i].turn == i / 2 + 1
  }

  lemma AlternatesStep(ms: seq<Message>, m: Message)
    requires Alternates(ms)
    requires m.agent == SpeakerAt(|ms|) && m.turn == |ms| / 2 + 1
    ensures Alternates(ms + [m])
  {
  }

  /** The nodes visited over `n` full rounds of the debate. */
  function Rounds(n: nat): seq<Node> {
    if n == 0 then [] else Rounds(n - 1) + [AgentATurn, AgentBTurn]
  }

  lemma {:induction false} RoundsShape(n: nat)
    ensures |Rounds(n)| == 2 * n
    ensures forall i | 0 <= i < 2 * n :: Rounds(n)[i] == (if i % 2 == 0 then AgentATurn else AgentBTurn)
  {
    if n > 0 {
      RoundsShape(n - 1);
    }
  }

  /**
   * What holds whenever the graph is about to run `node` on `s`, having
   * visited `path`: the debate so far is an alternation of A and B, one
   * pair per completed turn, and the later fields are still untouched.
   */
  predicate Reached(node: Node, s: DebateState, path: seq<Node>) {
    && Alternates(s.messages)
    && match node
       case AgentATurn =>
         && 1 <= s.currentTurn <= LastTurn && |s.messages| == 2 * (s.currentTurn - 1)
         && s.currentSpeaker == AgentA && InDebate(s)
         && path == Rounds(s.currentTurn - 1)
       case AgentBTurn =>
         && 1 <= s.currentTurn <= LastTurn && |s.messages| == 2 * s.currentTurn - 1
         && s.currentSpeaker == AgentB && InDebate(s)
         && path == Rounds(s.currentTurn - 1) + [AgentATurn]
       case JudgeEvaluation =>
         && s.currentTurn == LastTurn + 1 && |s.messages| == 2 * LastTurn
         && s.currentSpeaker == AgentA && InDebate(s)
         && path == Rounds(s.currentTurn - 1)
       case FinalDecision =>
         && s.currentTurn == LastTurn + 1 && |s.messages| == 2 * LastTurn
         && s.currentSpeaker == AgentA && s.debateComplete
         && s.finalWinner == None && s.metrics == None
         && path == Rounds(s.currentTurn - 1) + [JudgeEvaluation]
       case End =>
         && s.currentTurn == LastTurn + 1 && |s.messages| == 2 * LastTurn
         && s.currentSpeaker == AgentA && s.debateComplete
         && s.finalWinner == Some(Decide(s.judgeVotes)) && s.metrics.Some?
         && path == Rounds(s.currentTurn - 1) + [JudgeEvaluation, FinalDecision]
  }

  /** Setting the winner and some metrics on a state at the final node puts it at the end. */
  lemma EndReached(s: DebateState, r: DebateState, path: seq<Node>)
    requires Reached(FinalDecision, s, path)
    requires r == s.(finalWinner := Some(Decide(s.judgeVotes)), metrics := r.metrics) && r.metrics.Some?
    ensures Reached(End, r, path + [FinalDecision])
  {
    assert path + [FinalDecision] == Rounds(r.currentTurn - 1) + [JudgeEvaluation, FinalDecision];
  }

  /** The end is reached after all the rounds' messages. */
  lemma EndLength(s: DebateState, path: seq<Node>)
    requires Reached(End, s, path)
    ensures |s.messages| == 2 * LastTurn
  {
  }

  /** Nothing has been judged or decided yet. */
  predicate InDebate(s: DebateState) {
    !s.debateComplete && s.judgeVotes == [] && s.finalWinner == None && s.metrics == None
  }

  /** How many nodes remain to run from `node` on turn `turn`. */
  function Remaining(node: Node, turn: int): nat {
    var left := if LastTurn + 1 - turn < 0 then 0 else LastTurn + 1 - turn;
    match node
    case AgentATurn => 2 * left + 3
    case AgentBTurn => 2 * left + 2
    case JudgeEvaluation => 2
    case FinalDecision => 1
    case End => 0
  }

  /** The debate starts at A's node on the initial state. */
  lemma StartReached(topic: string, aPersona: string, bPersona: string)
    ensures Reached(AgentATurn, InitialState(topic, aPersona, bPersona), [])
  {
  }

  /** A's turn, merged, leads to B's node on the same turn. */
  lemma AfterA(s: DebateState, path: seq<Node>, m: Message)
    requires Reached(AgentATurn, s, path)
    requires m.agent == "Agent A" && m.turn == s.currentTurn
    ensures var t := Apply(s, TurnOfA(m));
      && Next(AgentATurn, t) == AgentBTurn
      && Reached(AgentBTurn, t, path + [AgentATurn])
      && Remaining(AgentBTurn, t.currentTurn) < Remaining(AgentATurn, s.currentTurn)
  {
    var n := |s.messages|;
    assert n % 2 == 0 && n / 2 + 1 == s.currentTurn;
    AlternatesStep(s.messages, m);
  }

  /** B's turn, merged, leads back to A's node on the next turn, or to the judges after the last one. */
  lemma AfterB(s: DebateState, path: seq<Node>, m: Message)
    requires Reached(AgentBTurn, s, path)
    requires m.agent == "Agent B" && m.turn == s.currentTurn
    ensures var t := Apply(s, TurnOfB(s, m));
      && Reached(Next(AgentBTurn, t), t, path + [AgentBTurn])
      && Remaining(Next(AgentBTurn, t), t.currentTurn) < Remaining(AgentBTurn, s.currentTurn)
  {
    var n := |s.messages|;
    assert n % 2 == 1 && n / 2 + 1 == s.currentTurn;
    AlternatesStep(s.messages, m);
    assert path + [AgentBTurn] == Rounds(s.currentTurn);
  }

  // ---------------------------------------------------------------------
  // The panel's votes and the decision.

  /** The judges' ids, `Judge 1` to `Judge 3`. */
  function Panel(): (ids: seq<string>)
    ensures |ids| == PanelSize
  {
    seq(PanelSize, i requires 0 <= i < PanelSize => "Judge " + IntToString(i + 1))
  }

  lemma PanelNames()
    ensures Panel() == ["Judge 1", "Judge 2", "Judge 3"]
  {
    assert DigitChar(1) == '1' && DigitChar(2) == '2' && DigitChar(3) == '3';
    assert IntToString(1) == "1" && IntToString(2) == "2" && IntToString(3) == "3";
    var p := Panel();
    assert p[0] == "Judge 1" && p[1] == "Judge 2" && p[2] == "Judge 3";
  }

  /** Each judge's outcome on `s`, in the judges' order. */
  function Outcomes(ids: seq<string>, s: DebateState, generate: Generator, decode: Decoder): (o: seq<Result<JudgeVote, Error>>)
    ensures |o| == |ids|
    ensures forall i | 0 <= i < |ids| :: o[i].Ok? ==> o[i].value.judgeId == ids[i]
  {
    seq(|ids|, i requires 0 <= i < |ids| => JudgeVerdict(ids[i], s, generate, decode))
  }

  /** Outcomes taken in order: all the votes, or the first error. */
  function Collect(outcomes: seq<Result<JudgeVote, Error>>): Result<seq<JudgeVote>, Error> {
    if outcomes == [] then Ok([])
    else
      match Collect(outcomes[..|outcomes| - 1])
      case Err(e) => Err(e)
      case Ok(votes) =>
        match outcomes[|outcomes| - 1]
        case Err(e) => Err(e)
        case Ok(v) => Ok(votes + [v])
  }

  /** The panel's votes on `s`, or the error of the first judge that fails. */
  function PanelVotes(ids: seq<string>, s: DebateState, generate: Generator, decode: Decoder): Result<seq<JudgeVote>, Error> {
    Collect(Outcomes(ids, s, generate, decode))
  }

  /**
   * Collecting succeeds exactly when every outcome is a vote, and then
   * yields those votes in order; otherwise it yields the first error.
   */
  lemma {:induction false} CollectMeaning(outcomes: seq<Result<JudgeVote, Error>>)
    ensures Collect(outcomes).Ok? <==> forall i | 0 <= i < |outcomes| :: outcomes[i].Ok?
    ensures Collect(outcomes).Ok? ==>
      && |Collect(outcomes).value| == |outcomes|
      && forall i | 0 <= i < |outcomes| :: Collect(outcomes).value[i] == outcomes[i].value
    ensures Collect(outcomes).Err? ==> exists k | 0 <= k < |outcomes| ::
      && outcomes[k].Err? && Collect(outcomes).error == outcomes[k].error
      && forall i | 0 <= i < k :: outcomes[i].Ok?
  {
    if outcomes != [] {
      var front := outcomes[..|outcomes| - 1];
      CollectMeaning(front);
      assert forall i | 0 <= i < |front| :: front[i] == outcomes[i];
      if Collect(front).Err? {
        var k :| 0 <= k < |front| && front[k].Err? && Collect(front).error == front[k].error && forall i | 0 <= i < k :: front[i].Ok?;
        assert outcomes[k] == front[k];
      }
    }
  }

  lemma CollectStep(outcomes: seq<Result<JudgeVote, Error>>, i: nat, votes: seq<JudgeVote>)
    requires i < |outcomes| && Collect(outcomes[..i]) == Ok(votes)
    ensures outcomes[i].Ok? ==> Collect(outcomes[..i + 1]) == Ok(votes + [outcomes[i].value])
    ensures outcomes[i].Err? ==> Collect(outcomes[..i + 1]) == Err(outcomes[i].error)
  {
    assert outcomes[..i + 1][..i] == outcomes[..i];
  }

  /** A failed entry ends the collection with its own error, whatever follows it. */
  lemma {:induction false} CollectStops(outcomes: seq<Result<JudgeVote, Error>>, i: nat)
    requires i < |outcomes| && Collect(outcomes[..i + 1]).Err?
    ensures Collect(outcomes) == Collect(outcomes[..i + 1])
    decreases |outcomes|
  {
    if |outcomes| > i + 1 {
      var front := outcomes[..|outcomes| - 1];
      assert front[..i + 1] == outcomes[..i + 1];
      CollectStops(front, i);
    } else {
      assert outcomes[..i + 1] == outcomes;
    }
  }

  /** Collected votes come one per outcome, each carrying the id its judge signed with. */
  lemma CollectKeepsJudges(ids: seq<string>, outcomes: seq<Result<JudgeVote, Error>>)
    requires |outcomes| == |ids| && Collect(outcomes).Ok?
    requires forall i | 0 <= i < |ids| :: outcomes[i].Ok? ==> outcomes[i].value.judgeId == ids[i]
    ensures |Collect(outcomes).value| == |ids|
    ensures forall i | 0 <= i < |ids| :: Collect(outcomes).value[i].judgeId == ids[i]
  {
    CollectMeaning(outcomes);
  }

  /** The order in which the vote-count dictionary holds the two sides. */
  const Sides: seq<Participant> := [AgentA, AgentB]

  /** The vote-count dictionary of `final_decision`. */
  function VoteCounts(votes: seq<JudgeVote>): map<Participant, nat> {
    map[AgentA := Tally(votes, AgentA), AgentB := Tally(votes, AgentB)]
  }

  /**
   * `max(keys, key=count.get)`: scanning the keys in order, a later key
   * wins only with a strictly larger count.
   */
  function FirstMax(keys: seq<Participant>, count: map<Participant, nat>): (r: Participant)
    requires keys != [] && forall i | 0 <= i < |keys| :: keys[i] in count
    ensures r in keys && r in count
  {
    if |keys| == 1 then keys[0]
    else
      var best := FirstMax(keys[..|keys| - 1], count);
      if count[keys[|keys| - 1]] > count[best] then keys[|keys| - 1] else best
  }

  /** The key `max` picks has the largest count, and every key before it has a smaller one. */
  lemma {:induction false} FirstMaxMeaning(keys: seq<Participant>, count: map<Participant, nat>)
    requires keys != [] && forall i | 0 <= i < |keys| :: keys[i] in count
    ensures var r := FirstMax(keys, count);
      && r in count
      && (forall i | 0 <= i < |keys| :: count[keys[i]] <= count[r])
      && exists k | 0 <= k < |keys| :: keys[k] == r && forall i | 0 <= i < k :: count[keys[i]] < count[r]
  {
    if |keys| > 1 {
      var front := keys[..|keys| - 1];
      FirstMaxMeaning(front, count);
      var best := FirstMax(front, count);
      var k :| 0 <= k < |front| && front[k] == best && forall i | 0 <= i < k :: count[front[i]] < count[best];
      if count[keys[|keys| - 1]] > count[best] {
        assert forall i | 0 <= i < |keys| - 1 :: count[keys[i]] == count[front[i]];
      } else {
        assert keys[k] == best;
        assert forall i | 0 <= i < k :: keys[i] == front[i];
      }
    }
  }

  /** The final winner for a list of votes. */
  function Decide(votes: seq<JudgeVote>): Participant {
    FirstMax(Sides, VoteCounts(votes))
  }

  /** Agent B wins exactly with strictly more votes; every tie, none at all included, goes to Agent A. */
  lemma DecideIff(votes: seq<JudgeVote>)
    ensures Decide(votes) == AgentB <==> Tally(votes, AgentB) > Tally(votes, AgentA)
    ensures votes == [] ==> Decide(votes) == AgentA
  {
    var count := VoteCounts(votes);
    assert Sides[..1] == [AgentA];
    assert FirstMax([AgentA], count) == AgentA;
  }

  /** The winner holds a majority of the votes: at least as many as the other side. */
  lemma DecideIsMajority(votes: seq<JudgeVote>)
    ensures forall p: Participant :: Tally(votes, p) <= Tally(votes, Decide(votes))
  {
    FirstMaxMeaning(Sides, VoteCounts(votes));
    forall p: Participant ensures Tally(votes, p) <= Tally(votes, Decide(votes)) {
      assert p == Sides[0] || p == Sides[1];
    }
  }

  lemma TallyStep(votes: seq<JudgeVote>, i: nat, p: Participant)
    requires i < |votes|
    ensures Tally(votes[..i + 1], p) == Tally(votes[..i], p) + (if votes[i].winner == p then 1 else 0)
  {
    assert votes[..i + 1][..i] == votes[..i];
  }

  /** The loop of `final_decision` that counts the votes per side. */
  method CountVotes(votes: seq<JudgeVote>) returns (counts: map<Participant, nat>)
    ensures counts == VoteCounts(votes)
  {
    counts := map[AgentA := 0, AgentB := 0];
    for i := 0 to |votes|
      invariant counts == VoteCounts(votes[..i])
    {
      TallyStep(votes, i, AgentA);
      TallyStep(votes, i, AgentB);
      var w := votes[i].winner;
      counts := counts[w := counts[w] + 1];
    }
    assert votes[..|votes|] == votes;
  }

  /** The state `final_decision` produces: the winner first, then the metrics of that state. */
  function Decided(s: DebateState, c: MetricsCollector): (r: DebateState)
    reads c
    ensures r.finalWinner == Some(Decide(s.judgeVotes))
  {
    var decided := s.(finalWinner := Some(Decide(s.judgeVotes)));
    decided.(metrics := Some(c.GetFinalMetrics(decided)))
  }

  /** The final node sets the winner and the metrics, the latter computed on the state with the winner, and nothing else. */
  lemma DecidedEffect(s: DebateState, c: MetricsCollector)
    requires s.finalWinner == None && s.metrics == None
    ensures var r := Decided(s, c);
      && BeforeDeciding(r) == s && BeforeJudging(r) == BeforeJudging(s)
      && r == s.(finalWinner := r.finalWinner, metrics := r.metrics)
      && r.metrics == Some(c.GetFinalMetrics(r.(metrics := None)))
  {
  }

  /** Setting only the winner and the metrics keeps what the judges were shown, and the state before the decision. */
  lemma DecisionKeeps(s: DebateState, r: DebateState)
    requires r == s.(finalWinner := r.finalWinner, metrics := r.metrics)
    ensures BeforeJudging(r) == BeforeJudging(s)
    ensures s.finalWinner == None && s.metrics == None ==> BeforeDeciding(r) == s
  {
  }

  /** `s` before the final node: no winner and no metrics yet. */
  function BeforeDeciding(s: DebateState): DebateState {
    s.(finalWinner := None, metrics := None)
  }

  /** The state the judges were shown: `s` before votes, completion, winner and metrics. */
  function BeforeJudging(s: DebateState): DebateState {
    s.(judgeVotes := [], debateComplete := false, finalWinner := None, metrics := None)
  }

  // ---------------------------------------------------------------------
  // The whole debate as a reference definition.

  /** The debater who speaks the `i`-th turn (from 0): A on even turns, B on odd ones. */
  function SpeakerOf(a: Debater, b: Debater, i: nat): Debater {
    if i % 2 == 0 then a else b
  }

  /** What the `i`-th turn's speaker answers when the debate is in a given state. */
  type Replies = (nat, DebateState) -> Result<Message, Error>

  /** The two debaters' responses, turn by turn. */
  function DebaterReplies(a: Debater, b: Debater, generate: Generator): Replies {
    (i: nat, t: DebateState) => Response(SpeakerOf(a, b, i), t, generate)
  }

  /**
   * A debater node's reply merged into `s`: the state after its message, or
   * its error. The opening speaker hands the floor over; the other one also
   * advances the turn.
   */
  function Merged(s: DebateState, opens: bool, reply: Result<Message, Error>): Result<DebateState, Error> {
    match reply
    case Err(e) => Err(e)
    case Ok(m) => Ok(Apply(s, if opens then TurnOfA(m) else TurnOfB(s, m)))
  }

  /** The first `k` debater turns from `s0`, in speaking order: the state after them, or the first error. */
  function Play(replies: Replies, s0: DebateState, k: nat): Result<DebateState, Error> {
    if k == 0 then Ok(s0)
    else
      match Play(replies, s0, k - 1)
      case Err(e) => Err(e)
      case Ok(t) => Merged(t, (k - 1) % 2 == 0, replies(k - 1, t))
  }

  /** The judging node run on `s` and merged into it: the panel's votes, or the first failing judge's error. */
  function Judging(ids: seq<string>, s: DebateState, generate: Generator, decode: Decoder): Result<DebateState, Error> {
    match PanelVotes(ids, s, generate, decode)
    case Err(e) => Err(e)
    case Ok(votes) => Ok(Apply(s, Judged(votes)))
  }

  /**
   * How many debater turns the conditional edge lets run from a state on
   * `turn` with A to speak: a round of two for each turn up to the last.
   */
  function TurnsLeft(turn: int): nat {
    if turn > LastTurn then 0 else 2 * (LastTurn + 1 - turn)
  }

  /** `run` up to the final node: the rounds left from `s0`, A then B, then the panel. */
  function Debate(a: Debater, b: Debater, ids: seq<string>, s0: DebateState, generate: Generator, decode: Decoder): Result<DebateState, Error> {
    match Play(DebaterReplies(a, b, generate), s0, TurnsLeft(s0.currentTurn))
    case Err(e) => Err(e)
    case Ok(t) => Judging(ids, t, generate, decode)
  }

  lemma PlayNext(replies: Replies, s0: DebateState, k: nat, s: DebateState)
    requires Play(replies, s0, k) == Ok(s)
    ensures Play(replies, s0, k + 1) == Merged(s, k % 2 == 0, replies(k, s))
  {
  }

  /** Once a turn fails, the debate stays failed with that error. */
  lemma {:induction false} PlayStops(replies: Replies, s0: DebateState, k: nat, j: nat)
    requires k <= j && Play(replies, s0, k).Err?
    ensures Play(replies, s0, j) == Play(replies, s0, k)
    decreases j
  {
    if k < j {
      PlayStops(replies, s0, k, j - 1);
    }
  }

  /** A successful turn adds the speaker's reply to the history. */
  lemma PlayStep(replies: Replies, s0: DebateState, k: nat)
    requires 0 < k && Play(replies, s0, k).Ok?
    ensures Play(replies, s0, k - 1).Ok?
    ensures var t := Play(replies, s0, k - 1).value;
      replies(k - 1, t).Ok? && Play(replies, s0, k).value.messages == t.messages + [replies(k - 1, t).value]
  {
  }

  lemma {:induction false} PlayGrows(replies: Replies, s0: DebateState, k: nat)
    requires Play(replies, s0, k).Ok?
    ensures |Play(replies, s0, k).value.messages| == |s0.messages| + k
  {
    if k > 0 {
      PlayStep(replies, s0, k);
      PlayGrows(replies, s0, k - 1);
    }
  }

  /**
   * After `k` successful turns, the `i`-th new message is the reply of
   * the `i`-th speaker to the state the debate was in before it spoke.
   */
  lemma {:induction false} PlayMessages(replies: Replies, s0: DebateState, k: nat, i: nat)
    requires Play(replies, s0, k).Ok? && i < k
    ensures Play(replies, s0, i).Ok?
    ensures |s0.messages| + i < |Play(replies, s0, k).value.messages|
    ensures Ok(Play(replies, s0, k).value.messages[|s0.messages| + i]) == replies(i, Play(replies, s0, i).value)
    decreases k
  {
    PlayStep(replies, s0, k);
    PlayGrows(replies, s0, k - 1);
    if i < k - 1 {
      PlayMessages(replies, s0, k - 1, i);
    }
  }

  /** A failed debate failed at some turn, all earlier turns having succeeded, with that turn's error. */
  lemma {:induction false} PlayFails(replies: Replies, s0: DebateState, k: nat)
    requires Play(replies, s0, k).Err?
    ensures exists i | 0 <= i < k ::
      Play(replies, s0, i).Ok? && replies(i, Play(replies, s0, i).value) == Err(Play(replies, s0, k).error)
    decreases k
  {
    if Play(replies, s0, k - 1).Err? {
      PlayFails(replies, s0, k - 1);
    } else {
      var i := k - 1;
      assert Play(replies, s0, i).Ok?;
    }
  }

  /** The debaters' replies are their responses to the state they are shown: A's after an even number of turns, B's after an odd one. */
  lemma PlayTurn(a: Debater, b: Debater, generate: Generator, s0: DebateState, s: DebateState, opens: bool)
    requires Play(DebaterReplies(a, b, generate), s0, |s.messages|) == Ok(s)
    requires opens <==> |s.messages| % 2 == 0
    ensures var r := Merged(s, opens, Response(if opens then a else b, s, generate));
      && Play(DebaterReplies(a, b, generate), s0, |s.messages| + 1) == r
      && (r.Ok? ==> |r.value.messages| == |s.messages| + 1 && Play(DebaterReplies(a, b, generate), s0, |r.value.messages|) == r)
  {
    PlayNext(DebaterReplies(a, b, generate), s0, |s.messages|, s);
  }

  /** A debater turn that fails within the rounds left is the debate's error. */
  lemma DebateFailsAt(a: Debater, b: Debater, ids: seq<string>, s0: DebateState, generate: Generator, decode: Decoder, k: nat)
    requires k <= TurnsLeft(s0.currentTurn) && Play(DebaterReplies(a, b, generate), s0, k).Err?
    ensures Debate(a, b, ids, s0, generate, decode) == Err(Play(DebaterReplies(a, b, generate), s0, k).error)
  {
    PlayStops(DebaterReplies(a, b, generate), s0, k, TurnsLeft(s0.currentTurn));
  }

  /** After the rounds left, the debate is what the panel makes of them. */
  lemma DebateJudges(a: Debater, b: Debater, ids: seq<string>, s0: DebateState, generate: Generator, decode: Decoder, k: nat, s: DebateState)
    requires k == TurnsLeft(s0.currentTurn) && Play(DebaterReplies(a, b, generate), s0, k) == Ok(s)
    ensures Debate(a, b, ids, s0, generate, decode) == Judging(ids, s, generate, decode)
  {
  }

  /** The debaters' rounds from the first turn, then a panel verdict on them, are the debate and its votes. */
  lemma JudgedDebate(a: Debater, b: Debater, ids: seq<string>, s0: DebateState, s: DebateState, generate: Generator, decode: Decoder)
    requires s0.currentTurn == 1 && |s.messages| == 2 * LastTurn
    requires Play(DebaterReplies(a, b, generate), s0, |s.messages|) == Ok(BeforeJudging(s))
    requires Judging(ids, BeforeJudging(s), generate, decode) == Ok(BeforeDeciding(s))
    ensures Debate(a, b, ids, s0, generate, decode) == Ok(BeforeDeciding(s))
    ensures PanelVotes(ids, BeforeJudging(s), generate, decode) == Ok(s.judgeVotes)
    ensures |s.judgeVotes| == |ids| && forall i | 0 <= i < |ids| :: s.judgeVotes[i].judgeId == ids[i]
  {
    DebateJudges(a, b, ids, s0, generate, decode, |s.messages|, BeforeJudging(s));
    CollectKeepsJudges(ids, Outcomes(ids, BeforeJudging(s), generate, decode));
  }

  /**
   * In a debate that reaches the final node, the `i`-th message is the
   * response of the `i`-th speaker to the debate as it stood before it.
   */
  lemma DebateMessages(a: Debater, b: Debater, ids: seq<string>, s0: DebateState, generate: Generator, decode: Decoder, i: nat)
    requires Debate(a, b, ids, s0, generate, decode).Ok? && i < TurnsLeft(s0.currentTurn)
    ensures Play(DebaterReplies(a, b, generate), s0, i).Ok?
    ensures |s0.messages| + i < |Debate(a, b, ids, s0, generate, decode).value.messages|
    ensures Ok(Debate(a, b, ids, s0, generate, decode).value.messages[|s0.messages| + i])
      == Response(SpeakerOf(a, b, i), Play(DebaterReplies(a, b, generate), s0, i).value, generate)
  {
    var replies := DebaterReplies(a, b, generate);
    PlayMessages(replies, s0, TurnsLeft(s0.currentTurn), i);
  }

  /**
   * A debate that does not reach the final node failed either at a debater
   * turn, every earlier turn having succeeded, with that turn's error, or
   * after all its turns at the first judge whose verdict is an error.
   */
  lemma DebateFails(a: Debater, b: Debater, ids: seq<string>, s0: DebateState, generate: Generator, decode: Decoder)
    requires Debate(a, b, ids, s0, generate, decode).Err?
    ensures var e := Debate(a, b, ids, s0, generate, decode).error;
      var replies := DebaterReplies(a, b, generate);
      || (exists i | 0 <= i < TurnsLeft(s0.currentTurn) ::
            Play(replies, s0, i).Ok? && Response(SpeakerOf(a, b, i), Play(replies, s0, i).value, generate) == Err(e))
      || (&& Play(replies, s0, TurnsLeft(s0.currentTurn)).Ok?
          && exists k | 0 <= k < |ids| ::
               var outcomes := Outcomes(ids, Play(replies, s0, TurnsLeft(s0.currentTurn)).value, generate, decode);
               outcomes[k] == Err(e) && forall j | 0 <= j < k :: outcomes[j].Ok?)
  {
    var replies := DebaterReplies(a, b, generate);
    var n := TurnsLeft(s0.currentTurn);
    if Play(replies, s0, n).Err? {
      PlayFails(replies, s0, n);
      var i :| 0 <= i < n && Play(replies, s0, i).Ok? && replies(i, Play(replies, s0, i).value) == Err(Play(replies, s0, n).error);
      assert Response(SpeakerOf(a, b, i), Play(replies, s0, i).value, generate) == Err(Play(replies, s0, n).error);
    } else {
      CollectMeaning(Outcomes(ids, Play(replies, s0, n).value, generate, decode));
    }
  }

  // ---------------------------------------------------------------------
  // The workflow object: its agents, its judges, its collector, its nodes.

  class DebateWorkflow {
    const topic: string
    const agentA: Debater
    const agentB: Debater
    const judges: seq<string>
    const collector: MetricsCollector

    /** The personas come from the persona lookup for the topic. */
    constructor (topic: string, aPersona: string, bPersona: string)
      ensures this.topic == topic
      ensures agentA == Debater("Agent A", aPersona) && agentB == Debater("Agent B", bPersona)
      ensures judges == Panel()
      ensures fresh(collector) && collector.Valid() && collector.recorded == []
    {
      this.topic := topic;
      agentA := Debater("Agent A", aPersona);
      agentB := Debater("Agent B", bPersona);
      judges := Panel();
      collector := new MetricsCollector();
    }

    /** The debaters and judges are the ones the constructor set up. */
    ghost predicate WellFormed() {
      AgentsNamed() && judges == Panel()
    }

    /** The two debaters carry the names the graph's nodes give them. */
    ghost predicate AgentsNamed() {
      agentA.agentId == "Agent A" && agentB.agentId == "Agent B"
    }

    /** `agent_a_turn`: A speaks, its message is recorded, the floor passes to B. */
    method AgentATurnNode(s: DebateState, generate: Generator) returns (r: Result<Update, Error>)
      requires collector.Valid()
      modifies collector
      ensures collector.Valid()
      ensures r.Ok? <==> Response(agentA, s, generate).Ok?
      ensures r.Ok? ==> var m := Response(agentA, s, generate).value;
        r.value == TurnOfA(m) && collector.recorded == old(collector.recorded) + [m]
      ensures r.Err? ==> r.error == Response(agentA, s, generate).error && collector.recorded == old(collector.recorded)
    {
      var response := GenerateResponse(agentA, s, generate);
      if response.Err? {
        return Err(response.error);
      }
      collector.UpdateMessageMetrics(response.value);
      r := Ok(TurnOfA(response.value));
    }

    /** `agent_b_turn`: B speaks, its message is recorded, the turn advances and the floor passes to A. */
    method AgentBTurnNode(s: DebateState, generate: Generator) returns (r: Result<Update, Error>)
      requires collector.Valid()
      modifies collector
      ensures collector.Valid()
      ensures r.Ok? <==> Response(agentB, s, generate).Ok?
      ensures r.Ok? ==> var m := Response(agentB, s, generate).value;
        r.value == TurnOfB(s, m) && collector.recorded == old(collector.recorded) + [m]
      ensures r.Err? ==> r.error == Response(agentB, s, generate).error && collector.recorded == old(collector.recorded)
    {
      var response := GenerateResponse(agentB, s, generate);
      if response.Err? {
        return Err(response.error);
      }
      collector.UpdateMessageMetrics(response.value);
      r := Ok(TurnOfB(s, response.value));
    }

    /** `judge_evaluation`: every judge votes once, in order, and the debate is complete. */
    method JudgeEvaluationNode(s: DebateState, generate: Generator, decode: Decoder) returns (r: Result<Update, Error>)
      ensures r.Ok? <==> PanelVotes(judges, s, generate, decode).Ok?
      ensures r.Ok? ==> r.value == Judged(PanelVotes(judges, s, generate, decode).value)
      ensures r.Err? ==> r.error == PanelVotes(judges, s, generate, decode).error
    {
      ghost var outcomes := Outcomes(judges, s, generate, decode);
      var votes := [];
      for i := 0 to |judges|
        invariant Collect(outcomes[..i]) == Ok(votes)
      {
        var vote := EvaluateDebate(judges[i], s, generate, decode);
        assert vote == outcomes[i];
        CollectStep(outcomes, i, votes);
        if vote.Err? {
          CollectStops(outcomes, i);
          return Err(vote.error);
        }
        votes := votes + [vote.value];
      }
      assert outcomes[..|judges|] == outcomes;
      r := Ok(Judged(votes));
    }

    /** `final_decision`: count the votes, take the first side with the most, then compile the metrics. */
    method FinalDecisionNode(s: DebateState) returns (r: DebateState)
      ensures r == Decided(s, collector)
    {
      var counts := CountVotes(s.judgeVotes);
      var decided := s.(finalWinner := Some(FirstMax(Sides, counts)));
      r := decided.(metrics := Some(collector.GetFinalMetrics(decided)));
    }

    /**
     * What `run` knows on reaching a debater's node or the judges: the
     * state is the one the first turns lead to from `init`, and the
     * collector holds `start` followed by this debate's messages.
     */
    ghost predicate Debating(node: Node, s: DebateState, path: seq<Node>, init: DebateState, start: seq<Message>, replies: Replies)
      reads this, collector
    {
      && collector.Valid() && Reached(node, s, path) && SameDebate(s, init)
      && init.currentTurn == 1 && init.messages == []
      && collector.recorded == start + s.messages
      && Play(replies, init, |s.messages|) == Ok(s)
    }

    /**
     * What `run` knows after the judges: the twenty turns led to the state
     * they were shown, and the judging node run on that state gave `s` as
     * it was before the decision.
     */
    ghost predicate Concluding(node: Node, s: DebateState, path: seq<Node>, init: DebateState, start: seq<Message>, replies: Replies, generate: Generator, decode: Decoder)
      reads this, collector
    {
      && collector.Valid() && Reached(node, s, path) && SameDebate(s, init)
      && init.currentTurn == 1 && init.messages == []
      && collector.recorded == start + s.messages
      && Play(replies, init, |s.messages|) == Ok(BeforeJudging(s))
      && Judging(judges, BeforeJudging(s), generate, decode) == Ok(BeforeDeciding(s))
    }

    /** One step of the graph at A's node: run it, merge its update, follow its edge. */
    method StepA(s: DebateState, ghost path: seq<Node>, ghost init: DebateState, ghost start: seq<Message>, ghost replies: Replies, generate: Generator)
      returns (r: Result<DebateState, Error>, ghost m: Message)
      requires AgentsNamed() && replies == DebaterReplies(agentA, agentB, generate) && Debating(AgentATurn, s, path, init, start, replies)
      modifies collector
      ensures collector.Valid()
      ensures Play(replies, init, |s.messages| + 1) == r
      ensures r.Ok? ==> Debating(AgentBTurn, r.value, path + [AgentATurn], init, start, replies)
      ensures r == Merged(s, true, Response(agentA, s, generate))
      ensures r.Ok? <==> Response(agentA, s, generate).Ok?
      ensures r.Err? ==> r.error == Response(agentA, s, generate).error && collector.recorded == old(collector.recorded)
      ensures r.Ok? ==>
        && Ok(m) == Response(agentA, s, generate)
        && r.value.messages == s.messages + [m]
        && collector.recorded == old(collector.recorded) + [m]
        && Remaining(AgentBTurn, r.value.currentTurn) < Remaining(AgentATurn, s.currentTurn)
    {
      assert |s.messages| % 2 == 0 by {
        assert |s.messages| / 2 + 1 == s.currentTurn;
      }
      PlayTurn(agentA, agentB, generate, init, s, true);
      var u := AgentATurnNode(s, generate);
      if u.Err? {
        return Err(u.error), Message("", "", s.currentTurn, Argument);
      }
      m := Response(agentA, s, generate).value;
      AfterA(s, path, m);
      AppendAssociates(start, s.messages, [m]);
      r := Ok(Apply(s, u.value));
    }

    /** One step of the graph at B's node. */
    method StepB(s: DebateState, ghost path: seq<Node>, ghost init: DebateState, ghost start: seq<Message>, ghost replies: Replies, generate: Generator)
      returns (r: Result<DebateState, Error>, ghost m: Message)
      requires AgentsNamed() && replies == DebaterReplies(agentA, agentB, generate) && Debating(AgentBTurn, s, path, init, start, replies)
      modifies collector
      ensures collector.Valid()
      ensures Play(replies, init, |s.messages| + 1) == r
      ensures r.Ok? ==> Debating(Next(AgentBTurn, r.value), r.value, path + [AgentBTurn], init, start, replies)
      ensures r == Merged(s, false, Response(agentB, s, generate))
      ensures r.Ok? <==> Response(agentB, s, generate).Ok?
      ensures r.Err? ==> r.error == Response(agentB, s, generate).error && collector.recorded == old(collector.recorded)
      ensures r.Ok? ==>
        && Ok(m) == Response(agentB, s, generate)
        && r.value.messages == s.messages + [m]
        && collector.recorded == old(collector.recorded) + [m]
        && Remaining(Next(AgentBTurn, r.value), r.value.currentTurn) < Remaining(AgentBTurn, s.currentTurn)
    {
      assert |s.messages| % 2 == 1 by {
        assert |s.messages| / 2 + 1 == s.currentTurn;
      }
      PlayTurn(agentA, agentB, generate, init, s, false);
      var u := AgentBTurnNode(s, generate);
      if u.Err? {
        return Err(u.error), Message("", "", s.currentTurn, Argument);
      }
      m := Response(agentB, s, generate).value;
      AfterB(s, path, m);
      AppendAssociates(start, s.messages, [m]);
      r := Ok(Apply(s, u.value));
    }

    /** One step of the graph at the judging node. */
    method StepJudges(s: DebateState, ghost path: seq<Node>, ghost init: DebateState, ghost start: seq<Message>, ghost replies: Replies, generate: Generator, decode: Decoder)
      returns (r: Result<DebateState, Error>)
      requires |judges| == PanelSize && Debating(JudgeEvaluation, s, path, init, start, replies)
      ensures r.Ok? ==> Concluding(FinalDecision, r.value, path + [JudgeEvaluation], init, start, replies, generate, decode)
      ensures r == Judging(judges, s, generate, decode)
      ensures r.Ok? <==> PanelVotes(judges, s, generate, decode).Ok?
      ensures r.Err? ==> r.error == PanelVotes(judges, s, generate, decode).error
      ensures r.Ok? ==>
        && Reached(FinalDecision, r.value, path + [JudgeEvaluation])
        && SameDebate(s, r.value) && r.value.messages == s.messages
        && BeforeJudging(r.value) == s && PanelVotes(judges, s, generate, decode) == Ok(r.value.judgeVotes)
        && |r.value.judgeVotes| == PanelSize
        && forall i | 0 <= i < PanelSize :: r.value.judgeVotes[i].judgeId == judges[i]
    {
      var u := JudgeEvaluationNode(s, generate, decode);
      if u.Err? {
        return Err(u.error);
      }
      CollectKeepsJudges(judges, Outcomes(judges, s, generate, decode));
      JudgedEffect(s, PanelVotes(judges, s, generate, decode).value);
      Judges(s, path, init, start, replies, generate, decode, PanelVotes(judges, s, generate, decode).value);
      r := Ok(Apply(s, u.value));
    }

    /** The panel's votes, merged into the state they were given, lead to the final node. */
    lemma Judges(s: DebateState, path: seq<Node>, init: DebateState, start: seq<Message>, replies: Replies, generate: Generator, decode: Decoder, votes: seq<JudgeVote>)
      requires Debating(JudgeEvaluation, s, path, init, start, replies) && PanelVotes(judges, s, generate, decode) == Ok(votes)
      ensures Concluding(FinalDecision, Apply(s, Judged(votes)), path + [JudgeEvaluation], init, start, replies, generate, decode)
    {
      JudgedEffect(s, votes);
      assert Judging(judges, s, generate, decode) == Ok(Apply(s, Judged(votes)));
    }

    /** One step of the graph at the final node. */
    method StepFinal(s: DebateState, ghost path: seq<Node>, ghost init: DebateState, ghost start: seq<Message>, ghost replies: Replies, ghost generate: Generator, ghost decode: Decoder)
      returns (r: DebateState)
      requires Concluding(FinalDecision, s, path, init, start, replies, generate, decode)
      ensures Concluding(End, r, path + [FinalDecision], init, start, replies, generate, decode)
      ensures r == Decided(s, collector) && BeforeDeciding(r) == s
      ensures Reached(End, r, path + [FinalDecision])
      ensures r == s.(finalWinner := r.finalWinner, metrics := r.metrics)
      ensures r.metrics == Some(collector.GetFinalMetrics(r.(metrics := None)))
    {
      r := FinalDecisionNode(s);
      DecidedEffect(s, collector);
      Decides(s, path, init, start, replies, generate, decode);
    }

    /** The decision taken at the final node completes the run. */
    lemma Decides(s: DebateState, path: seq<Node>, init: DebateState, start: seq<Message>, replies: Replies, generate: Generator, decode: Decoder)
      requires Concluding(FinalDecision, s, path, init, start, replies, generate, decode)
      ensures Concluding(End, Decided(s, collector), path + [FinalDecision], init, start, replies, generate, decode)
    {
      DecidedEffect(s, collector);
      Finishes(s, Decided(s, collector), path, init, start, replies, generate, decode);
    }

    /** Setting the winner and some metrics on a state at the final node reaches the end. */
    lemma Finishes(s: DebateState, r: DebateState, path: seq<Node>, init: DebateState, start: seq<Message>, replies: Replies, generate: Generator, decode: Decoder)
      requires Concluding(FinalDecision, s, path, init, start, replies, generate, decode)
      requires r == s.(finalWinner := Some(Decide(s.judgeVotes)), metrics := r.metrics) && r.metrics.Some?
      ensures Concluding(End, r, path + [FinalDecision], init, start, replies, generate, decode)
    {
      DecisionKeeps(s, r);
      EndReached(s, r, path);
    }

    /**
     * The debater part of `invoke` on `init`: ten rounds of A then B, until
     * B's edge leads to the judges on turn 11 after twenty messages. Either
     * debater's error ends the run with that error.
     */
    method Exchange(init: DebateState, generate: Generator) returns (r: Result<DebateState, Error>, ghost path: seq<Node>)
      requires AgentsNamed() && collector.Valid() && Reached(AgentATurn, init, []) && init.messages == []
      modifies collector
      ensures collector.Valid()
      ensures r == Play(DebaterReplies(agentA, agentB, generate), init, TurnsLeft(init.currentTurn))
      ensures r.Ok? ==> Debating(JudgeEvaluation, r.value, path, init, old(collector.recorded), DebaterReplies(agentA, agentB, generate))
    {
      ghost var start := collector.recorded;
      ghost var replies := DebaterReplies(agentA, agentB, generate);
      var s := init;
      var node := AgentATurn;
      path := [];
      AppendEmpty(start);
      while node != JudgeEvaluation
        invariant node == AgentATurn || node == AgentBTurn || node == JudgeEvaluation
        invariant Debating(node, s, path, init, start, replies)
        decreases Remaining(node, s.currentTurn)
      {
        var t, next := Turn(node, s, path, init, start, replies, generate);
        if t.Err? {
          return Err(t.error), path;
        }
        s, node, path := t.value, next, path + [node];
      }
      r := Ok(s);
    }

    /** One pass of `invoke` at a debater's node: run the node, then follow its conditional edge. */
    method Turn(node: Node, s: DebateState, ghost path: seq<Node>, ghost init: DebateState, ghost start: seq<Message>, ghost replies: Replies, generate: Generator)
      returns (r: Result<DebateState, Error>, next: Node)
      requires AgentsNamed() && replies == DebaterReplies(agentA, agentB, generate)
      requires (node == AgentATurn || node == AgentBTurn) && Debating(node, s, path, init, start, replies)
      modifies collector
      ensures collector.Valid()
      ensures r == Play(replies, init, |s.messages| + 1)
      ensures r.Err? ==> r == Play(replies, init, TurnsLeft(init.currentTurn))
      ensures r.Ok? ==>
        && next == Next(node, r.value) && (next == AgentATurn || next == AgentBTurn || next == JudgeEvaluation)
        && Debating(next, r.value, path + [node], init, start, replies)
        && Remaining(next, r.value.currentTurn) < Remaining(node, s.currentTurn)
    {
      ghost var m;
      if node == AgentATurn {
        r, m := StepA(s, path, init, start, replies, generate);
      } else {
        r, m := StepB(s, path, init, start, replies, generate);
      }
      next := if r.Ok? then Next(node, r.value) else node;
      if r.Err? {
        Fails(node, s, path, init, start, replies);
      }
    }

    /** A debater turn that fails is the error of all the turns the debate has. */
    lemma Fails(node: Node, s: DebateState, path: seq<Node>, init: DebateState, start: seq<Message>, replies: Replies)
      requires (node == AgentATurn || node == AgentBTurn) && Debating(node, s, path, init, start, replies)
      requires Play(replies, init, |s.messages| + 1).Err?
      ensures Play(replies, init, TurnsLeft(init.currentTurn)) == Play(replies, init, |s.messages| + 1)
    {
      PlayStops(replies, init, |s.messages| + 1, TurnsLeft(init.currentTurn));
    }

    /**
     * `invoke` of the compiled graph on `init`: the debaters' turns, the
     * judges, then the decision. Any node's error ends the run with that
     * error.
     */
    method Invoke(init: DebateState, generate: Generator, decode: Decoder) returns (r: Result<DebateState, Error>, ghost path: seq<Node>)
      requires AgentsNamed() && |judges| == PanelSize && collector.Valid() && Reached(AgentATurn, init, []) && init.messages == []
      modifies collector
      ensures collector.Valid()
      ensures r.Ok? ==>
        && Concluding(End, r.value, path, init, old(collector.recorded), DebaterReplies(agentA, agentB, generate), generate, decode)
        && r.value == Decided(BeforeDeciding(r.value), collector)
      ensures r.Err? ==> Debate(agentA, agentB, judges, init, generate, decode) == Err(r.error)
    {
      ghost var start := collector.recorded;
      ghost var replies := DebaterReplies(agentA, agentB, generate);
      var debated;
      debated, path := Exchange(init, generate);
      if debated.Err? {
        return Err(debated.error), path;
      }
      var s := debated.value;
      var judged := StepJudges(s, path, init, start, replies, generate, decode);
      if judged.Err? {
        DebateJudges(agentA, agentB, judges, init, generate, decode, |s.messages|, s);
        return Err(judged.error), path;
      }
      path := path + [JudgeEvaluation];
      var decided := StepFinal(judged.value, path, init, start, replies, generate, decode);
      r, path := Ok(decided), path + [FinalDecision];
    }

    /** A run that reaches the end computed the reference debate from `init`. */
    lemma Concluded(s: DebateState, path: seq<Node>, init: DebateState, start: seq<Message>, generate: Generator, decode: Decoder)
      requires WellFormed() && Concluding(End, s, path, init, start, DebaterReplies(agentA, agentB, generate), generate, decode)
      ensures Debate(agentA, agentB, judges, init, generate, decode) == Ok(BeforeDeciding(s))
      ensures PanelVotes(judges, BeforeJudging(s), generate, decode) == Ok(s.judgeVotes)
      ensures |s.judgeVotes| == PanelSize && forall i | 0 <= i < PanelSize :: s.judgeVotes[i].judgeId == judges[i]
    {
      EndLength(s, path);
      JudgedDebate(agentA, agentB, judges, init, s, generate, decode);
    }

    /**
     * `run`: the initial state on the topic and the two personas, then the
     * graph. The result is the reference debate decided, or its error.
     */
    method Run(generate: Generator, decode: Decoder) returns (r: Result<DebateState, Error>, ghost path: seq<Node>)
      requires WellFormed() && collector.Valid()
      modifies collector
      ensures collector.Valid()
      ensures var expected := Debate(agentA, agentB, judges, InitialState(topic, agentA.persona, agentB.persona), generate, decode);
        && (r.Ok? <==> expected.Ok?)
        && (r.Err? ==> r.error == expected.error)
        && (r.Ok? ==> r.value == Decided(expected.value, collector))
      ensures r.Ok? ==>
        var f := r.value;
        && f.topic == topic && f.agentAPersona == agentA.persona && f.agentBPersona == agentB.persona
        && |f.messages| == 2 * LastTurn && Alternates(f.messages)
        && f.currentTurn == LastTurn + 1 && f.currentSpeaker == AgentA && f.debateComplete
        && |f.judgeVotes| == PanelSize && (forall i | 0 <= i < PanelSize :: f.judgeVotes[i].judgeId == judges[i])
        && f.finalWinner == Some(Decide(f.judgeVotes))
        && PanelVotes(judges, BeforeJudging(f), generate, decode) == Ok(f.judgeVotes)
        && f.metrics == Some(collector.GetFinalMetrics(f.(metrics := None)))
        && collector.recorded == old(collector.recorded) + f.messages
        && path == Rounds(LastTurn) + [JudgeEvaluation, FinalDecision]
    {
      ghost var start := collector.recorded;
      var init := InitialState(topic, agentA.persona, agentB.persona);
      r, path := Invoke(init, generate, decode);
      if r.Ok? {
        Concluded(r.value, path, init, start, generate, decode);
      }
    }
  }

  lemma AppendAssociates<T>(a: seq<T>, b: seq<T>, c: seq<T>)
    ensures a + (b + c) == a + b + c
  {
  }

  lemma AppendEmpty<T>(a: seq<T>)
    ensures a + [] == a
  {
  }

  /** Two states of the same debate: topic and personas agree. */
  predicate SameDebate(s: DebateState, t: DebateState) {
    s.topic == t.topic && s.agentAPersona == t.agentAPersona && s.agentBPersona == t.agentBPersona
  }
}
