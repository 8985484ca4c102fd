/**
 * The metrics collector: per-message tallies kept in the collector's maps,
 * and the summary computed from them and from the judges' votes once the
 * debate is decided. Averages and ratios are exact.
 */
module DebateMetrics {
  import opened State
  import opened Text

  // ---------------------------------------------------------------------
  // Reference definitions: what the tallies count, read off the history.

  /** The messages of one agent, in order. */
  function MessagesBy(ms: seq<Message>, agent: string): (r: seq<Message>)
    ensures |r| <= |ms|
    ensures forall i | 0 <= i < |r| :: r[i].agent == agent
  {
    if ms == [] then []
    else MessagesBy(ms[..|ms| - 1], agent) + (if ms[|ms| - 1].agent == agent then [ms[|ms| - 1]] else [])
  }

  /** How many messages one agent sent of one kind. */
  function KindCount(ms: seq<Message>, agent: string, kind: Kind): (n: nat)
    ensures n <= |MessagesBy(ms, agent)|
  {
    if ms == [] then 0
    else
      var m := ms[|ms| - 1];
      KindCount(ms[..|ms| - 1], agent, kind) + (if m.agent == agent && m.kind == kind then 1 else 0)
  }

  /** The whitespace-split word count of each message, in order. */
  function WordCounts(ms: seq<Message>): (r: seq<nat>)
    ensures |r| == |ms|
  {
    seq(|ms|, i requires 0 <= i < |ms| => WordCount(ms[i].content))
  }

  /** The number of `?` characters over some messages. */
  function Questions(ms: seq<Message>): nat {
    if ms == [] then 0 else Questions(ms[..|ms| - 1]) + CountChar(ms[|ms| - 1].content, '?')
  }

  // ---------------------------------------------------------------------
  // The collector's update, one message at a time.

  /** The count of one agent's messages of one kind (0 when absent). */
  function TypeCount(t: map<string, map<Kind, nat>>, agent: string, kind: Kind): nat {
    if agent in t && kind in t[agent] then t[agent][kind] else 0
  }

  /** `message_types[agent][kind] += 1` on nested default dictionaries. */
  function CountMessageType(t: map<string, map<Kind, nat>>, m: Message): (r: map<string, map<Kind, nat>>)
    ensures r.Keys == t.Keys + {m.agent}
    ensures TypeCount(r, m.agent, m.kind) == TypeCount(t, m.agent, m.kind) + 1
  {
    var inner := if m.agent in t then t[m.agent] else map[];
    t[m.agent := inner[m.kind := TypeCount(t, m.agent, m.kind) + 1]]
  }

  /** `word_counts[agent].append(n)` on a default dictionary of lists. */
  function AppendWordCount(w: map<string, seq<nat>>, m: Message): (r: map<string, seq<nat>>)
    ensures r.Keys == w.Keys + {m.agent}
    ensures r[m.agent] == (if m.agent in w then w[m.agent] else []) + [WordCount(m.content)]
    ensures forall a | a in w && a != m.agent :: r[a] == w[a]
  {
    w[m.agent := (if m.agent in w then w[m.agent] else []) + [WordCount(m.content)]]
  }

  /** The question tally: an agent's entry grows, and is created, only for a positive count. */
  function AddQuestions(q: map<string, nat>, m: Message): (r: map<string, nat>)
    ensures m.agent in r <==> m.agent in q || '?' in m.content
    ensures r.Keys == q.Keys + (if '?' in m.content then {m.agent} else {})
    ensures m.agent in r ==> r[m.agent] == (if m.agent in q then q[m.agent] else 0) + CountChar(m.content, '?')
    ensures forall a | a in q && a != m.agent :: r[a] == q[a]
  {
    var n := CountChar(m.content, '?');
    if n > 0 then q[m.agent := (if m.agent in q then q[m.agent] else 0) + n] else q
  }

  /** The collector's three maps after recording a history from the start. */
  function TypeCounts(ms: seq<Message>): map<string, map<Kind, nat>> {
    if ms == [] then map[] else CountMessageType(TypeCounts(ms[..|ms| - 1]), ms[|ms| - 1])
  }

  function WordCountLists(ms: seq<Message>): map<string, seq<nat>> {
    if ms == [] then map[] else AppendWordCount(WordCountLists(ms[..|ms| - 1]), ms[|ms| - 1])
  }

  function QuestionCounts(ms: seq<Message>): map<string, nat> {
    if ms == [] then map[] else AddQuestions(QuestionCounts(ms[..|ms| - 1]), ms[|ms| - 1])
  }

  /** Recording a message raises its own (agent, kind) count by one and no other. */
  lemma CountMessageTypeChanges(t: map<string, map<Kind, nat>>, m: Message, agent: string, kind: Kind)
    ensures TypeCount(CountMessageType(t, m), agent, kind)
      == TypeCount(t, agent, kind) + (if agent == m.agent && kind == m.kind then 1 else 0)
  {
  }

  /**
   * The kind tally counts each agent's messages of each kind; an agent, and
   * a kind under it, appear exactly when there is such a message.
   */
  lemma {:induction false} TypeCountsMeaning(ms: seq<Message>, agent: string, kind: Kind)
    ensures agent in TypeCounts(ms) <==> MessagesBy(ms, agent) != []
    ensures TypeCount(TypeCounts(ms), agent, kind) == KindCount(ms, agent, kind)
    ensures agent in TypeCounts(ms) ==> (kind in TypeCounts(ms)[agent] <==> KindCount(ms, agent, kind) > 0)
  {
    if ms != [] {
      var front := ms[..|ms| - 1];
      TypeCountsMeaning(front, agent, kind);
      CountMessageTypeChanges(TypeCounts(front), ms[|ms| - 1], agent, kind);
    }
  }

  /**
   * An agent's word-count list holds one entry per message of that agent,
   * in order, and exists exactly when the agent has spoken.
   */
  lemma {:induction false} WordCountListsMeaning(ms: seq<Message>, agent: string)
    ensures agent in WordCountLists(ms) <==> MessagesBy(ms, agent) != []
    ensures agent in WordCountLists(ms) ==> WordCountLists(ms)[agent] == WordCounts(MessagesBy(ms, agent))
  {
    if ms != [] {
      var front := ms[..|ms| - 1];
      WordCountListsMeaning(front, agent);
      var m := ms[|ms| - 1];
      if m.agent == agent {
        var before := MessagesBy(front, agent);
        assert MessagesBy(ms, agent) == before + [m];
        assert WordCounts(before + [m]) == WordCounts(before) + [WordCount(m.content)];
      }
    }
  }

  /** An agent's question tally is its total of `?`, present only when positive. */
  lemma {:induction false} QuestionCountsMeaning(ms: seq<Message>, agent: string)
    ensures agent in QuestionCounts(ms) <==> Questions(MessagesBy(ms, agent)) > 0
    ensures agent in QuestionCounts(ms) ==> QuestionCounts(ms)[agent] == Questions(MessagesBy(ms, agent))
  {
    if ms != [] {
      var front := ms[..|ms| - 1];
      QuestionCountsMeaning(front, agent);
      var m := ms[|ms| - 1];
      var before := MessagesBy(front, agent);
      if m.agent == agent {
        assert MessagesBy(ms, agent) == before + [m];
        QuestionsSnoc(before, m);
      } else {
        assert MessagesBy(ms, agent) == before + [] == before;
      }
    }
  }

  lemma QuestionsSnoc(ms: seq<Message>, m: Message)
    ensures Questions(ms + [m]) == Questions(ms) + CountChar(m.content, '?')
  {
    assert (ms + [m])[..|ms|] == ms;
  }

  // ---------------------------------------------------------------------
  // Sums, means and the judges' agreement.

  function SumNat(xs: seq<nat>): nat {
    if xs == [] then 0 else SumNat(xs[..|xs| - 1]) + xs[|xs| - 1]
  }

  function SumReal(xs: seq<real>): real {
    if xs == [] then 0.0 else SumReal(xs[..|xs| - 1]) + xs[|xs| - 1]
  }

  /** `sum(xs) / len(xs) if xs else 0`. */
  function MeanNat(xs: seq<nat>): real {
    if xs == [] then 0.0 else SumNat(xs) as real / |xs| as real
  }

  function MeanReal(xs: seq<real>): real {
    if xs == [] then 0.0 else SumReal(xs) / |xs| as real
  }

  lemma {:induction false} SumRealBounds(xs: seq<real>, lo: real, hi: real)
    requires forall i | 0 <= i < |xs| :: lo <= xs[i] <= hi
    ensures |xs| as real * lo <= SumReal(xs) <= |xs| as real * hi
  {
    if xs != [] {
      SumRealBounds(xs[..|xs| - 1], lo, hi);
    }
  }

  /** A mean lies between the bounds of what it averages. */
  lemma MeanRealBounds(xs: seq<real>, lo: real, hi: real)
    requires xs != [] && forall i | 0 <= i < |xs| :: lo <= xs[i] <= hi
    ensures lo <= MeanReal(xs) <= hi
  {
    SumRealBounds(xs, lo, hi);
    var n := |xs| as real;
    assert MeanReal(xs) * n == SumReal(xs);
  }

  /** The number of votes for one side. */
  function Tally(votes: seq<JudgeVote>, p: Participant): (n: nat)
    ensures n <= |votes|
  {
    if votes == [] then 0
    else Tally(votes[..|votes| - 1], p) + (if votes[|votes| - 1].winner == p then 1 else 0)
  }

  /** Every vote is for one of the two sides. */
  lemma {:induction false} TallyPartition(votes: seq<JudgeVote>)
    ensures Tally(votes, AgentA) + Tally(votes, AgentB) == |votes|
  {
    if votes != [] {
      TallyPartition(votes[..|votes| - 1]);
    }
  }

  /** A product with a positive factor is non-positive only when the other factor is. */
  lemma SignOfProduct(x: real, y: real)
    requires 0.0 < y
    ensures x * y <= 0.0 ==> x <= 0.0
  {
  }

  lemma ShareBounds(k: nat, n: nat)
    requires 0 < n <= 2 * k && k <= n
    ensures 0.5 <= k as real / n as real <= 1.0
  {
    var q := k as real / n as real;
    assert q * n as real == k as real;
    SignOfProduct(q - 1.0, n as real);
    SignOfProduct(0.5 - q, n as real);
  }

  lemma ShareMonotone(j: nat, k: nat, n: nat)
    requires 0 < n && j <= k
    ensures j as real / n as real <= k as real / n as real
  {
    var p, q := j as real / n as real, k as real / n as real;
    assert p * n as real == j as real && q * n as real == k as real;
    SignOfProduct(p - q, n as real);
  }

  /**
   * `_calculate_judge_agreement`: the share of the votes held by the
   * largest group of agreeing judges, 0 without votes. With votes it is
   * the largest side's share, so at least one half and at most one.
   */
  function JudgeAgreement(votes: seq<JudgeVote>): (r: real)
    ensures votes == [] ==> r == 0.0
    ensures votes != [] ==> 0.5 <= r <= 1.0
    ensures votes != [] ==> forall p: Participant :: Tally(votes, p) as real / |votes| as real <= r
    ensures votes != [] ==> exists p: Participant :: r == Tally(votes, p) as real / |votes| as real
  {
    if votes == [] then 0.0
    else
      TallyPartition(votes);
      var a, b := Tally(votes, AgentA), Tally(votes, AgentB);
      var top := if a >= b then a else b;
      ShareBounds(top, |votes|);
      ShareMonotone(a, top, |votes|);
      ShareMonotone(b, top, |votes|);
      top as real / |votes| as real
  }

  /** Three judges agree two to one or unanimously. */
  lemma ThreeJudgesAgreement(votes: seq<JudgeVote>)
    requires |votes| == 3
    ensures JudgeAgreement(votes) == 2.0 / 3.0 || JudgeAgreement(votes) == 1.0
  {
    TallyPartition(votes);
  }

  // ---------------------------------------------------------------------
  // Per-criterion analysis.

  /** The two score lists gathered for one criterion. */
  datatype Totals = Totals(agentA: seq<real>, agentB: seq<real>)

  /** The criteria named by any vote. */
  function CriteriaSeen(votes: seq<JudgeVote>): set<string> {
    if votes == [] then {} else CriteriaSeen(votes[..|votes| - 1]) + votes[|votes| - 1].criteriaScores.Keys
  }

  /** The scores given for one criterion, vote by vote. */
  function CriterionTotals(votes: seq<JudgeVote>, c: string): Totals {
    if votes == [] then Totals([], [])
    else
      var prior := CriterionTotals(votes[..|votes| - 1], c);
      var scores := votes[|votes| - 1].criteriaScores;
      if c in scores then Totals(prior.agentA + [scores[c].agentA], prior.agentB + [scores[c].agentB])
      else prior
  }

  /** The votes that score one criterion, in order. */
  function VotesMentioning(votes: seq<JudgeVote>, c: string): (r: seq<JudgeVote>)
    ensures forall i | 0 <= i < |r| :: c in r[i].criteriaScores
  {
    if votes == [] then []
    else VotesMentioning(votes[..|votes| - 1], c) + (if c in votes[|votes| - 1].criteriaScores then [votes[|votes| - 1]] else [])
  }

  /**
   * The lists gathered for a criterion are the scores of the votes that
   * mention it, in vote order; a criterion no vote names has none.
   */
  lemma {:induction false} CriterionTotalsMeaning(votes: seq<JudgeVote>, c: string)
    ensures c in CriteriaSeen(votes) <==> VotesMentioning(votes, c) != []
    ensures var t, vm := CriterionTotals(votes, c), VotesMentioning(votes, c);
      && |t.agentA| == |vm| && |t.agentB| == |vm|
      && (forall i | 0 <= i < |vm| :: t.agentA[i] == vm[i].criteriaScores[c].agentA)
      && (forall i | 0 <= i < |vm| :: t.agentB[i] == vm[i].criteriaScores[c].agentB)
  {
    if votes != [] {
      CriterionTotalsMeaning(votes[..|votes| - 1], c);
    }
  }

  /** The mean scores of every criterion seen, over the votes that mention it. */
  function CriteriaAverages(votes: seq<JudgeVote>): (r: map<string, CriterionAverage>)
    ensures r.Keys == CriteriaSeen(votes)
  {
    map c | c in CriteriaSeen(votes) ::
      CriterionAverage(MeanReal(CriterionTotals(votes, c).agentA), MeanReal(CriterionTotals(votes, c).agentB))
  }

  lemma {:induction false} UnseenCriterion(votes: seq<JudgeVote>, c: string)
    requires c !in CriteriaSeen(votes)
    ensures CriterionTotals(votes, c) == Totals([], [])
  {
    if votes != [] {
      UnseenCriterion(votes[..|votes| - 1], c);
    }
  }

  /** Every score of a vote lies within the bounds. */
  predicate ScoresWithin(v: JudgeVote, lo: real, hi: real) {
    forall k | k in v.criteriaScores :: lo <= v.criteriaScores[k].agentA <= hi && lo <= v.criteriaScores[k].agentB <= hi
  }

  lemma {:induction false} MentioningWithin(votes: seq<JudgeVote>, c: string, lo: real, hi: real)
    requires forall i | 0 <= i < |votes| :: ScoresWithin(votes[i], lo, hi)
    ensures forall i | 0 <= i < |VotesMentioning(votes, c)| :: ScoresWithin(VotesMentioning(votes, c)[i], lo, hi)
  {
    if votes != [] {
      MentioningWithin(votes[..|votes| - 1], c, lo, hi);
    }
  }

  /** Scores within a range average within it, criterion by criterion. */
  lemma CriteriaAveragesBounded(votes: seq<JudgeVote>, c: string, lo: real, hi: real)
    requires forall i | 0 <= i < |votes| :: ScoresWithin(votes[i], lo, hi)
    requires c in CriteriaAverages(votes)
    ensures lo <= CriteriaAverages(votes)[c].agentAAvg <= hi
    ensures lo <= CriteriaAverages(votes)[c].agentBAvg <= hi
  {
    CriterionTotalsMeaning(votes, c);
    MentioningWithin(votes, c, lo, hi);
    var t, vm := CriterionTotals(votes, c), VotesMentioning(votes, c);
    assert forall i | 0 <= i < |vm| :: c in vm[i].criteriaScores && ScoresWithin(vm[i], lo, hi);
    MeanRealBounds(t.agentA, lo, hi);
    MeanRealBounds(t.agentB, lo, hi);
  }

  /** The score lists of every criterion seen. */
  function Gathered(votes: seq<JudgeVote>): map<string, Totals> {
    map c | c in CriteriaSeen(votes) :: CriterionTotals(votes, c)
  }

  /** One vote's scores appended to the lists (a new criterion starts empty lists). */
  function AddVote(totals: map<string, Totals>, scores: map<string, CriterionScore>): map<string, Totals> {
    map c | c in totals.Keys + scores.Keys :: if c in scores then Appended(totals, c, scores[c]) else totals[c]
  }

  /** `criteria_totals[c]["agent_a"].append(...)` and the same for agent_b. */
  function Appended(totals: map<string, Totals>, c: string, s: CriterionScore): Totals {
    var prior := if c in totals then totals[c] else Totals([], []);
    Totals(prior.agentA + [s.agentA], prior.agentB + [s.agentB])
  }

  /** The averages of gathered lists. */
  function Averaged(totals: map<string, Totals>): map<string, CriterionAverage> {
    map c | c in totals :: CriterionAverage(MeanReal(totals[c].agentA), MeanReal(totals[c].agentB))
  }

  /** Gathering vote by vote builds the lists of the reference definition. */
  lemma GatheredStep(votes: seq<JudgeVote>, i: nat)
    requires i < |votes|
    ensures Gathered(votes[..i + 1]) == AddVote(Gathered(votes[..i]), votes[i].criteriaScores)
  {
    var front := votes[..i];
    assert votes[..i + 1][..i] == front;
    forall c | c in votes[i].criteriaScores && c !in CriteriaSeen(front)
      ensures CriterionTotals(front, c) == Totals([], [])
    {
      UnseenCriterion(front, c);
    }
  }

  lemma AveragedGathered(votes: seq<JudgeVote>)
    ensures Averaged(Gathered(votes)) == CriteriaAverages(votes)
  {
  }

  /** Part way through one vote: the criteria left in `todo` are not yet appended. */
  ghost predicate GatherInvariant(totals: map<string, Totals>, scores: map<string, CriterionScore>, r: map<string, Totals>, todo: set<string>) {
    && todo <= scores.Keys
    && (forall c :: c in r <==> c in totals || (c in scores && c !in todo))
    && (forall c | c in r && (c in todo || c !in scores) :: r[c] == totals[c])
    && (forall c | c in scores && c !in todo :: r[c] == Appended(totals, c, scores[c]))
  }

  lemma GatherStep(totals: map<string, Totals>, scores: map<string, CriterionScore>, r: map<string, Totals>, todo: set<string>, c: string)
    requires GatherInvariant(totals, scores, r, todo) && c in todo
    ensures GatherInvariant(totals, scores, r[c := Appended(r, c, scores[c])], todo - {c})
  {
    assert Appended(r, c, scores[c]) == Appended(totals, c, scores[c]);
  }

  lemma GatherDone(totals: map<string, Totals>, scores: map<string, CriterionScore>, r: map<string, Totals>)
    requires GatherInvariant(totals, scores, r, {})
    ensures r == AddVote(totals, scores)
  {
    assert r.Keys == AddVote(totals, scores).Keys;
  }

  /** The inner loop of `_analyze_criteria`: one vote's scores, criterion by criterion. */
  method GatherVote(totals: map<string, Totals>, scores: map<string, CriterionScore>) returns (r: map<string, Totals>)
    ensures r == AddVote(totals, scores)
  {
    r := totals;
    var todo := scores.Keys;
    while todo != {}
      invariant GatherInvariant(totals, scores, r, todo)
      decreases |todo|
    {
      var c :| c in todo;
      GatherStep(totals, scores, r, todo, c);
      r := r[c := Appended(r, c, scores[c])];
      todo := todo - {c};
    }
    GatherDone(totals, scores, r);
  }

  /** `_analyze_criteria`: gather each criterion's scores vote by vote, then average them. */
  method AnalyzeCriteria(votes: seq<JudgeVote>) returns (averages: map<string, CriterionAverage>)
    ensures averages == CriteriaAverages(votes)
  {
    var totals := GatherVotes(votes);
    AveragedGathered(votes);
    averages := AverageTotals(totals);
  }

  /** The first loop of `_analyze_criteria`: each criterion's scores, vote by vote. */
  method GatherVotes(votes: seq<JudgeVote>) returns (totals: map<string, Totals>)
    ensures totals == Gathered(votes)
  {
    totals := map[];
    for i := 0 to |votes|
      invariant totals == Gathered(votes[..i])
    {
      GatheredStep(votes, i);
      totals := GatherVote(totals, votes[i].criteriaScores);
    }
    assert votes[..|votes|] == votes;
  }

  /** The second loop of `_analyze_criteria`: the mean of each criterion's scores. */
  method AverageTotals(totals: map<string, Totals>) returns (averages: map<string, CriterionAverage>)
    ensures averages == Averaged(totals)
  {
    averages := map[];
    var todo := totals.Keys;
    while todo != {}
      invariant todo <= totals.Keys
      invariant averages.Keys == totals.Keys - todo
      invariant forall c | c in averages :: averages[c] == Averaged(totals)[c]
      decreases |todo|
    {
      var c :| c in todo;
      averages := averages[c := CriterionAverage(MeanReal(totals[c].agentA), MeanReal(totals[c].agentB))];
      todo := todo - {c};
    }
  }

  // ---------------------------------------------------------------------
  // The collector.

  /** Recording one more message is one more step of each tally. */
  lemma RecordStep(ms: seq<Message>, m: Message)
    ensures TypeCounts(ms + [m]) == CountMessageType(TypeCounts(ms), m)
    ensures WordCountLists(ms + [m]) == AppendWordCount(WordCountLists(ms), m)
    ensures QuestionCounts(ms + [m]) == AddQuestions(QuestionCounts(ms), m)
  {
    assert (ms + [m])[..|ms|] == ms;
  }

  class MetricsCollector {
    var messageTypes: map<string, map<Kind, nat>>
    var wordCounts: map<string, seq<nat>>
    var rhetoricalQuestions: map<string, nat>
    /** The messages recorded so far, oldest first. */
    ghost var recorded: seq<Message>

    /** The maps are the tallies of the recorded messages. */
    ghost predicate Valid()
      reads this
    {
      && messageTypes == TypeCounts(recorded)
      && wordCounts == WordCountLists(recorded)
      && rhetoricalQuestions == QuestionCounts(recorded)
    }

    /** A collector starts with no tallies. */
    constructor ()
      ensures Valid() && recorded == []
      ensures messageTypes == map[] && wordCounts == map[] && rhetoricalQuestions == map[]
    {
      messageTypes := map[];
      wordCounts := map[];
      rhetoricalQuestions := map[];
      recorded := [];
    }

    /** `update_message_metrics`: record one message in the three maps. */
    method UpdateMessageMetrics(m: Message)
      requires Valid()
      modifies this
      ensures Valid() && recorded == old(recorded) + [m]
      ensures messageTypes == CountMessageType(old(messageTypes), m)
      ensures wordCounts == AppendWordCount(old(wordCounts), m)
      ensures rhetoricalQuestions == AddQuestions(old(rhetoricalQuestions), m)
    {
      RecordStep(recorded, m);
      messageTypes := CountMessageType(messageTypes, m);
      wordCounts := AppendWordCount(wordCounts, m);
      rhetoricalQuestions := AddQuestions(rhetoricalQuestions, m);
      recorded := recorded + [m];
    }

    /**
     * `get_final_metrics`: the summary of the collector's maps and of the
     * state's votes. It reads the collector and changes nothing.
     */
    function GetFinalMetrics(s: DebateState): (r: Metrics)
      reads this
      ensures r.averageWordCounts.Keys == r.totalWordCounts.Keys == wordCounts.Keys
      ensures |r.confidenceScores| == |s.judgeVotes|
      ensures forall i | 0 <= i < |s.judgeVotes| :: r.confidenceScores[i] == s.judgeVotes[i].confidence
      ensures r.criteriaAnalysis.Keys == CriteriaSeen(s.judgeVotes)
    {
      var averages := map a | a in wordCounts :: MeanNat(wordCounts[a]);
      var totals := map a | a in wordCounts :: SumNat(wordCounts[a]);
      Metrics(
        s.currentTurn - 1,
        |s.messages|,
        messageTypes,
        averages,
        totals,
        rhetoricalQuestions,
        JudgeAgreement(s.judgeVotes),
        seq(|s.judgeVotes|, i requires 0 <= i < |s.judgeVotes| => s.judgeVotes[i].confidence),
        CriteriaAverages(s.judgeVotes))
    }
  }

  /**
   * The summary of a valid collector in terms of the recorded messages:
   * an agent's total words is the sum of its messages' word counts, and
   * its average is that total over its number of messages.
   */
  lemma FinalWordCounts(c: MetricsCollector, s: DebateState, agent: string)
    requires c.Valid()
    ensures var r := c.GetFinalMetrics(s); var mine := MessagesBy(c.recorded, agent);
      && (agent in r.totalWordCounts <==> mine != [])
      && (agent in r.totalWordCounts ==>
            && r.totalWordCounts[agent] == SumNat(WordCounts(mine))
            && r.averageWordCounts[agent] == SumNat(WordCounts(mine)) as real / |mine| as real)
  {
    WordCountListsMeaning(c.recorded, agent);
  }
}
