# Debate system: a verified model of the debate graph

The debate system stages a formal debate between two ideological agents,
"Agent A" and "Agent B", on a topic. Each speaks once per turn for ten turns,
A first. After the last turn a panel of three judges reads the transcript and
votes. The side with the most votes wins, and a metrics collector summarises
the debate.

This project models in Dafny:

- the debate graph: its four nodes, its edges, the merging of the state
  updates the nodes return, and the initial state of `run`;
- the debater's parse of the generated reply and the context it sends;
- the judge's vote: the JSON block, the fallback heuristic, the defaults and
  the per-criterion winner;
- the transcript a judge is shown;
- the metrics collector, whose maps are updated one message at a time.

Modules follow the source files:

| Module | File | Source |
|---|---|---|
| `Wrappers` | `wrappers.dfy` | `Option` and `Result` |
| `Text` | `text.dfy` | the string operations the source calls: `strip`, `lower`, `startswith`, `index`, `in`, slicing, `count`, `split`, `join` and `str` of an integer |
| `State` | `state.dfy` | `graph/state.py` |
| `Debater` | `debater.dfy` | `agents/debater.py` |
| `Judge` | `judge.dfy` | `agents/judge.py`, including the `re.search(r'\{.*\}')` block (`Judge.JsonBlock`) |
| `DebateMetrics` | `metrics.dfy` | `utils/metrics.py` |
| `Workflow` | `workflow.dfy` | `graph/workflow.py` |

## Inputs the model takes as parameters

**The text generator.** The language model behind every agent is the
`State.Generator` parameter. It maps a caller id and a prompt to a reply, or
to `None` when the call fails. The prompt is the context (debaters) or the
transcript (judges) the source builds. The system prompts are not part of
the model.

**The JSON decoder.** `json.loads` is the `Judge.Decoder` parameter. It maps
the candidate block to an object, or to `None` when decoding fails.

**Validation errors.** Exceptions that end a debate become `State.Error`
values, returned through `Result`:

- a failed generation;
- a message kind outside the five labels;
- a vote field of the wrong type;
- a criterion that is not a map of numbers.

A `run` that meets one stops with that error.

## How the run is specified

`Workflow.Debate` is a reference definition of the whole debate, written as
plain functions. `Workflow.Play` folds the two debaters' responses over the
twenty turns, merging each by appending its message, as the nodes intend
(`Workflow.Apply`; the graph as declared replaces the list instead, see
"## Findings"); the first failed response is
the debate's error. `Workflow.Judging` then asks every judge in panel order.
The method `Workflow.DebateWorkflow.Run`, which walks the graph node by node
and updates the collector, is proved equal to that definition followed by
`Workflow.Decided`, on success and on error alike.

Some functions carry no contract of their own, because lemmas state what
they mean:

- `Workflow.Apply`, the merge, by `TurnOfAEffect`, `TurnOfBEffect` and
  `JudgedEffect`;
- `Workflow.Collect` and `Workflow.PanelVotes` by `CollectMeaning`,
  `CollectStops` and `CollectKeepsJudges`;
- `Workflow.Next` by `NextEdges` and `NextAfterDebater`, and
  `Workflow.ShouldContinue` by `ContinuesWhileTurnsLeft`;
- `Text.StartsWith` by `StartsWithMeaning`.

## Model

| member | source | states |
|---|---|---|
| State.ParticipantFromName | graph/state.py:20 | exactly the two names "Agent A" and "Agent B" validate, each to its own side |
| State.KindFromLabel | graph/state.py:13 | exactly the five labels validate, each to its own kind |
| Text.Strip | agents/debater.py:66-67 | the result starts and ends with a non-blank character, or is empty |
| Text.StripCutsBlanks | agents/debater.py:66-67 | `strip()` removes the leading and the trailing run of blanks and keeps the rest |
| Text.StripSurrounded | agents/debater.py:66-67 | blanks around a stripped text are removed and the text is returned unchanged |
| Text.StripIdempotent | agents/debater.py:66-67 | stripping twice is stripping once |
| Text.IndexOf | agents/debater.py:65 | `index("]")` finds the first `]`; there is no position exactly when the reply has no `]` |
| Text.FirstOccurrence | agents/debater.py:65 | a position holding `]` with none before it is what `index` returns |
| Text.LastIndexOf | agents/judge.py:92 | the last `}` of the reply; there is no position exactly when there is no `}` |
| Text.LastOccurrence | agents/judge.py:92 | a position holding `}` with none after it is what the search picks |
| Text.Contains | agents/judge.py:141 | substring membership holds exactly when the needle occurs at some position |
| Text.NotContainsWithoutFirst | agents/judge.py:141 | a text lacking the needle's first character does not contain the needle |
| Text.Take | agents/judge.py:125-126 | a slice `[:n]` is the prefix of length min(n, length) |
| Text.CountCharMeaning | utils/metrics.py:29 | `count("?")` is the number of `?` in the content, 0 exactly when there is none |
| Text.Split | utils/metrics.py:25 | every piece of `split()` is non-empty and holds no blank |
| Text.SplitSeparates | utils/metrics.py:25 | `split()` yields the content's words in order: the content is its pieces laid out between runs of blanks, with at least one blank between each two pieces |
| Text.SplitUnique | utils/metrics.py:25 | conversely, any non-blank pieces laid out that way between blanks are exactly what `split()` yields |
| Text.SplitConcat | utils/metrics.py:25 | the pieces of `split()`, put together, are the content's non-blank characters in order |
| Text.SplitEmptyIffBlank | utils/metrics.py:25 | `split()` gives no pieces exactly when the content is all blanks |
| Text.WordCountIsSplitLength | utils/metrics.py:25 | the word count is `len(content.split())` |
| Text.WordCountZeroIffBlank | utils/metrics.py:25 | a message counts no words exactly when its content is all blanks |
| Text.CountChar | utils/metrics.py:29-30 | `count("?")` is at most the length, and 0 exactly when there is no `?`, so the tally is raised only for a message that has one |
| Text.Lower | agents/debater.py:66 | `lower()` keeps the length, turns each capital into the matching small letter (32 code points on), and changes no other character |
| Text.StartsWithMeaning | agents/debater.py:63 | `startswith("[TYPE:")` holds exactly when the reply is the tag followed by something |
| Text.Join | agents/debater.py:103 | `"\n".join(parts)` is empty for no parts; otherwise it starts with the first part and is as long as all the parts plus one separator between each two |
| Text.JoinPlaces | agents/debater.py:103 | in `"\n".join(parts)`, each part sits at its offset (the earlier parts' lengths plus one separator each), and the separator fills the gap between each part and the next |
| Text.IntToString | agents/debater.py:82 | `str(n)` is a minus sign exactly for a negative number, then decimal digits with no leading zero except for 0 itself |
| Text.IntToStringValue | agents/debater.py:82 | the digits of `str(n)` after the sign read back as the magnitude of `n` |
| Debater.ParseReply | agents/debater.py:59-69 | a reply starting with `[TYPE:` that has a `]` gives the stripped, lower-cased text up to the first `]` and the stripped rest; any other reply keeps the label "argument" and is kept whole |
| Debater.ReplyMessage | agents/debater.py:60-76 | the message carries the debater's id, the current turn, the parsed body and the parsed kind; a failed generation and a label outside the five kinds are errors |
| Debater.UntaggedReplyIsArgument | agents/debater.py:61-63 | a reply without the tag becomes an argument holding the whole reply |
| Debater.TaggedBodyIsStripped | agents/debater.py:67 | the content after a closed tag has no leading or trailing blanks |
| Debater.UnclosedTagIsArgument | agents/debater.py:63-69 | a tag that is never closed is ignored: the reply becomes an argument, kept whole |
| Debater.TaggedReplyRoundTrip | agents/debater.py:46-47 | a reply written as the instructions ask, `[TYPE: kind] body`, parses back to that kind and body |
| Debater.RebuttalExample | agents/debater.py:63-67 | `[TYPE: rebuttal] body` becomes a rebuttal whose content is `body` |
| Debater.PrepareContext | agents/debater.py:78-103 | the context is the header lines, the history section and the final-turn notice, joined with newlines |
| Debater.AppendHistory | agents/debater.py:89-92 | the loop adds one line per recent message, in order |
| Debater.ContextLength | agents/debater.py:80-101 | the context has four header lines, one heading plus at most six history lines when there is history, and one notice line on a final turn |
| Debater.ContextHistory | agents/debater.py:87-92 | after the heading come the last six messages (all of them when fewer), oldest first |
| Debater.HistoryLineIsNotNotice | agents/debater.py:90-92 | a history line can never be mistaken for the final-turn notice |
| Debater.ContextNotice | agents/debater.py:94-101 | the last line is the final-turn notice exactly on Agent A's turn 9 and Agent B's turn 10 |
| Debater.GenerateResponse | agents/debater.py:49-76 | the debater sends its context to the generator and turns the reply into this turn's message |
| Judge.JsonBlock | agents/judge.py:92-97 | the block runs from the first `{` to the last `}`; there is none exactly when no `{` comes before some `}` |
| Judge.JsonBlockAt | agents/judge.py:92-94 | whenever the first `{` comes before the last `}`, the block is exactly the text between them, both included |
| Judge.Evaluation | agents/judge.py:89-100 | the evaluation is the decoded block when there is a block and it decodes, and the fallback evaluation otherwise |
| Judge.Verdict | agents/judge.py:89-119 | the vote carries the judge's id, and a reply without a decodable block always yields a vote |
| Judge.FallbackWithoutA | agents/judge.py:141 | without usable JSON, a reply with no `A` in its first 100 characters is a vote for Agent B |
| Judge.FallbackEvaluation | agents/judge.py:137-146 | the fallback votes for Agent A exactly when "Agent A" is in the first 100 characters, with confidence -1, the reply as reasoning and no criteria |
| Judge.ScoreOf | agents/judge.py:104-111 | a criterion needs both scores to be numbers (missing ones count as 0); agent_a wins it exactly when strictly ahead |
| Judge.ScoreOfMeaning | agents/judge.py:105-110 | the scores are copied, a tie goes to agent_b, and a criterion with no scores is 0 to 0 won by agent_b |
| Judge.ScoreCriteria | agents/judge.py:103-111 | the loop aggregates every criterion on its own, or stops at the first malformed one |
| Judge.ScoredCriteriaKeys | agents/judge.py:103-111 | the aggregated criteria keep their keys |
| Judge.VoteOf | agents/judge.py:103-119 | the vote carries the judge's id; it fails only on malformed criteria or a badly typed field |
| Judge.FallbackVerdict | agents/judge.py:90-100 | a reply with no decodable block always yields the fallback vote |
| Judge.DecodedVerdict | agents/judge.py:90-95 | a decoded block is the evaluation, and the heuristic is not consulted |
| Judge.VoteDefaults | agents/judge.py:113-119 | missing fields take their defaults: winner Agent A, confidence -2, empty reasoning, no criteria |
| Judge.EmptyObjectVerdict | agents/judge.py:113-119 | an empty object is a vote for Agent A with confidence -2 |
| Judge.VoteRoundTrip | agents/judge.py:54-76 | a vote written in the requested JSON format reads back as the same vote, whatever other fields (`key_moments`, `strengths`, `weaknesses`) the object carries, provided each criterion's winner agrees with its scores |
| Judge.CriteriaRoundTrip | agents/judge.py:59-66 | the requested criteria format reads back as the same criteria |
| Judge.JudgeVerdict | agents/judge.py:78-119 | the vote carries the judge's own id; a failure is a generation error or a vote error for that judge |
| Judge.EvaluateDebate | agents/judge.py:78-119 | the judge sends the transcript to the generator and turns the reply into its vote |
| Judge.PrepareTranscript | agents/judge.py:121-135 | the transcript is the four header lines and one entry per message, joined with newlines |
| Judge.TranscriptShape | agents/judge.py:123-133 | the transcript lists the topic, both positions cut to their first 200 characters and followed by "...", the transcript heading, then every message once, in debate order |
| Judge.VoteAsDeclared | graph/state.py:23 | with the declared score type a vote validates only when it has no criteria |
| Judge.RequestedFormatRejectedAsDeclared | graph/state.py:23 | with the declared score type, a reply in the requested format with any criterion is rejected, whatever other fields it carries, although the aggregated vote reads back |
| DebateMetrics.TypeCountsMeaning | utils/metrics.py:22 | the kind tally counts each agent's messages of each kind; an entry exists exactly when there is such a message |
| DebateMetrics.CountMessageType | utils/metrics.py:22 | `message_types[agent][kind] += 1` gives the agent an entry and raises the count of the message's kind by one |
| DebateMetrics.AppendWordCount | utils/metrics.py:25-26 | the agent's list gets the message's word count at its end, created when absent; other agents' lists are unchanged |
| DebateMetrics.AddQuestions | utils/metrics.py:28-31 | the agent's entry is raised by the number of `?`, and created, only when that number is positive; other agents' entries are unchanged |
| DebateMetrics.CountMessageTypeChanges | utils/metrics.py:22 | recording a message raises its own (agent, kind) count by one and no other |
| DebateMetrics.WordCountListsMeaning | utils/metrics.py:25-26 | an agent's word-count list holds one entry per message of that agent, in order |
| DebateMetrics.QuestionCountsMeaning | utils/metrics.py:29-31 | an agent's question tally is its total of `?`; the entry exists only when that total is positive |
| DebateMetrics.RecordStep | utils/metrics.py:19-31 | recording one more message is one more step of each tally |
| DebateMetrics.MetricsCollector.constructor | utils/metrics.py:13-17 | a collector starts with empty maps |
| DebateMetrics.MetricsCollector.UpdateMessageMetrics | utils/metrics.py:19-31 | each of the three maps takes one step for the message, and the maps remain the tallies of every message recorded |
| DebateMetrics.MetricsCollector.GetFinalMetrics | utils/metrics.py:33-52 | one average and one total per agent with words; one confidence per vote, in order; one analysis entry per criterion named by some vote |
| DebateMetrics.FinalWordCounts | utils/metrics.py:39-45 | an agent's total is the sum of its messages' word counts, and its average is that total over its number of messages |
| DebateMetrics.MeanRealBounds | utils/metrics.py:77-88 | a mean lies between the bounds of what it averages |
| DebateMetrics.TallyPartition | utils/metrics.py:59-61 | every vote is for one of the two sides |
| DebateMetrics.JudgeAgreement | utils/metrics.py:54-63 | 0 without votes; otherwise the largest side's share, between one half and one |
| DebateMetrics.ThreeJudgesAgreement | utils/metrics.py:54-63 | three judges agree two to one or unanimously |
| DebateMetrics.CriterionTotalsMeaning | utils/metrics.py:67-72 | a criterion's lists are the scores of the votes that name it, in vote order |
| DebateMetrics.GatherVote | utils/metrics.py:70-72 | the inner loop appends one vote's scores criterion by criterion |
| DebateMetrics.CriteriaAverages | utils/metrics.py:65-90 | one average pair for each criterion that some vote names, and no other |
| DebateMetrics.GatherVotes | utils/metrics.py:69-72 | the first loop gathers, for every criterion, the scores of the votes that name it |
| DebateMetrics.AverageTotals | utils/metrics.py:75-88 | the second loop gives each gathered criterion the means of its two lists |
| DebateMetrics.AnalyzeCriteria | utils/metrics.py:65-90 | the result is the per-criterion averages over the votes that name each criterion |
| DebateMetrics.CriteriaAveragesBounded | utils/metrics.py:74-88 | scores within a range average within that range |
| Workflow.ContinuesWhileTurnsLeft | graph/workflow.py:87-89 | `should_continue_debate` holds exactly while debater turns remain, that is up to turn 10 |
| Workflow.NextEdges | graph/workflow.py:50-66 | only the final node leads to the end, only the judges lead to the final node, and a debater's node leads to the judges only once the debate should stop |
| Workflow.NextAfterDebater | graph/workflow.py:50-60 | after a debater's node the graph goes to the other debater while the turn is at most 10, and to the judges after that |
| Workflow.TurnOfAEffect | graph/workflow.py:70-76 | A's node adds exactly its message and passes the floor to B |
| Workflow.TurnOfBEffect | graph/workflow.py:78-85 | B's node adds exactly its message, advances the turn by one and passes the floor to A |
| Workflow.JudgedEffect | graph/workflow.py:95-98 | merging the judges' update sets the votes and the completion flag and keeps everything else, so the state they were shown can be recovered |
| Workflow.ApplyAsDeclared | graph/state.py:32 | with the declared merge a returned message list replaces the history; every other key is merged as with appending, and the two merges agree on an empty history |
| Workflow.HistoryLostAsDeclared | graph/state.py:32 | with the declared merge, after the first two turns the state holds only B's message; with appending it holds both |
| Workflow.InitialState | graph/workflow.py:120-131 | the debate starts on turn 1 with Agent A to speak and no messages, votes, winner or metrics |
| Workflow.AfterA | graph/workflow.py:50-54 | A's merged turn leads to B's node on the same turn, and fewer nodes remain |
| Workflow.AfterB | graph/workflow.py:56-60 | B's merged turn leads back to A's node on the next turn, or to the judges after turn 10, and fewer nodes remain |
| Workflow.RoundsShape | graph/workflow.py:50-66 | the nodes visited in n rounds alternate A, B, starting with A |
| Workflow.Panel | graph/workflow.py:29 | the panel has three judges |
| Workflow.PanelNames | graph/workflow.py:29 | the judges are "Judge 1", "Judge 2" and "Judge 3", in that order |
| Workflow.Outcomes | graph/workflow.py:93-94 | one outcome per judge, in panel order, each vote carrying its judge's id |
| Workflow.CollectMeaning | graph/workflow.py:92-94 | collecting the judges' outcomes succeeds exactly when every judge votes, and then gives all the votes in order; otherwise it gives the first failing judge's error |
| Workflow.CollectStops | graph/workflow.py:93-94 | a failing judge ends the evaluation, whatever the later judges would do |
| Workflow.CollectKeepsJudges | graph/workflow.py:92-94 | the collected votes come one per judge, each with that judge's id |
| Workflow.FirstMax | graph/workflow.py:108 | `max` picks one of the keys |
| Workflow.FirstMaxMeaning | graph/workflow.py:108 | the picked key has the largest count, and every key before it has a smaller one |
| Workflow.DecideIff | graph/workflow.py:103-108 | Agent B wins exactly with strictly more votes; every tie, including no votes at all, goes to Agent A |
| Workflow.DecideIsMajority | graph/workflow.py:103-108 | the winner holds at least as many votes as the other side |
| Workflow.CountVotes | graph/workflow.py:103-105 | the counting loop gives each side the number of votes for it |
| Workflow.Decided | graph/workflow.py:100-113 | the final state names the decided winner |
| Workflow.DecidedEffect | graph/workflow.py:108-111 | the final node sets the winner, then the metrics of the state with the winner, and changes nothing else |
| Workflow.EndReached | graph/workflow.py:63 | setting the winner and the metrics at the final node reaches the end |
| Workflow.PlayStops | graph/workflow.py:139 | once a debater's turn fails, the run stays failed with that error |
| Workflow.PlayMessages | graph/workflow.py:70-85 | after some successful turns, each new message is the reply of its speaker to the state before it |
| Workflow.PlayFails | graph/workflow.py:139 | a failed sequence of turns failed at one turn, every earlier turn having succeeded, with that turn's error |
| Workflow.DebateFailsAt | graph/workflow.py:139 | a debater's turn that fails within the rounds ends the whole debate with its error |
| Workflow.JudgedDebate | graph/workflow.py:91-98 | twenty turns from turn 1 and the panel's verdict on them are the reference debate, with one vote per judge in panel order |
| Workflow.DebateMessages | graph/workflow.py:70-85 | in a debate that reaches the final node, the `i`-th message is the response of the `i`-th speaker to the debate as it stood before it |
| Workflow.DebateFails | graph/workflow.py:139 | a debate that fails failed at a debater's turn, all earlier ones having succeeded, or after all the turns at the first judge whose verdict is an error |
| Workflow.DebateWorkflow.constructor | graph/workflow.py:18-29 | the debaters are "Agent A" and "Agent B" with the topic's personas; the panel is the three judges; the collector is new and empty |
| Workflow.DebateWorkflow.AgentATurnNode | graph/workflow.py:70-76 | A's response is recorded by the collector and returned with the floor passed to B; a failed response is returned as an error and nothing is recorded |
| Workflow.DebateWorkflow.AgentBTurnNode | graph/workflow.py:78-85 | B's response is recorded and returned with the turn advanced and the floor passed to A; a failure records nothing |
| Workflow.DebateWorkflow.JudgeEvaluationNode | graph/workflow.py:91-98 | every judge votes once, in panel order, and the debate is marked complete; the first failing judge's error ends the node |
| Workflow.DebateWorkflow.FinalDecisionNode | graph/workflow.py:100-113 | the vote-count loop and `max` give the decided winner, then the metrics of that state |
| Workflow.DebateWorkflow.StepA | graph/workflow.py:50-54 | running A's node and merging its update is the next turn of the reference debate: it succeeds exactly when A's response does, with that response's error otherwise; on success it reaches B's node, adds exactly A's response to the history and to the collector |
| Workflow.DebateWorkflow.StepB | graph/workflow.py:56-60 | running B's node and merging its update is the next turn of the reference debate: it succeeds exactly when B's response does, with that response's error otherwise; on success it follows B's edge, adds exactly B's response to the history and to the collector |
| Workflow.DebateWorkflow.StepJudges | graph/workflow.py:62 | the judging node merged into the state is the reference judging: it fails with the first failing judge's error, and otherwise reaches the final node with the panel's votes, one per judge with that judge's id |
| Workflow.DebateWorkflow.Judges | graph/workflow.py:62 | the panel's votes merged into the state they were given lead to the final node |
| Workflow.DebateWorkflow.StepFinal | graph/workflow.py:63 | after the final node the graph ends with the decided state: the winner and the metrics set and nothing else changed |
| Workflow.DebateWorkflow.Decides | graph/workflow.py:63 | the decision at the final node completes the run |
| Workflow.DebateWorkflow.Finishes | graph/workflow.py:63 | setting the winner and the metrics keeps what the run knew and reaches the end |
| Workflow.DebateWorkflow.Exchange | graph/workflow.py:50-60 | the debaters' part of `invoke` is the reference sequence of twenty turns from the initial state, ending at the judges' node on success |
| Workflow.DebateWorkflow.Turn | graph/workflow.py:50-60 | one debater's node and its conditional edge: the next turn of the reference sequence; an error is the error of the whole sequence; fewer nodes remain on success |
| Workflow.DebateWorkflow.Fails | graph/workflow.py:139 | a failing debater's turn is the error of all the debate's turns |
| Workflow.DebateWorkflow.Invoke | graph/workflow.py:139 | `invoke` on the initial state either ends at the final node's decided state or fails with the reference debate's error |
| Workflow.DebateWorkflow.Concluded | graph/workflow.py:115-141 | a run that reaches the end computed the reference debate from its initial state, and the votes are the panel's |
| Workflow.DebateWorkflow.Run | graph/workflow.py:115-141 | the run succeeds exactly when the reference debate from the initial state succeeds (twenty debater responses, then every judge's verdict), fails with that debate's error otherwise, and on success is that debate with the decision taken; a completed run has topic and personas unchanged and twenty messages alternating A and B, two per turn; it ends on turn 11 with the debate complete; the votes are the panel's, in order; the winner is the majority side with ties to A; the metrics are the collector's; the collector has recorded the twenty messages after what it held before; the graph visited ten rounds of A and B, then the judges, then the final node |

## Left out

- The language model, its API keys and its rotation (`utils/api_manager.py`) are not modelled. Generation is the `Generator` parameter, and a failed call is an error.
- The debater's and the judge's system prompts and the prompt templates are not modelled. Only the context and the transcript they are filled with are.
- `json.loads` is the `Decoder` parameter, so the model does not decide which strings are valid JSON.
- Persona selection (`PersonaManager`, `agents/personas.py`) is not modelled. The personas are parameters of the `DebateWorkflow` constructor.
- `generate_metrics_report`, plotting, and `main.py` (printing and saving results) are not modelled.
- `response_times` is never filled in the source, so it is not modelled.
- Message timestamps and the `datetime` in the thread id are not modelled.
- The in-memory saver of graph snapshots and the thread configuration are not modelled. The recursion limit is not modelled either; a full run takes 22 steps.
- Floating point is modelled as exact reals. Averages, the agreement ratio and scores carry no rounding.
- Pydantic's lax coercions are not modelled. An integer given for a float field is covered because numbers are reals, but a numeric string for a number, or a non-numeric score that Python would compare anyway, is an error in the model.
- `lower()` is modelled on ASCII letters only.
- Dictionary iteration order matters only for `max` in `final_decision`. It is modelled by the fixed key order A, B of the count dictionary. The other maps are unordered.
- `Run` starts from the collector's current records, so running a workflow twice accumulates tallies, as the source does. The model does not reset the collector.
- `final_decision` returns the whole state instead of an update. The model takes that state as the new state rather than merging it. Under an appending merge for `messages`, the returned list would be appended to itself.
- `metrics={}` in the initial state is modelled as `None`.

## Findings

| source | as written | input that shows it | evidently intended | confidence | as-written member | corrected member |
|---|---|---|---|---|---|---|
| graph/state.py:32 | `messages: List[Message]` declares no reducer, so each returned `messages` key replaces the list, although graph/workflow.py:74 relies on appending | any run: after A's and B's first turns the state holds B's message alone, so the context and the transcript lose the history | messages are appended (`Annotated[List[Message], operator.add]`) | not executed | Workflow.HistoryLostAsDeclared | Workflow.DebateWorkflow.Run |
| graph/state.py:23 | `criteria_scores: Dict[str, float]`, while agents/judge.py:107-111 stores a dict of two scores and a winner per criterion | a reply in the requested format with any criterion, e.g. `{"winner": "Agent A", "criteria_scores": {"clarity": {"agent_a": 8, "agent_b": 7}}}`, fails validation of the vote | the declared type holds one aggregated record per criterion | not executed | Judge.RequestedFormatRejectedAsDeclared | Judge.VoteRoundTrip |
