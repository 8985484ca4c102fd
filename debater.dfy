/**
 * A debater turns the text generator's reply into a typed message, and
 * builds the context it sends to the generator. The generator itself is
 * not modelled: its reply is an input (None when the call fails).
 */
module Debater {
  import opened Wrappers
  import opened State
  import opened Text

  datatype Debater = Debater(agentId: string, persona: string)

  /** The tag a reply is asked to start with, up to the label. */
  const TagOpen: string := "[TYPE:"

  /** The kind given to a reply without a usable tag. */
  const DefaultLabel: string := "argument"

  /** The label taken from a reply (not yet validated) and the message body. */
  datatype ParsedReply = ParsedReply(kindName: string, body: string)

  /**
   * The tag parse of `generate_response`. A reply that starts with the tag
   * and has a closing bracket yields the text between the tag and the first
   * `]` (stripped and lower-cased) and the stripped text after it; any
   * other reply keeps the default label and is the body unchanged.
   */
  function ParseReply(reply: string): (r: ParsedReply)
    ensures !StartsWith(reply, TagOpen) || ']' !in reply ==> r == ParsedReply(DefaultLabel, reply)
    ensures StartsWith(reply, TagOpen) && ']' in reply ==>
      exists e | |TagOpen| <= e < |reply| ::
        && reply[e] == ']' && ']' !in reply[..e]
        && r == ParsedReply(Lower(Strip(reply[|TagOpen|..e])), Strip(reply[e + 1..]))
  {
    if StartsWith(reply, TagOpen) then
      match IndexOf(reply, ']')
      case Some(e) =>
        assert e >= |TagOpen| by {
          assert forall i | 0 <= i < |TagOpen| :: reply[i] == TagOpen[i] != ']';
        }
        ParsedReply(Lower(Strip(reply[|TagOpen|..e])), Strip(reply[e + 1..]))
      case None => ParsedReply(DefaultLabel, reply)
    else
      ParsedReply(DefaultLabel, reply)
  }

  /**
   * The message `generate_response` builds once the reply is known: it carries the
   * debater's id and the current turn; a label outside the five kinds is
   * rejected by the message's type, which aborts the debate.
   */
  function ReplyMessage(agentId: string, turn: int, reply: Option<string>): (r: Result<Message, Error>)
    ensures reply.None? ==> r == Err(GenerationFailed(agentId))
    ensures reply.Some? ==> (r.Ok? <==> KindFromLabel(ParseReply(reply.value).kindName).Some?)
    ensures reply.Some? && r.Err? ==> r.error == InvalidKind(ParseReply(reply.value).kindName)
    ensures r.Ok? ==>
      && r.value.agent == agentId && r.value.turn == turn
      && r.value.content == ParseReply(reply.value).body
      && KindLabel(r.value.kind) == ParseReply(reply.value).kindName
  {
    match reply
    case None => Err(GenerationFailed(agentId))
    case Some(text) =>
      var parsed := ParseReply(text);
      match KindFromLabel(parsed.kindName)
      case Some(k) => Ok(Message(agentId, parsed.body, turn, k))
      case None => Err(InvalidKind(parsed.kindName))
  }

  /** A reply that does not start with the tag is an argument, kept whole. */
  lemma UntaggedReplyIsArgument(agentId: string, turn: int, reply: string)
    requires !StartsWith(reply, TagOpen)
    ensures ReplyMessage(agentId, turn, Some(reply)) == Ok(Message(agentId, reply, turn, Argument))
  {
  }

  /** A tag that is never closed is ignored: the reply is an argument, kept whole. */
  lemma UnclosedTagIsArgument(agentId: string, turn: int, reply: string)
    requires StartsWith(reply, TagOpen) && ']' !in reply
    ensures ReplyMessage(agentId, turn, Some(reply)) == Ok(Message(agentId, reply, turn, Argument))
  {
  }

  /** The body after a closed tag carries no surrounding blanks: stripping it again changes nothing. */
  lemma TaggedBodyIsStripped(reply: string)
    requires StartsWith(reply, TagOpen) && ']' in reply
    ensures Strip(ParseReply(reply).body) == ParseReply(reply).body
  {
    var e := IndexOf(reply, ']').value;
    var after := reply[e + 1..];
    assert ParseReply(reply).body == Strip(after);
    StripIdempotent(after);
  }

  /** The reply layout the debater's instructions ask for. */
  function TaggedReply(k: Kind, body: string): string {
    "[TYPE: " + KindLabel(k) + "] " + body
  }

  lemma LowerOfLowercase(s: string)
    requires forall i | 0 <= i < |s| :: 'a' <= s[i] <= 'z'
    ensures Lower(s) == s
  {
  }

  lemma LetterIsNotSpace(c: char)
    requires 'a' <= c <= 'z'
    ensures !IsSpace(c)
  {
  }

  lemma LabelIsPlain(k: Kind)
    ensures IsStripped(KindLabel(k)) && Lower(KindLabel(k)) == KindLabel(k) && ']' !in KindLabel(k)
    ensures |KindLabel(k)| > 0 && forall i | 0 <= i < |KindLabel(k)| :: 'a' <= KindLabel(k)[i] <= 'z'
  {
    var l := KindLabel(k);
    assert forall i | 0 <= i < |l| :: 'a' <= l[i] <= 'z';
    LowerOfLowercase(l);
    LetterIsNotSpace(l[0]);
    LetterIsNotSpace(l[|l| - 1]);
  }

  /** How a reply in the requested layout splits at its first `]`. */
  lemma TaggedReplyPieces(l: string, body: string)
    requires ']' !in l
    ensures var reply := "[TYPE: " + l + "] " + body;
      var e := 7 + |l|;
      && e < |reply| && reply[e] == ']' && ']' !in reply[..e]
      && StartsWith(reply, TagOpen)
      && reply[|TagOpen|..e] == [' '] + l
      && reply[e + 1..] == [' '] + body
  {
    var reply := "[TYPE: " + l + "] " + body;
    var head := "[TYPE: " + l;
    assert reply == head + "] " + body;
    assert reply[..7 + |l|] == head;
    assert ']' !in "[TYPE: ";
    assert reply[..|TagOpen|] == TagOpen;
  }

  /** One blank before a stripped string is removed by `strip()`. */
  lemma StripAfterBlank(t: string)
    requires IsStripped(t)
    ensures Strip([' '] + t) == t
  {
    assert IsSpace(' ');
    assert [' '] + t + [] == [' '] + t;
    StripSurrounded([' '], t, []);
  }

  /**
   * A well-formed tagged reply parses back to its kind and its body, and
   * becomes a message of that kind: parsing inverts the requested layout.
   */
  lemma TaggedReplyRoundTrip(agentId: string, turn: int, k: Kind, body: string)
    requires IsStripped(body)
    ensures ParseReply(TaggedReply(k, body)) == ParsedReply(KindLabel(k), body)
    ensures ReplyMessage(agentId, turn, Some(TaggedReply(k, body))) == Ok(Message(agentId, body, turn, k))
  {
    var l := KindLabel(k);
    var reply := TaggedReply(k, body);
    LabelIsPlain(k);
    TaggedReplyPieces(l, body);
    FirstOccurrence(reply, ']', 7 + |l|);
    StripAfterBlank(l);
    StripAfterBlank(body);
  }

  /** The example of a tagged reply: `[TYPE: rebuttal] body`. */
  lemma RebuttalExample(agentId: string, turn: int)
    ensures ReplyMessage(agentId, turn, Some("[TYPE: rebuttal] body")) == Ok(Message(agentId, "body", turn, Rebuttal))
  {
    var body := "body";
    assert !IsSpace(body[0]) && !IsSpace(body[3]);
    assert TaggedReply(Rebuttal, body) == "[TYPE: rebuttal] body";
    TaggedReplyRoundTrip(agentId, turn, Rebuttal, body);
  }

  /** The notice added to the context of a debater's last turn. */
  const FinalNotice: string := "\nThis is your FINAL turn. Make your closing argument compelling and memorable."

  /** How many recent messages the context shows, and how much of each. */
  const HistoryWindow: nat := 6
  const ContentLimit: nat := 500

  /** The turn on which the source tells each debater it speaks for the last time. */
  predicate IsFinalTurn(agentId: string, turn: int) {
    (turn == 9 && agentId == "Agent A") || (turn == 10 && agentId == "Agent B")
  }

  function HistoryLine(m: Message): string {
    m.agent + " (" + KindLabel(m.kind) + "): " + Take(m.content, ContentLimit) + "..."
  }

  /** One history line per message, in order. */
  function HistoryLines(ms: seq<Message>): (lines: seq<string>)
    ensures |lines| == |ms|
  {
    seq(|ms|, j requires 0 <= j < |ms| => HistoryLine(ms[j]))
  }

  lemma HistoryLinesMeaning(ms: seq<Message>)
    ensures forall j | 0 <= j < |ms| :: HistoryLines(ms)[j] == HistoryLine(ms[j])
  {
  }

  lemma HistoryLinesStep(ms: seq<Message>, i: nat)
    requires i < |ms|
    ensures HistoryLines(ms[..i + 1]) == HistoryLines(ms[..i]) + [HistoryLine(ms[i])]
  {
    assert ms[..i + 1][..i] == ms[..i];
  }

  /** The slice `ms[-n:]`. */
  function LastN(ms: seq<Message>, n: nat): seq<Message> {
    if |ms| <= n then ms else ms[|ms| - n..]
  }

  function ContextHeader(agentId: string, s: DebateState): seq<string> {
    [ "Debate Topic: " + s.topic,
      "Current Turn: " + IntToString(s.currentTurn) + " of 10",
      "You are: " + agentId,
      "" ]
  }

  function HistorySection(ms: seq<Message>): seq<string> {
    if ms == [] then [] else ["Debate History:"] + HistoryLines(LastN(ms, HistoryWindow))
  }

  function NoticeSection(agentId: string, turn: int): seq<string> {
    if IsFinalTurn(agentId, turn) then [FinalNotice] else []
  }

  /** The lines of `_prepare_context`, before they are joined with newlines. */
  function ContextParts(agentId: string, s: DebateState): seq<string> {
    ContextHeader(agentId, s) + HistorySection(s.messages) + NoticeSection(agentId, s.currentTurn)
  }

  /** `_prepare_context`: the context sent to the text generator for one turn. */
  method PrepareContext(d: Debater, s: DebateState) returns (context: string)
    ensures context == Join(ContextParts(d.agentId, s), "\n")
  {
    var parts := ContextHeader(d.agentId, s);
    if |s.messages| > 0 {
      parts := parts + ["Debate History:"];
      parts := AppendHistory(parts, LastN(s.messages, HistoryWindow));
    }
    ghost var before := parts;
    assert before == ContextHeader(d.agentId, s) + HistorySection(s.messages);
    if IsFinalTurn(d.agentId, s.currentTurn) {
      parts := parts + [FinalNotice];
    }
    assert parts == before + NoticeSection(d.agentId, s.currentTurn);
    context := Join(parts, "\n");
  }

  /** The reply a debater gets for its context on `s`. */
  function DebaterReply(d: Debater, s: DebateState, generate: Generator): Option<string> {
    generate(d.agentId, Join(ContextParts(d.agentId, s), "\n"))
  }

  /** A debater's outcome on `s`: this turn's message, or the error that aborts the debate. */
  function Response(d: Debater, s: DebateState, generate: Generator): Result<Message, Error> {
    ReplyMessage(d.agentId, s.currentTurn, DebaterReply(d, s, generate))
  }

  /**
   * `generate_response`: the debater sends its context to the text
   * generator and turns the reply into this turn's message.
   */
  method GenerateResponse(d: Debater, s: DebateState, generate: Generator) returns (r: Result<Message, Error>)
    ensures r == Response(d, s, generate)
  {
    var context := PrepareContext(d, s);
    var reply := generate(d.agentId, context);
    r := ReplyMessage(d.agentId, s.currentTurn, reply);
  }

  /** The loop of `_prepare_context` that adds one line per recent message. */
  method AppendHistory(parts: seq<string>, recent: seq<Message>) returns (r: seq<string>)
    ensures r == parts + HistoryLines(recent)
  {
    r := parts;
    for i := 0 to |recent|
      invariant r == parts + HistoryLines(recent[..i])
    {
      HistoryLinesStep(recent, i);
      r := r + [HistoryLine(recent[i])];
    }
    assert recent[..|recent|] == recent;
  }

  lemma HistoryLineIsNotNotice(m: Message)
    ensures HistoryLine(m) != FinalNotice
  {
    var h := HistoryLine(m);
    assert h[|h| - 2] == '.';
    assert FinalNotice[|FinalNotice| - 2] == 'e';
  }

  /**
   * How many lines the context has: four header lines; when there is
   * history, its heading and one line for each of the last six messages;
   * and one more on a debater's final turn.
   */
  lemma ContextLength(agentId: string, s: DebateState)
    ensures var n := |s.messages|;
      var shown := if n <= HistoryWindow then n else HistoryWindow;
      |ContextParts(agentId, s)| == 4 + (if n > 0 then 1 + shown else 0) + (if IsFinalTurn(agentId, s.currentTurn) then 1 else 0)
  {
    if s.messages != [] {
      HistoryLinesMeaning(LastN(s.messages, HistoryWindow));
    }
  }

  /** The history in the context: its heading, then the last six messages, oldest first. */
  lemma ContextHistory(agentId: string, s: DebateState)
    requires s.messages != []
    ensures var n := |s.messages|;
      var shown := if n <= HistoryWindow then n else HistoryWindow;
      var parts := ContextParts(agentId, s);
      && 5 + shown <= |parts|
      && parts[4] == "Debate History:"
      && parts[5..5 + shown] == HistoryLines(s.messages[n - shown..])
  {
    var n := |s.messages|;
    var shown := if n <= HistoryWindow then n else HistoryWindow;
    var recent := LastN(s.messages, HistoryWindow);
    assert recent == s.messages[n - shown..];
    HistoryLinesMeaning(recent);
    var header, history := ContextHeader(agentId, s), HistorySection(s.messages);
    assert |header| == 4;
    SectionsPlacement(header, history, NoticeSection(agentId, s.currentTurn));
    assert history[1..] == HistoryLines(recent);
  }

  /** Where the middle section lands in `header + middle + tail`. */
  lemma SectionsPlacement(header: seq<string>, middle: seq<string>, tail: seq<string>)
    ensures var parts := header + middle + tail;
      && |parts| == |header| + |middle| + |tail|
      && parts[|header|..|header| + |middle|] == middle
  {
  }

  /** The final-turn notice is the context's last line exactly on Agent A's turn 9 and Agent B's turn 10. */
  lemma ContextNotice(agentId: string, s: DebateState)
    ensures var parts := ContextParts(agentId, s);
      parts[|parts| - 1] == FinalNotice <==> IsFinalTurn(agentId, s.currentTurn)
  {
    var header, history := ContextHeader(agentId, s), HistorySection(s.messages);
    var parts := ContextParts(agentId, s);
    if !IsFinalTurn(agentId, s.currentTurn) {
      assert parts == header + history;
      if s.messages != [] {
        var recent := LastN(s.messages, HistoryWindow);
        HistoryLinesMeaning(recent);
        assert parts[|parts| - 1] == HistoryLine(recent[|recent| - 1]);
        HistoryLineIsNotNotice(recent[|recent| - 1]);
      } else {
        assert parts[|parts| - 1] == header[3];
      }
    }
  }
}
