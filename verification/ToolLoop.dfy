/**
 The bounded tool-calling loop of the LLM fallback (internal/agent/llm.go). The chat
 peer and the tools are arbitrary oracles; the index argument lets them answer the
 same question differently each time. Text lengths are lengths in bytes.
 */
module ToolLoop {
  import opened Prelude

  const DEFAULT_MAX_TOOL_ROUNDS := 4
  const MAXIMUM_MAX_TOOL_ROUNDS := 16
  const RESULT_BUDGET := 256 * 1024
  const BUDGET_ERROR := "{\"ok\":false,\"error\":\"tool result budget exceeded\"}"

  datatype Call = Call(id: string, kind: string, name: string, arguments: string)

  datatype Message = Message(role: string, content: Option<string>, calls: seq<Call>, callId: string)

  type Peer = (nat, seq<Message>) -> Option<Message>

  type Tool = (nat, Call) -> string

  datatype Ending =
    | Answer(content: string)
    | ChatFailed
    | NothingReturned
    | ToolsNotEnabled
    | RoundLimit(completed: nat, maximum: nat)
    | CallLimit
    | WrongRole
    | InvalidCall

  function MaxToolRounds(configured: int): (rounds: nat)
    ensures 1 <= configured <= 16 ==> rounds == configured
    ensures configured <= 0 ==> rounds == 4
    ensures configured > 16 ==> rounds == 16
  {
    if configured <= 0 then DEFAULT_MAX_TOOL_ROUNDS
    else if configured > MAXIMUM_MAX_TOOL_ROUNDS then MAXIMUM_MAX_TOOL_ROUNDS
    else configured
  }

  // ---- The conversation as a value -----------------------------------------

  /** One answered call: what the tool said, and whether the peer got the budget error instead. */
  datatype Exchange = Exchange(call: Call, ran: bool, text: string, replaced: bool) {
    function Sent(): string {
      if replaced then BUDGET_ERROR else text
    }
  }

  datatype Round = Round(assistant: Message, exchanges: seq<Exchange>)

  function ToolMessage(x: Exchange): Message {
    Message("tool", Some(x.Sent()), [], x.call.id)
  }

  function ToolMessages(xs: seq<Exchange>): seq<Message> {
    seq(|xs|, i requires 0 <= i < |xs| => ToolMessage(xs[i]))
  }

  function Opening(system: string, prompt: string): seq<Message> {
    [Message("system", Some(system), [], ""), Message("user", Some(prompt), [], "")]
  }

  function Transcript(opening: seq<Message>, rounds: seq<Round>): seq<Message> {
    if rounds == [] then opening
    else
      var last := rounds[|rounds| - 1];
      Transcript(opening, rounds[..|rounds| - 1]) + [last.assistant] + ToolMessages(last.exchanges)
  }

  function Flat(rounds: seq<Round>): seq<Exchange> {
    if rounds == [] then [] else Flat(rounds[..|rounds| - 1]) + rounds[|rounds| - 1].exchanges
  }

  function CallsOf(xs: seq<Exchange>): (calls: seq<Call>)
    ensures |calls| == |xs| && forall i :: 0 <= i < |xs| ==> calls[i] == xs[i].call
  {
    if xs == [] then [] else CallsOf(xs[..|xs| - 1]) + [xs[|xs| - 1].call]
  }

  function MemoKey(c: Call): string {
    c.name + ['\0'] + c.arguments
  }

  function Bytes(xs: seq<Exchange>): nat {
    if xs == [] then 0 else Bytes(xs[..|xs| - 1]) + |xs[|xs| - 1].Sent()|
  }

  function Runs(xs: seq<Exchange>): nat {
    if xs == [] then 0 else Runs(xs[..|xs| - 1]) + if xs[|xs| - 1].ran then 1 else 0
  }

  /** The answers remembered after some exchanges. */
  function MemoOf(xs: seq<Exchange>): map<string, string> {
    if xs == [] then map[] else MemoOf(xs[..|xs| - 1])[MemoKey(xs[|xs| - 1].call) := xs[|xs| - 1].text]
  }

  /** One more exchange obeys the memo and the byte budget. */
  predicate Follows(before: seq<Exchange>, x: Exchange, tool: Tool) {
    var memo := MemoOf(before);
    && (x.ran <==> MemoKey(x.call) !in memo)
    && x.text == (if MemoKey(x.call) in memo then memo[MemoKey(x.call)] else tool(Runs(before), x.call))
    && (x.replaced <==> Bytes(before) + |x.text| > RESULT_BUDGET)
  }

  predicate Faithful(xs: seq<Exchange>, tool: Tool) {
    xs == [] || (Faithful(xs[..|xs| - 1], tool) && Follows(xs[..|xs| - 1], xs[|xs| - 1], tool))
  }

  predicate ValidCall(c: Call) {
    c.id != "" && c.kind == "function" && c.name != ""
  }

  function Assistant(reply: Message): Message {
    if reply.role == "" then reply.(role := "assistant") else reply
  }

  /** A round answers every call of one assistant message, in order and with its ID. */
  predicate WellShaped(r: Round) {
    && r.assistant.role == "assistant" && r.assistant.calls != []
    && (forall i :: 0 <= i < |r.assistant.calls| ==> ValidCall(r.assistant.calls[i]))
    && CallsOf(r.exchanges) == r.assistant.calls
  }

  datatype Limits = Limits(toolCount: nat, hasExecutor: bool, maxRounds: nat) {
    function MaxCalls(): nat { maxRounds * toolCount }
  }

  /** Why the loop stops at a reply, if it does. */
  function Stop(reply: Message, limits: Limits, rounds: nat, calls: nat): Option<Ending> {
    if reply.calls == [] then
      if reply.content.None? || TrimSpace(reply.content.value) == "" then Some(NothingReturned)
      else Some(Answer(reply.content.value))
    else if !limits.hasExecutor || limits.toolCount == 0 then Some(ToolsNotEnabled)
    else if rounds >= limits.maxRounds then Some(RoundLimit(rounds, limits.maxRounds))
    else if calls + |reply.calls| > limits.MaxCalls() then Some(CallLimit)
    else if Assistant(reply).role != "assistant" then Some(WrongRole)
    else if exists i :: 0 <= i < |reply.calls| && !ValidCall(reply.calls[i]) then Some(InvalidCall)
    else None
  }

  ghost predicate RoundFollows(opening: seq<Message>, rounds: seq<Round>, i: nat, limits: Limits, peer: Peer)
    requires i < |rounds|
  {
    var reply := peer(i, Transcript(opening, rounds[..i]));
    && reply.Some? && Stop(reply.value, limits, i, |Flat(rounds[..i])|) == None
    && rounds[i].assistant == Assistant(reply.value) && WellShaped(rounds[i])
  }

  /** Everything up to the reply that ends the loop. */
  ghost predicate Conversation(opening: seq<Message>, rounds: seq<Round>, limits: Limits, peer: Peer, tool: Tool) {
    && (forall i :: 0 <= i < |rounds| ==> RoundFollows(opening, rounds, i, limits, peer))
    && Faithful(Flat(rounds), tool)
  }

  function EndingFor(reply: Option<Message>, limits: Limits, rounds: nat, calls: nat): Option<Ending> {
    if reply == None then Some(ChatFailed) else Stop(reply.value, limits, rounds, calls)
  }

  // ---- The loop ------------------------------------------------------------

  /** Answers the calls of one assistant message. */
  method AnswerCalls(
    calls: seq<Call>, messagesBefore: seq<Message>, toolResults: map<string, string>, totalSize: nat,
    runsBefore: nat, tool: Tool, ghost before: seq<Exchange>)
    returns (messages: seq<Message>, results: map<string, string>, size: nat, runs: nat, exchanges: seq<Exchange>)
    requires Faithful(before, tool) && toolResults == MemoOf(before)
    requires totalSize == Bytes(before) && runsBefore == Runs(before)
    ensures CallsOf(exchanges) == calls
    ensures messages == messagesBefore + ToolMessages(exchanges)
    ensures Faithful(before + exchanges, tool) && results == MemoOf(before + exchanges)
    ensures size == Bytes(before + exchanges) && runs == Runs(before + exchanges)
  {
    messages, results, size, runs, exchanges := messagesBefore, toolResults, totalSize, runsBefore, [];
    assert before + exchanges == before;
    for i := 0 to |calls|
      invariant CallsOf(exchanges) == calls[..i]
      invariant messages == messagesBefore + ToolMessages(exchanges)
      invariant Faithful(before + exchanges, tool) && results == MemoOf(before + exchanges)
      invariant size == Bytes(before + exchanges) && runs == Runs(before + exchanges)
    {
      var content, x;
      content, results, size, runs, x := AnswerCall(calls[i], results, size, runs, tool, before + exchanges);
      var message := Message("tool", Some(content), [], calls[i].id);
      messages := Say(messages, message, messagesBefore, ToolMessages(exchanges));
      NextExchange(before, exchanges, x, tool);
      PrefixGrows(calls, i);
      exchanges := exchanges + [x];
    }
    assert calls[..|calls|] == calls;
  }

  method AnswerCall(
    call: Call, toolResults: map<string, string>, totalSize: nat, runsBefore: nat, tool: Tool,
    ghost before: seq<Exchange>)
    returns (content: string, results: map<string, string>, size: nat, runs: nat, x: Exchange)
    requires toolResults == MemoOf(before) && totalSize == Bytes(before) && runsBefore == Runs(before)
    ensures Follows(before, x, tool) && x.call == call && content == x.Sent()
    ensures results == toolResults[MemoKey(call) := x.text]
    ensures size == totalSize + |content| && runs == runsBefore + if x.ran then 1 else 0
  {
    results, runs := toolResults, runsBefore;
    var cacheKey := MemoKey(call);
    var found := cacheKey in results;
    if found {
      content := results[cacheKey];
    } else {
      content := tool(runs, call);
      results := results[cacheKey := content];
      runs := runs + 1;
    }
    x := Exchange(call, !found, content, totalSize + |content| > RESULT_BUDGET);
    if totalSize + |content| > RESULT_BUDGET {
      content := BUDGET_ERROR;
    }
    size := totalSize + |content|;
  }

  /** Appends one message to a transcript known to be `opening + rest`. */
  function Say(
    messages: seq<Message>, m: Message, ghost opening: seq<Message>, ghost rest: seq<Message>): (r: seq<Message>)
    requires messages == opening + rest
    ensures r == opening + (rest + [m])
  {
    messages + [m]
  }

  lemma PrefixGrows(calls: seq<Call>, i: nat)
    requires i < |calls|
    ensures calls[..i + 1] == calls[..i] + [calls[i]]
  {
  }

  lemma NextExchange(before: seq<Exchange>, xs: seq<Exchange>, x: Exchange, tool: Tool)
    ensures Faithful(before + xs, tool) && Follows(before + xs, x, tool) ==> Faithful(before + (xs + [x]), tool)
    ensures MemoOf(before + (xs + [x])) == MemoOf(before + xs)[MemoKey(x.call) := x.text]
    ensures Bytes(before + (xs + [x])) == Bytes(before + xs) + |x.Sent()|
    ensures Runs(before + (xs + [x])) == Runs(before + xs) + if x.ran then 1 else 0
    ensures CallsOf(xs + [x]) == CallsOf(xs) + [x.call]
    ensures ToolMessages(xs + [x]) == ToolMessages(xs) + [ToolMessage(x)]
  {
    var all := before + (xs + [x]);
    assert all[..|all| - 1] == before + xs && all[|all| - 1] == x;
  }

  /** The checks on a reply, in the order in which they end the loop. */
  method JudgeReply(message: Message, limits: Limits, maxToolCalls: nat, toolRounds: nat, totalToolCalls: nat)
    returns (ending: Option<Ending>)
    requires maxToolCalls == limits.MaxCalls()
    ensures ending == Stop(message, limits, toolRounds, totalToolCalls)
  {
    if message.calls == [] {
      if message.content.None? || TrimSpace(message.content.value) == "" {
        return Some(NothingReturned);
      }
      return Some(Answer(message.content.value));
    }
    if !limits.hasExecutor || limits.toolCount == 0 {
      return Some(ToolsNotEnabled);
    }
    if toolRounds >= limits.maxRounds {
      return Some(RoundLimit(toolRounds, limits.maxRounds));
    }
    if totalToolCalls + |message.calls| > maxToolCalls {
      return Some(CallLimit);
    }
    if message.role != "" && message.role != "assistant" {
      return Some(WrongRole);
    }
    for i := 0 to |message.calls|
      invariant forall j :: 0 <= j < i ==> ValidCall(message.calls[j])
    {
      if message.calls[i].id == "" || message.calls[i].kind != "function" || message.calls[i].name == "" {
        return Some(InvalidCall);
      }
    }
    return None;
  }

  method Complete(
    system: string, prompt: string, toolCount: nat, hasExecutor: bool, configuredRounds: int, peer: Peer, tool: Tool)
    returns (ending: Ending, messages: seq<Message>, rounds: seq<Round>, replies: nat)
    ensures var opening := Opening(system, prompt);
            var limits := Limits(toolCount, hasExecutor, MaxToolRounds(configuredRounds));
            && Conversation(opening, rounds, limits, peer, tool)
            && messages == Transcript(opening, rounds)
            && replies == |rounds| + 1
            && Some(ending) == EndingFor(peer(|rounds|, messages), limits, |rounds|, |Flat(rounds)|)
            && EndsWith(peer(|rounds|, messages), limits, |rounds|, |Flat(rounds)|, Some(ending))
    ensures |messages| >= 2 && messages[0] == Message("system", Some(system), [], "")
      && messages[1] == Message("user", Some(prompt), [], "")
  {
    ghost var opening := Opening(system, prompt);
    messages := [Message("system", Some(system), [], ""), Message("user", Some(prompt), [], "")];
    var toolResults: map<string, string> := map[];
    var totalToolCalls, totalToolResultSize, toolRounds, runs := 0, 0, 0, 0;
    var limits := Limits(toolCount, hasExecutor, MaxToolRounds(configuredRounds));
    var maxToolCalls := limits.MaxCalls();
    rounds := [];
    while true
      invariant |rounds| == toolRounds <= limits.maxRounds && totalToolCalls == |Flat(rounds)|
      invariant Conversation(opening, rounds, limits, peer, tool)
      invariant messages == Transcript(opening, rounds)
      invariant toolResults == MemoOf(Flat(rounds))
      invariant totalToolResultSize == Bytes(Flat(rounds)) && runs == Runs(Flat(rounds))
      decreases limits.maxRounds - toolRounds
    {
      var reply := peer(toolRounds, messages);
      replies := toolRounds + 1;
      EndingMeans(reply, limits, toolRounds, totalToolCalls);
      OpeningIsFirst(system, prompt, rounds);
      if reply.None? {
        return ChatFailed, messages, rounds, replies;
      }
      var stop := JudgeReply(reply.value, limits, maxToolCalls, toolRounds, totalToolCalls);
      if stop.Some? {
        return stop.value, messages, rounds, replies;
      }
      var message := Assistant(reply.value);
      messages := messages + [message];
      toolRounds := toolRounds + 1;
      totalToolCalls := totalToolCalls + |message.calls|;
      var exchanges;
      messages, toolResults, totalToolResultSize, runs, exchanges :=
        AnswerCalls(message.calls, messages, toolResults, totalToolResultSize, runs, tool, Flat(rounds));
      ConversationGrows(opening, rounds, Round(message, exchanges), limits, peer, tool);
      rounds := rounds + [Round(message, exchanges)];
    }
  }

  lemma OpeningIsFirst(system: string, prompt: string, rounds: seq<Round>)
    ensures var messages := Transcript(Opening(system, prompt), rounds);
      && |messages| >= 2
      && messages[0] == Message("system", Some(system), [], "")
      && messages[1] == Message("user", Some(prompt), [], "")
  {
    OpeningStays(Opening(system, prompt), rounds);
  }

  lemma ConversationGrows(
    opening: seq<Message>, rounds: seq<Round>, r: Round, limits: Limits, peer: Peer, tool: Tool)
    requires Conversation(opening, rounds, limits, peer, tool) && WellShaped(r)
    requires Faithful(Flat(rounds) + r.exchanges, tool)
    requires var reply := peer(|rounds|, Transcript(opening, rounds));
             reply.Some? && Stop(reply.value, limits, |rounds|, |Flat(rounds)|) == None
               && r.assistant == Assistant(reply.value)
    ensures Conversation(opening, rounds + [r], limits, peer, tool)
    ensures Flat(rounds + [r]) == Flat(rounds) + r.exchanges
    ensures Transcript(opening, rounds + [r]) == Transcript(opening, rounds) + [r.assistant] + ToolMessages(r.exchanges)
  {
    var all := rounds + [r];
    assert all[..|rounds|] == rounds;
    forall i | 0 <= i < |all| ensures RoundFollows(opening, all, i, limits, peer) {
      assert all[..i] == rounds[..i];
      assert i < |rounds| ==> RoundFollows(opening, rounds, i, limits, peer);
      assert i == |rounds| ==> rounds[..i] == rounds;
    }
  }

  // ---- What every conversation satisfies -----------------------------------

  /** Rounds, replies and calls are bounded whatever the peer does. */
  lemma {:induction false} ConversationIsBounded(
    opening: seq<Message>, rounds: seq<Round>, limits: Limits, peer: Peer, tool: Tool)
    requires Conversation(opening, rounds, limits, peer, tool)
    ensures |rounds| <= limits.maxRounds && |Flat(rounds)| <= limits.MaxCalls()
  {
    if rounds != [] {
      assert RoundFollows(opening, rounds, |rounds| - 1, limits, peer);
    }
  }

  /** The transcript opens with system and user, and each round adds one assistant message and its tool messages. */
  lemma {:induction false} TranscriptShape(opening: seq<Message>, rounds: seq<Round>, i: nat)
    requires i < |rounds|
    ensures var at := |Transcript(opening, rounds[..i])|; var t := Transcript(opening, rounds);
            && opening <= t && |opening| <= at
            && at + |rounds[i].exchanges| < |t|
            && t[at] == rounds[i].assistant
            && forall j :: 0 <= j < |rounds[i].exchanges| ==> t[at + 1 + j] == ToolMessage(rounds[i].exchanges[j])
  {
    var n := |rounds| - 1;
    if i < n {
      assert rounds[..n][..i] == rounds[..i];
      TranscriptShape(opening, rounds[..n], i);
    } else {
      OpeningStays(opening, rounds[..n]);
    }
  }

  lemma {:induction false} OpeningStays(opening: seq<Message>, rounds: seq<Round>)
    ensures opening <= Transcript(opening, rounds)
  {
    if rounds != [] {
      OpeningStays(opening, rounds[..|rounds| - 1]);
    }
  }

  function UnreplacedBytes(xs: seq<Exchange>): nat {
    if xs == [] then 0
    else
      var x := xs[|xs| - 1];
      UnreplacedBytes(xs[..|xs| - 1]) + if x.replaced then 0 else |x.text|
  }

  function ErrorBytes(xs: seq<Exchange>): nat {
    if xs == [] then 0
    else
      var x := xs[|xs| - 1];
      ErrorBytes(xs[..|xs| - 1]) + if x.replaced then |x.Sent()| else 0
  }

  /** Tool text that was sent unreplaced fits the budget; whatever exceeds it is budget-error text. */
  lemma {:induction false} BudgetHolds(xs: seq<Exchange>, tool: Tool)
    requires Faithful(xs, tool)
    ensures UnreplacedBytes(xs) <= RESULT_BUDGET
    ensures Bytes(xs) == UnreplacedBytes(xs) + ErrorBytes(xs)
  {
    if xs != [] {
      BudgetHolds(xs[..|xs| - 1], tool);
    }
  }

  /** Why a reply ends the loop, reason by reason; no reason means that its calls are answered. */
  ghost predicate EndsWith(reply: Option<Message>, limits: Limits, rounds: nat, calls: nat, ending: Option<Ending>) {
    if reply.None? then ending == Some(ChatFailed)
    else
      var m := reply.value;
      var allowed := limits.hasExecutor && limits.toolCount > 0;
      var inTime := rounds < limits.maxRounds;
      var affordable := calls + |m.calls| <= limits.maxRounds * limits.toolCount;
      var fromAssistant := m.role == "assistant" || m.role == "";
      var valid := forall c <- m.calls :: c.id != "" && c.kind == "function" && c.name != "";
      match ending
      case Some(Answer(text)) => m.calls == [] && m.content == Some(text) && TrimSpace(text) != ""
      case Some(NothingReturned) => m.calls == [] && (m.content.None? || TrimSpace(m.content.value) == "")
      case Some(ToolsNotEnabled) => m.calls != [] && !allowed
      case Some(RoundLimit(n, most)) => m.calls != [] && allowed && !inTime && n == rounds && most == limits.maxRounds
      case Some(CallLimit) => m.calls != [] && allowed && inTime && !affordable
      case Some(WrongRole) => m.calls != [] && allowed && inTime && affordable && !fromAssistant
      case Some(InvalidCall) => m.calls != [] && allowed && inTime && affordable && fromAssistant && !valid
      case None => m.calls != [] && allowed && inTime && affordable && fromAssistant && valid
      case _ => false
  }

  lemma EndingMeans(reply: Option<Message>, limits: Limits, rounds: nat, calls: nat)
    ensures EndsWith(reply, limits, rounds, calls, EndingFor(reply, limits, rounds, calls))
  {
  }

  /** Every round answers all calls of a reply that gave no reason to stop, in their order. */
  lemma RoundMeans(
    opening: seq<Message>, rounds: seq<Round>, i: nat, limits: Limits, peer: Peer, tool: Tool)
    requires Conversation(opening, rounds, limits, peer, tool) && i < |rounds|
    ensures var reply, round := peer(i, Transcript(opening, rounds[..i])), rounds[i];
      && reply.Some? && EndsWith(reply, limits, i, |Flat(rounds[..i])|, None)
      && round.assistant == Message("assistant", reply.value.content, reply.value.calls, reply.value.callId)
      && |round.exchanges| == |reply.value.calls|
      && forall k :: 0 <= k < |round.exchanges| ==> round.exchanges[k].call == reply.value.calls[k]
  {
    assert RoundFollows(opening, rounds, i, limits, peer);
    EndingMeans(peer(i, Transcript(opening, rounds[..i])), limits, i, |Flat(rounds[..i])|);
  }

  /** How many bytes of tool text the peer has been sent. */
  function SentBytes(xs: seq<Exchange>): nat {
    if xs == [] then 0 else |xs[0].Sent()| + SentBytes(xs[1..])
  }

  lemma {:induction false} SentBytesAppend(xs: seq<Exchange>, x: Exchange)
    ensures SentBytes(xs + [x]) == SentBytes(xs) + |x.Sent()|
  {
    if xs != [] {
      assert (xs + [x])[1..] == xs[1..] + [x];
      SentBytesAppend(xs[1..], x);
    }
  }

  lemma {:induction false} BytesAreSent(xs: seq<Exchange>)
    ensures Bytes(xs) == SentBytes(xs)
  {
    if xs != [] {
      var n := |xs| - 1;
      BytesAreSent(xs[..n]);
      SentBytesAppend(xs[..n], xs[n]);
      assert xs == xs[..n] + [xs[n]];
    }
  }

  /** An earlier exchange has the same name and arguments, joined by NUL. */
  predicate AskedBefore(xs: seq<Exchange>, i: nat, j: nat) {
    j < i < |xs| && xs[j].call.name + ['\0'] + xs[j].call.arguments == xs[i].call.name + ['\0'] + xs[i].call.arguments
  }

  /**
   What one call gets: the text of an earlier exchange with the same key, or else what
   the tool says when it is run now. The peer is sent that text if all that was sent
   with it fits the budget, and the budget error otherwise.
   */
  lemma ExchangeMeans(xs: seq<Exchange>, tool: Tool, i: nat)
    requires Faithful(xs, tool) && i < |xs|
    ensures xs[i].ran <==> forall j: nat :: !AskedBefore(xs, i, j)
    ensures xs[i].ran ==> xs[i].text == tool(Runs(xs[..i]), xs[i].call)
    ensures forall j: nat :: AskedBefore(xs, i, j) ==> xs[i].text == xs[j].text
    ensures ToolMessage(xs[i]) == Message("tool",
      Some(if SentBytes(xs[..i]) + |xs[i].text| <= 262144 then xs[i].text
           else "{\"ok\":false,\"error\":\"tool result budget exceeded\"}"), [], xs[i].call.id)
  {
    FaithfulAt(xs, tool, i);
    BytesAreSent(xs[..i]);
    forall j: nat | AskedBefore(xs, i, j) ensures MemoKey(xs[i].call) in MemoOf(xs[..i]) && xs[i].text == xs[j].text {
      var k := MemoMeaning(xs[..i], tool, j);
      assert xs[..i][j] == xs[j];
    }
    if MemoKey(xs[i].call) in MemoOf(xs[..i]) {
      var j := MemoKeyOrigin(xs[..i], MemoKey(xs[i].call));
      assert AskedBefore(xs, i, j);
    }
  }

  lemma {:induction false} FaithfulAt(xs: seq<Exchange>, tool: Tool, i: nat)
    requires Faithful(xs, tool) && i < |xs|
    ensures Faithful(xs[..i], tool) && Follows(xs[..i], xs[i], tool)
    decreases |xs|
  {
    var n := |xs| - 1;
    if i < n {
      FaithfulAt(xs[..n], tool, i);
      assert xs[..n][..i] == xs[..i];
    }
  }

  predicate SameRequest(a: Call, b: Call) {
    a.name == b.name && a.arguments == b.arguments
  }

  /** The second name is the first one, a NUL and possibly more. */
  predicate Extends(a: string, b: string) {
    HasPrefix(b, a + ['\0'])
  }

  lemma SharedKeyExtends(c: Call, d: Call)
    requires MemoKey(c) == MemoKey(d) && |c.name| < |d.name|
    ensures Extends(c.name, d.name)
  {
    var n := |c.name| + 1;
    assert c.name + ['\0'] == MemoKey(c)[..n] == MemoKey(d)[..n] == d.name[..n];
  }

  lemma SharedKeyMeansSameRequest(c: Call, d: Call)
    requires MemoKey(c) == MemoKey(d) && !Extends(c.name, d.name) && !Extends(d.name, c.name)
    ensures SameRequest(c, d)
  {
    if |c.name| < |d.name| {
      SharedKeyExtends(c, d);
    } else if |d.name| < |c.name| {
      SharedKeyExtends(d, c);
    } else {
      assert c.name == MemoKey(c)[..|c.name|] && d.name == MemoKey(d)[..|d.name|];
      assert c.arguments == MemoKey(c)[|c.name| + 1..] && d.arguments == MemoKey(d)[|d.name| + 1..];
    }
  }

  /** Two different requests with one key, for a name that extends another. */
  function CollidingArguments(a: string, b: string): string
    requires Extends(a, b)
  {
    b[|a| + 1..] + ['\0']
  }

  lemma ExtensionsCollide(a: string, b: string, c: Call, d: Call)
    requires Extends(a, b) && c.name == a && c.arguments == CollidingArguments(a, b) && d.name == b && d.arguments == ""
    ensures MemoKey(c) == MemoKey(d) && !SameRequest(c, d)
  {
    assert b == a + ['\0'] + b[|a| + 1..];
  }

  /** Equal keys mean equal requests for two names exactly when neither is the other followed by NUL. */
  lemma MemoKeySeparates(a: string, b: string)
    ensures (forall c: Call, d: Call | c.name == a && d.name == b && MemoKey(c) == MemoKey(d) :: SameRequest(c, d))
      <==> !Extends(a, b) && !Extends(b, a)
  {
    if Extends(a, b) {
      ExtensionsCollide(a, b, Call("", "", a, CollidingArguments(a, b)), Call("", "", b, ""));
    } else if Extends(b, a) {
      ExtensionsCollide(b, a, Call("", "", b, CollidingArguments(b, a)), Call("", "", a, ""));
    } else {
      forall c: Call, d: Call | c.name == a && d.name == b && MemoKey(c) == MemoKey(d) ensures SameRequest(c, d) {
        SharedKeyMeansSameRequest(c, d);
      }
    }
  }

  /** A remembered answer is the text of every exchange with that key, one of which ran the tool. */
  lemma {:induction false} MemoMeaning(xs: seq<Exchange>, tool: Tool, i: nat) returns (j: nat)
    requires Faithful(xs, tool) && i < |xs|
    ensures MemoKey(xs[i].call) in MemoOf(xs) && MemoOf(xs)[MemoKey(xs[i].call)] == xs[i].text
    ensures j <= i && MemoKey(xs[j].call) == MemoKey(xs[i].call)
    ensures xs[j].ran && xs[i].text == tool(Runs(xs[..j]), xs[j].call)
    ensures xs[i].ran ==> j == i
    decreases |xs|
  {
    var n := |xs| - 1;
    var before := xs[..n];
    if i < n {
      j := MemoMeaning(before, tool, i);
      assert xs[..j] == before[..j];
    } else if xs[n].ran {
      j := n;
    } else {
      var k := MemoKeyOrigin(before, MemoKey(xs[n].call));
      j := MemoMeaning(before, tool, k);
      assert xs[..j] == before[..j];
    }
  }

  lemma {:induction false} MemoKeyOrigin(xs: seq<Exchange>, key: string) returns (i: nat)
    requires key in MemoOf(xs)
    ensures i < |xs| && MemoKey(xs[i].call) == key
  {
    i := |xs| - 1;
    if MemoKey(xs[i].call) != key {
      i := MemoKeyOrigin(xs[..i], key);
    }
  }

  /** No request runs twice, whatever the names contain. */
  lemma {:induction false} NoRequestRunsTwice(xs: seq<Exchange>, tool: Tool, i: nat, j: nat)
    requires Faithful(xs, tool) && i < j < |xs| && xs[i].ran && xs[j].ran
    ensures !SameRequest(xs[i].call, xs[j].call)
  {
    var n := |xs| - 1;
    if j < n {
      NoRequestRunsTwice(xs[..n], tool, i, j);
    } else {
      var _ := MemoMeaning(xs[..n], tool, i);
    }
  }

  /** The answer is what a run of that very request returned, at or before that point. */
  ghost predicate OwnAnswer(xs: seq<Exchange>, tool: Tool, i: nat)
    requires i < |xs|
  {
    exists j :: 0 <= j <= i && xs[j].ran && SameRequest(xs[j].call, xs[i].call)
      && xs[i].text == tool(Runs(xs[..j]), xs[j].call)
  }

  predicate Over(names: set<string>, xs: seq<Exchange>) {
    forall i :: 0 <= i < |xs| ==> xs[i].call.name in names
  }

  /** No name is another one followed by NUL. */
  predicate Separate(names: set<string>) {
    forall a <- names, b <- names :: !Extends(a, b)
  }

  lemma EveryAnswerIsItsOwn(xs: seq<Exchange>, tool: Tool, names: set<string>, i: nat)
    requires Faithful(xs, tool) && i < |xs| && Over(names, xs) && Separate(names)
    ensures OwnAnswer(xs, tool, i)
  {
    var j := MemoMeaning(xs, tool, i);
    assert xs[i].call.name in names && xs[j].call.name in names;
    SharedKeyMeansSameRequest(xs[j].call, xs[i].call);
  }

  /** A tool that reports the name it was asked for. */
  function EchoTool(): Tool {
    (k: nat, c: Call) => c.name
  }

  /** A conversation over two such names in which the second request gets the first one's answer. */
  function Collision(a: string, b: string): seq<Exchange>
    requires Extends(a, b)
  {
    var first := Exchange(Call("1", "function", a, CollidingArguments(a, b)), true, a, |a| > RESULT_BUDGET);
    [first, Exchange(Call("2", "function", b, ""), false, a, |first.Sent()| + |a| > RESULT_BUDGET)]
  }

  lemma CollisionIsFaithful(a: string, b: string)
    requires Extends(a, b)
    ensures Faithful(Collision(a, b), EchoTool())
  {
    var xs, tool := Collision(a, b), EchoTool();
    ExtensionsCollide(a, b, xs[0].call, xs[1].call);
    assert xs[..1] == [xs[0]] && xs[..1][..0] == [];
    assert Follows([], xs[0], tool) && Faithful([], tool);
    assert Faithful(xs[..1], tool);
    assert MemoOf([xs[0]]) == map[MemoKey(xs[0].call) := a] && Bytes([xs[0]]) == |xs[0].Sent()|;
  }

  lemma CollisionAnswersWrong(a: string, b: string, tool: Tool)
    requires Extends(a, b)
    ensures !OwnAnswer(Collision(a, b), tool, 1)
  {
    assert !SameRequest(Collision(a, b)[0].call, Collision(a, b)[1].call);
  }

  /** The chat peer that asks for both at once and answers when it has been told. */
  function CollisionReply(a: string, b: string): Message
    requires Extends(a, b)
  {
    Message("assistant", None, CallsOf(Collision(a, b)), "")
  }

  function CollisionPeer(a: string, b: string): Peer
    requires Extends(a, b)
  {
    var reply := CollisionReply(a, b);
    (k: nat, messages: seq<Message>) => Some(if k == 0 then reply else Message("assistant", Some("done"), [], ""))
  }

  function CollisionRounds(a: string, b: string): seq<Round>
    requires Extends(a, b)
  {
    [Round(CollisionReply(a, b), Collision(a, b))]
  }

  /** The limits let a peer call tools twice. */
  predicate AllowsTwoCalls(limits: Limits) {
    limits.hasExecutor && limits.MaxCalls() >= 2
  }

  lemma CollisionReplyIsAccepted(a: string, b: string, limits: Limits)
    requires Extends(a, b) && a != "" && AllowsTwoCalls(limits)
    ensures WellShaped(CollisionRounds(a, b)[0]) && Stop(CollisionReply(a, b), limits, 0, 0) == None
  {
    var calls := CollisionReply(a, b).calls;
    assert |calls| == 2 && calls[0] == Collision(a, b)[0].call && calls[1] == Collision(a, b)[1].call;
    assert limits.toolCount > 0 && limits.maxRounds > 0;
  }

  lemma CollisionIsAConversation(a: string, b: string, opening: seq<Message>, limits: Limits)
    requires Extends(a, b) && a != "" && AllowsTwoCalls(limits)
    ensures Flat(CollisionRounds(a, b)) == Collision(a, b)
    ensures Conversation(opening, CollisionRounds(a, b), limits, CollisionPeer(a, b), EchoTool())
    ensures EndingFor(CollisionPeer(a, b)(1, Transcript(opening, CollisionRounds(a, b))), limits, 1, 2)
      == Some(Answer("done"))
  {
    var rounds := CollisionRounds(a, b);
    assert rounds[..0] == [] && Flat([]) == [];
    CollisionReplyIsAccepted(a, b, limits);
    assert RoundFollows(opening, rounds, 0, limits, CollisionPeer(a, b));
    CollisionIsFaithful(a, b);
  }

  lemma {:induction false} CallsHaveNames(rounds: seq<Round>)
    requires forall r <- rounds :: WellShaped(r)
    ensures forall x <- Flat(rounds) :: x.call.name != ""
  {
    if rounds != [] {
      var before, last := rounds[..|rounds| - 1], rounds[|rounds| - 1];
      CallsHaveNames(before);
      assert WellShaped(last);
      forall i | 0 <= i < |last.exchanges| ensures last.exchanges[i].call.name != "" {
        assert ValidCall(last.assistant.calls[i]);
      }
    }
  }

  lemma NoExecutorNoRounds(opening: seq<Message>, rounds: seq<Round>, limits: Limits, peer: Peer, tool: Tool)
    requires Conversation(opening, rounds, limits, peer, tool)
    ensures rounds != [] ==> limits.hasExecutor
  {
    if rounds != [] {
      assert RoundFollows(opening, rounds, 0, limits, peer);
    }
  }

  /** Names that some call can bear, separate, or no room for two calls. */
  predicate CannotCollide(names: set<string>, limits: Limits) {
    Separate(names - {""}) || !AllowsTwoCalls(limits)
  }

  lemma ConversationAnswersAreOwn(
    names: set<string>, opening: seq<Message>, rounds: seq<Round>, limits: Limits, peer: Peer, tool: Tool, i: nat)
    requires Conversation(opening, rounds, limits, peer, tool) && Over(names, Flat(rounds)) && i < |Flat(rounds)|
    requires CannotCollide(names, limits)
    ensures OwnAnswer(Flat(rounds), tool, i)
  {
    var xs := Flat(rounds);
    if Separate(names - {""}) {
      forall r | r in rounds ensures WellShaped(r) {
        var k :| 0 <= k < |rounds| && rounds[k] == r;
        assert RoundFollows(opening, rounds, k, limits, peer);
      }
      CallsHaveNames(rounds);
      EveryAnswerIsItsOwn(xs, tool, names - {""}, i);
    } else {
      NoExecutorNoRounds(opening, rounds, limits, peer, tool);
      ConversationIsBounded(opening, rounds, limits, peer, tool);
      var j := MemoMeaning(xs, tool, i);
    }
  }

  /**
   Whatever the peer and the tools, every answer of a conversation is its own
   request's, exactly when no callable name is another one followed by NUL or the
   limits leave no room for two calls.
   */
  lemma AnswersAreOwnIffNamesAreSeparate(names: set<string>, opening: seq<Message>, limits: Limits)
    ensures CannotCollide(names, limits) <==>
      forall rounds: seq<Round>, peer: Peer, tool: Tool, i: nat
        | Conversation(opening, rounds, limits, peer, tool) && Over(names, Flat(rounds)) && i < |Flat(rounds)| ::
        OwnAnswer(Flat(rounds), tool, i)
  {
    if CannotCollide(names, limits) {
      forall rounds: seq<Round>, peer: Peer, tool: Tool, i: nat
        | Conversation(opening, rounds, limits, peer, tool) && Over(names, Flat(rounds)) && i < |Flat(rounds)|
        ensures OwnAnswer(Flat(rounds), tool, i)
      {
        ConversationAnswersAreOwn(names, opening, rounds, limits, peer, tool, i);
      }
    } else {
      var a, b :| a in names - {""} && b in names - {""} && Extends(a, b);
      CollisionIsAConversation(a, b, opening, limits);
      CollisionAnswersWrong(a, b, EchoTool());
      assert Over(names, Flat(CollisionRounds(a, b)));
    }
  }

  /**
   With the names "f" and "f", NUL, "x" there is a conversation, ending in an
   answer, in which the second request is told what the first one was told.
   */
  lemma NulNamesCollide(opening: seq<Message>, limits: Limits)
    requires AllowsTwoCalls(limits)
    ensures var a, b := "f", ['f', '\0', 'x'];
      var rounds, peer, xs := CollisionRounds(a, b), CollisionPeer(a, b), Collision(a, b);
      && Conversation(opening, rounds, limits, peer, EchoTool()) && Flat(rounds) == xs
      && EndingFor(peer(1, Transcript(opening, rounds)), limits, 1, 2) == Some(Answer("done"))
      && xs[1].text == "f" && EchoTool()(1, xs[1].call) != "f" && !OwnAnswer(xs, EchoTool(), 1)
  {
    CollisionIsAConversation("f", ['f', '\0', 'x'], opening, limits);
    CollisionAnswersWrong("f", ['f', '\0', 'x'], EchoTool());
  }
}
