/** The tool-use loop that runs web searches on the gateway's side between upstream calls. */
module WebSearch {
  import opened Wrappers
  import opened Bedrock
  import BetaLearning

  type SearchResult = nat

  /** The provider's answer to the n-th search of a request. */
  type Provider = (nat, string) -> Option<seq<SearchResult>>

  /**
   What stays fixed over a request: the tool's name, the limit on searches, the provider and how results are worded.
   */
  datatype Session = Session(tool: string, maxUses: nat, provider: Provider,
                             describe: Option<seq<SearchResult>> -> string)

  const LIMIT_TEXT: string := "Search limit reached. No more searches available."
  const ITERATION_CAP: nat := 10

  // ---------------------------------------------------------------- reading a reply

  predicate IsSearch(b: Block, tool: string) {
    b.kind == Some("tool_use") && b.name == Some(tool)
  }

  /** The search calls of a reply, as id and query. A call without an id is not answered. */
  function Searches(content: seq<Block>, tool: string): seq<(string, string)> {
    if content == [] then [] else Searches(content[..|content| - 1], tool) + SearchOf(content[|content| - 1], tool)
  }

  function SearchOf(b: Block, tool: string): seq<(string, string)> {
    if IsSearch(b, tool) && b.id.Some? then [(b.id.value, b.query.GetOr(""))] else []
  }

  function Ids(calls: seq<(string, string)>): seq<string> {
    seq(|calls|, i requires 0 <= i < |calls| => calls[i].0)
  }

  function ResultIds(results: seq<ToolResult>): seq<string> {
    seq(|results|, i requires 0 <= i < |results| => results[i].toolUseId)
  }

  // ---------------------------------------------------------------- one round of searches

  datatype Round = Round(results: seq<ToolResult>, count: nat, attempts: nat, found: map<string, seq<SearchResult>>)

  const NO_SEARCHES: Round := Round([], 0, 0, map[])

  /** One search call: refused at the limit, counted when it succeeds, answered in any case. */
  function Answer1(r: Round, call: (string, string), s: Session): Round {
    if r.count >= s.maxUses then
      r.(results := r.results + [ToolResult(call.0, LIMIT_TEXT, true)])
    else
      var outcome := s.provider(r.attempts, call.1);
      if outcome.Some? then
        Round(r.results + [ToolResult(call.0, s.describe(outcome), false)], r.count + 1, r.attempts + 1,
              r.found[call.0 := outcome.value])
      else
        r.(results := r.results + [ToolResult(call.0, s.describe(None), true)], attempts := r.attempts + 1)
  }

  function AnswerAll(start: Round, calls: seq<(string, string)>, s: Session): Round {
    if calls == [] then start else Answer1(AnswerAll(start, calls[..|calls| - 1], s), calls[|calls| - 1], s)
  }

  function Successes(results: seq<ToolResult>): nat {
    if results == [] then 0
    else Successes(results[..|results| - 1]) + if results[|results| - 1].isError then 0 else 1
  }

  predicate AllErrors(results: seq<ToolResult>) {
    forall i | 0 <= i < |results| :: results[i].isError
  }

  lemma LastAnswer(before: Round, call: (string, string), s: Session)
    ensures
      var r := Answer1(before, call, s);
      && |r.results| == |before.results| + 1 && r.results[..|before.results|] == before.results
      && r.results[|before.results|].toolUseId == call.0
      && ResultIds(r.results) == ResultIds(before.results) + [call.0]
      && Successes(r.results) - Successes(before.results) == r.count - before.count
      && (before.count <= s.maxUses ==> r.count <= s.maxUses) && (SuccessesFound(before) ==> SuccessesFound(r))
      && (AllErrors(r.results) ==> AllErrors(before.results) && r.count == before.count && r.found == before.found)
  {}

  predicate SuccessesFound(r: Round) {
    forall i | 0 <= i < |r.results| && !r.results[i].isError :: r.results[i].toolUseId in r.found
  }

  /** A round answers every call once, in order and under its own id, and counts exactly its successes. */
  lemma {:induction false} RoundAnswersEveryCall(start: Round, calls: seq<(string, string)>, s: Session)
    requires start.results == [] && start.count <= s.maxUses
    ensures
      var r := AnswerAll(start, calls, s);
      && ResultIds(r.results) == Ids(calls) && SuccessesFound(r)
      && r.count == start.count + Successes(r.results) && r.count <= s.maxUses
      && (AllErrors(r.results) ==> r.count == start.count && r.found == start.found)
  {
    if calls != [] {
      var front, call := calls[..|calls| - 1], calls[|calls| - 1];
      RoundAnswersEveryCall(start, front, s);
      LastAnswer(AnswerAll(start, front, s), call, s);
      IdsConcat(front, [call]);
      assert calls == front + [call] && Ids([call]) == [call.0];
    }
  }

  lemma {:induction false} NoSuccessIffAllErrors(results: seq<ToolResult>)
    ensures Successes(results) == 0 <==> AllErrors(results)
  {
    if results != [] {
      NoSuccessIffAllErrors(results[..|results| - 1]);
    }
  }

  method ExecuteSearches(start: Round, calls: seq<(string, string)>, s: Session) returns (r: Round)
    ensures r == AnswerAll(start, calls, s)
  {
    var results, found := start.results, start.found;
    var count: nat, attempts: nat := start.count, start.attempts;
    for i := 0 to |calls|
      invariant Round(results, count, attempts, found) == AnswerAll(start, calls[..i], s)
    {
      var (id, query) := calls[i];
      assert calls[..i + 1][..i] == calls[..i];
      if count >= s.maxUses {
        results := results + [ToolResult(id, LIMIT_TEXT, true)];
        continue;
      }
      var outcome := s.provider(attempts, query);
      attempts := attempts + 1;
      if outcome.Some? {
        found := found[id := outcome.value];
        results := results + [ToolResult(id, s.describe(outcome), false)];
        count := count + 1;
      } else {
        results := results + [ToolResult(id, s.describe(None), true)];
      }
    }
    assert calls[..|calls|] == calls;
    r := Round(results, count, attempts, found);
  }

  // ---------------------------------------------------------------- what is searched for, and what is told of it

  /** Call by call and side by side, the answerable search calls of a reply with their own queries. */
  lemma {:induction false} SearchesConcat(a: seq<Block>, b: seq<Block>, tool: string)
    ensures Searches(a + b, tool) == Searches(a, tool) + Searches(b, tool)
  {
    if b == [] {
      assert a + b == a;
    } else {
      SearchesConcat(a, b[..|b| - 1], tool);
      assert (a + b)[..|a + b| - 1] == a + b[..|b| - 1];
      Regroup(Searches(a, tool), Searches(b[..|b| - 1], tool), SearchOf(b[|b| - 1], tool));
    }
  }

  lemma Regroup(a: seq<(string, string)>, b: seq<(string, string)>, c: seq<(string, string)>)
    ensures a + b + c == a + (b + c)
  {}

  lemma SearchesOfOne(b: Block, tool: string)
    ensures
      Searches([b], tool) ==
        if b.kind != Some("tool_use") || b.name != Some(tool) || b.id.None? then []
        else [(b.id.value, if b.query.Some? then b.query.value else "")]
  {
    assert Searches([], tool) == [];
  }

  /**
   The result of a round's i-th call. Below the limit the provider is asked for the call's own query, as the next
   attempt of the request, and the result tells its answer; at the limit nothing is asked.
   */
  predicate AnsweredAt(results: seq<ToolResult>, calls: seq<(string, string)>, i: nat, start: Round, s: Session)
    requires i < |calls| == |results|
  {
    if start.count + Successes(results[..i]) >= s.maxUses then
      results[i] == ToolResult(calls[i].0, "Search limit reached. No more searches available.", true)
    else
      var outcome := s.provider(start.attempts + i, calls[i].1);
      results[i] == ToolResult(calls[i].0, s.describe(outcome), outcome.None?)
  }

  /** All calls so far are answered, and the count and the attempts are theirs. */
  predicate AsksItsCalls(r: Round, start: Round, calls: seq<(string, string)>, s: Session) {
    && |r.results| == |calls| && r.count == start.count + Successes(r.results)
    && (r.count < s.maxUses ==> r.attempts == start.attempts + |calls|)
    && forall i: nat | i < |calls| :: AnsweredAt(r.results, calls, i, start, s)
  }

  lemma {:induction false} RoundAsksItsCalls(start: Round, calls: seq<(string, string)>, s: Session)
    requires start.results == []
    ensures AsksItsCalls(AnswerAll(start, calls, s), start, calls, s)
  {
    if calls != [] {
      RoundAsksItsCalls(start, calls[..|calls| - 1], s);
      AsksNext(AnswerAll(start, calls[..|calls| - 1], s), start, calls, s);
    }
  }

  lemma AsksNext(before: Round, start: Round, calls: seq<(string, string)>, s: Session)
    requires calls != [] && AsksItsCalls(before, start, calls[..|calls| - 1], s)
    ensures AsksItsCalls(Answer1(before, calls[|calls| - 1], s), start, calls, s)
  {
    var n := |calls| - 1;
    var r := Answer1(before, calls[n], s);
    LastAnswer(before, calls[n], s);
    forall i: nat | i < n ensures AnsweredAt(r.results, calls, i, start, s) {
      assert AnsweredAt(before.results, calls[..n], i, start, s);
      assert r.results[..n][..i] == r.results[..i];
    }
  }

  predicate SucceededAt(results: seq<ToolResult>, calls: seq<(string, string)>, id: string, i: nat)
    requires |results| == |calls|
  {
    i < |calls| && calls[i].0 == id && !results[i].isError
  }

  /** The last of the first `n` calls that has this id and succeeded. */
  function LastSuccess(results: seq<ToolResult>, calls: seq<(string, string)>, id: string, n: nat): (k: Option<nat>)
    requires n <= |calls| == |results|
    ensures k.Some? ==> k.value < n && SucceededAt(results, calls, id, k.value)
    ensures forall i: nat | i < n && (k.None? || k.value < i) :: !SucceededAt(results, calls, id, i)
  {
    if n == 0 then None
    else if SucceededAt(results, calls, id, n - 1) then Some(n - 1)
    else LastSuccess(results, calls, id, n - 1)
  }

  lemma {:induction false} LastSuccessStays(results: seq<ToolResult>, more: seq<ToolResult>,
                                            calls: seq<(string, string)>, further: seq<(string, string)>,
                                            id: string, n: nat)
    requires n <= |calls| == |results| && |further| == |more| && results <= more && calls <= further
    ensures LastSuccess(more, further, id, n) == LastSuccess(results, calls, id, n)
  {
    if n > 0 {
      LastSuccessStays(results, more, calls, further, id, n - 1);
    }
  }

  /** What is kept for an id is the answer to the last of its calls that succeeded, or what was kept before. */
  predicate KeptFor(found: map<string, seq<SearchResult>>, last: Option<nat>, start: Round,
                    calls: seq<(string, string)>, s: Session, id: string)
    requires last.Some? ==> last.value < |calls|
  {
    match last
    case None => (id in found <==> id in start.found) && (id in found ==> found[id] == start.found[id])
    case Some(i) => id in found && s.provider(start.attempts + i, calls[i].1) == Some(found[id])
  }

  lemma {:induction false} FoundIsTheLastAnswer(start: Round, calls: seq<(string, string)>, s: Session, id: string)
    requires start.results == []
    ensures
      var r := AnswerAll(start, calls, s);
      |r.results| == |calls| && KeptFor(r.found, LastSuccess(r.results, calls, id, |calls|), start, calls, s, id)
  {
    RoundAsksItsCalls(start, calls, s);
    if calls != [] {
      var front, call := calls[..|calls| - 1], calls[|calls| - 1];
      FoundIsTheLastAnswer(start, front, s, id);
      RoundAsksItsCalls(start, front, s);
      KeptNext(AnswerAll(start, front, s), start, calls, s, id);
    }
  }

  lemma KeptNext(before: Round, start: Round, calls: seq<(string, string)>, s: Session, id: string)
    requires calls != [] && |before.results| == |calls| - 1
    requires before.count < s.maxUses ==> before.attempts == start.attempts + |calls| - 1
    requires
      var front := calls[..|calls| - 1];
      KeptFor(before.found, LastSuccess(before.results, front, id, |front|), start, front, s, id)
    ensures
      var r := Answer1(before, calls[|calls| - 1], s);
      KeptFor(r.found, LastSuccess(r.results, calls, id, |calls|), start, calls, s, id)
  {
    var n := |calls| - 1;
    var r := Answer1(before, calls[n], s);
    LastAnswer(before, calls[n], s);
    LastSuccessStays(before.results, r.results, calls[..n], calls, id, n);
  }

  // ---------------------------------------------------------------- what a request's calls amount to

  function ParsedReply(upstream: Upstream, k: nat, bytes: Bytes): seq<Reply> {
    var a := upstream(k, bytes);
    if a.Accepted? && a.reply.Parsed? then [a.reply] else []
  }

  /** The replies that parsed, among the answers to the bodies sent, in order. */
  function Replies(upstream: Upstream, sent: seq<Bytes>): seq<Reply> {
    if sent == [] then []
    else Replies(upstream, sent[..|sent| - 1]) + ParsedReply(upstream, |sent| - 1, sent[|sent| - 1])
  }

  function Contents(replies: seq<Reply>): seq<Block>
    requires forall i | 0 <= i < |replies| :: replies[i].Parsed?
  {
    if replies == [] then [] else Contents(replies[..|replies| - 1]) + replies[|replies| - 1].content
  }

  function AddUsage(a: Usage, b: Usage): Usage {
    Usage(a.input + b.input, a.output + b.output, a.cacheRead + b.cacheRead, a.cacheWrite + b.cacheWrite)
  }

  function Usages(replies: seq<Reply>): Usage
    requires forall i | 0 <= i < |replies| :: replies[i].Parsed?
  {
    if replies == [] then Usage(0, 0, 0, 0)
    else AddUsage(Usages(replies[..|replies| - 1]), replies[|replies| - 1].usage)
  }

  lemma {:induction false} ContentsConcat(a: seq<Reply>, b: seq<Reply>)
    requires (forall i | 0 <= i < |a| :: a[i].Parsed?) && forall i | 0 <= i < |b| :: b[i].Parsed?
    ensures Contents(a + b) == Contents(a) + Contents(b)
    ensures |b| == 1 ==> Contents(b) == b[0].content
  {
    if b == [] {
      assert a + b == a;
    } else {
      ContentsConcat(a, b[..|b| - 1]);
      assert (a + b)[..|a + b| - 1] == a + b[..|b| - 1];
    }
  }

  function Total(values: seq<int>): int {
    if values == [] then 0 else Total(values[..|values| - 1]) + values[|values| - 1]
  }

  /** Each of the four token counts is added up over the replies, by itself. */
  lemma {:induction false} UsagesAreSums(replies: seq<Reply>)
    requires forall i | 0 <= i < |replies| :: replies[i].Parsed?
    ensures
      var n, u := |replies|, Usages(replies);
      && u.input == Total(seq(n, i requires 0 <= i < n => replies[i].usage.input))
      && u.output == Total(seq(n, i requires 0 <= i < n => replies[i].usage.output))
      && u.cacheRead == Total(seq(n, i requires 0 <= i < n => replies[i].usage.cacheRead))
      && u.cacheWrite == Total(seq(n, i requires 0 <= i < n => replies[i].usage.cacheWrite))
  {
    var n := |replies|;
    if n > 0 {
      var front := replies[..n - 1];
      UsagesAreSums(front);
      assert seq(n, i requires 0 <= i < n => replies[i].usage.input)[..n - 1] ==
        seq(n - 1, i requires 0 <= i < n - 1 => front[i].usage.input);
      assert seq(n, i requires 0 <= i < n => replies[i].usage.output)[..n - 1] ==
        seq(n - 1, i requires 0 <= i < n - 1 => front[i].usage.output);
      assert seq(n, i requires 0 <= i < n => replies[i].usage.cacheRead)[..n - 1] ==
        seq(n - 1, i requires 0 <= i < n - 1 => front[i].usage.cacheRead);
      assert seq(n, i requires 0 <= i < n => replies[i].usage.cacheWrite)[..n - 1] ==
        seq(n - 1, i requires 0 <= i < n - 1 => front[i].usage.cacheWrite);
    }
  }

  /** The round that answers a reply, and what is left of the searches after the first `n` replies were answered. */
  function RoundFor(before: Round, reply: Reply, s: Session): Round {
    if reply.Parsed? then AnswerAll(before, Searches(reply.content, s.tool), s) else before
  }

  function RoundAfter(replies: seq<Reply>, n: nat, s: Session): Round
    requires n <= |replies|
  {
    if n == 0 then NO_SEARCHES else RoundFor(RoundAfter(replies, n - 1, s), replies[n - 1], s).(results := [])
  }

  /** Whether the conversation goes on after a reply: it stopped for a tool, and one of its searches succeeds. */
  predicate GoesOn(before: Round, reply: Reply, s: Session) {
    reply.Parsed? && reply.stop == Some("tool_use") && !AllErrors(RoundFor(before, reply, s).results)
  }

  /**
   From position `from` on, the messages are one turn of the assistant and one of the user for each of the first
   replies.
   */
  predicate Turns(messages: seq<Message>, from: nat, replies: seq<Reply>, rounds: nat, s: Session) {
    && rounds <= |replies| && |messages| == from + 2 * rounds
    && forall i: nat | i < rounds :: TurnAt(messages, from, replies, i, s)
  }

  predicate TurnAt(messages: seq<Message>, from: nat, replies: seq<Reply>, i: nat, s: Session)
    requires i < |replies| && from + 2 * i + 1 < |messages|
  {
    Turn(messages[from + 2 * i], messages[from + 2 * i + 1], RoundAfter(replies, i, s), replies[i], s)
  }

  /** The assistant's turn repeats the reply; the user's reports the round that answers it. */
  predicate Turn(assistant: Message, user: Message, before: Round, reply: Reply, s: Session) {
    GoesOn(before, reply, s) && assistant == Assistant(reply.content)
      && user == User(RoundFor(before, reply, s).results)
  }

  lemma {:induction false} RoundAfterIsBounded(replies: seq<Reply>, n: nat, s: Session)
    requires n <= |replies|
    ensures RoundAfter(replies, n, s).results == [] && RoundAfter(replies, n, s).count <= s.maxUses
  {
    if n > 0 {
      RoundAfterIsBounded(replies, n - 1, s);
      if replies[n - 1].Parsed? {
        RoundAnswersEveryCall(RoundAfter(replies, n - 1, s), Searches(replies[n - 1].content, s.tool), s);
      }
    }
  }

  /** So a user's turn has exactly one result for each search call of the reply, in order, and some are successes. */
  lemma TurnAnswersEveryCall(messages: seq<Message>, from: nat, replies: seq<Reply>, rounds: nat, s: Session, i: nat)
    requires Turns(messages, from, replies, rounds, s) && i < rounds
    ensures
      var user := messages[from + 2 * i + 1];
      && replies[i].Parsed? && user.User? && ResultIds(user.results) == Ids(Searches(replies[i].content, s.tool))
      && Successes(user.results) > 0
      && RoundAfter(replies, i + 1, s).count == RoundAfter(replies, i, s).count + Successes(user.results)
  {
    assert TurnAt(messages, from, replies, i, s);
    RoundAfterIsBounded(replies, i, s);
    RoundAnswersEveryCall(RoundAfter(replies, i, s), Searches(replies[i].content, s.tool), s);
    NoSuccessIffAllErrors(RoundFor(RoundAfter(replies, i, s), replies[i], s).results);
  }

  /** And those results are the provider's own answers: the turns repeat the reply and report what was found. */
  lemma TurnReportsTheRound(messages: seq<Message>, from: nat, replies: seq<Reply>, rounds: nat, s: Session, i: nat)
    requires Turns(messages, from, replies, rounds, s) && i < rounds
    ensures
      var assistant, user := messages[from + 2 * i], messages[from + 2 * i + 1];
      && replies[i].Parsed? && assistant == Assistant(replies[i].content) && user.User?
      && var calls := Searches(replies[i].content, s.tool);
         && |user.results| == |calls|
         && forall j: nat | j < |calls| :: AnsweredAt(user.results, calls, j, RoundAfter(replies, i, s), s)
  {
    assert TurnAt(messages, from, replies, i, s);
    RoundAfterIsBounded(replies, i, s);
    RoundAsksItsCalls(RoundAfter(replies, i, s), Searches(replies[i].content, s.tool), s);
  }

  /**
   The conversation goes on if and only if the reply stopped for a tool, searches are left, and the provider would
   answer one of the reply's calls, each being made as the next attempt.
   */
  lemma GoesOnIff(before: Round, reply: Reply, s: Session)
    requires reply.Parsed? && before.results == []
    ensures
      var calls := Searches(reply.content, s.tool);
      GoesOn(before, reply, s) <==>
        reply.stop == Some("tool_use") && before.count < s.maxUses && WouldAnswer(before.attempts, calls, s)
  {
    var calls := Searches(reply.content, s.tool);
    RoundAsksItsCalls(before, calls, s);
    SomeSucceedIff(before, AnswerAll(before, calls, s), calls, s);
  }

  /** Were the calls made one after the other from an attempt on, the provider would answer one of them. */
  predicate WouldAnswer(attempt: nat, calls: seq<(string, string)>, s: Session) {
    exists i | 0 <= i < |calls| :: s.provider(attempt + i, calls[i].1).Some?
  }

  lemma SomeSucceedIff(before: Round, r: Round, calls: seq<(string, string)>, s: Session)
    requires AsksItsCalls(r, before, calls, s)
    ensures
      !AllErrors(r.results) <==>
        before.count < s.maxUses && WouldAnswer(before.attempts, calls, s)
  {
    if AllErrors(r.results) {
      forall i: nat | i < |calls| && before.count < s.maxUses
        ensures s.provider(before.attempts + i, calls[i].1).None?
      {
        assert AnsweredAt(r.results, calls, i, before, s);
        NoSuccessIffAllErrors(r.results[..i]);
      }
    } else {
      var i: nat :| i < |calls| && !r.results[i].isError;
      assert AnsweredAt(r.results, calls, i, before, s);
      assert s.provider(before.attempts + i, calls[i].1).Some?;
    }
  }

  /** The answerable search calls of the first `n` replies, in order. */
  function AllCalls(replies: seq<Reply>, n: nat, tool: string): seq<(string, string)>
    requires n <= |replies|
  {
    if n == 0 then []
    else AllCalls(replies, n - 1, tool) + if replies[n - 1].Parsed? then Searches(replies[n - 1].content, tool) else []
  }

  lemma {:induction false} AnswerOn(start: Round, results: seq<ToolResult>, calls: seq<(string, string)>, s: Session)
    ensures
      AnswerAll(start.(results := results), calls, s).(results := []) == AnswerAll(start, calls, s).(results := [])
  {
    if calls != [] {
      AnswerOn(start, results, calls[..|calls| - 1], s);
    }
  }

  lemma {:induction false} AnswerConcat(start: Round, a: seq<(string, string)>, b: seq<(string, string)>, s: Session)
    ensures AnswerAll(start, a + b, s) == AnswerAll(AnswerAll(start, a, s), b, s)
  {
    if b == [] {
      assert a + b == a;
    } else {
      AnswerConcat(start, a, b[..|b| - 1], s);
      assert (a + b)[..|a + b| - 1] == a + b[..|b| - 1];
    }
  }

  /** Rounds share one count, one numbering of attempts and one store: together they are one round over all calls. */
  lemma {:induction false} RoundsAreOneRound(replies: seq<Reply>, n: nat, s: Session)
    requires n <= |replies|
    ensures RoundAfter(replies, n, s) == AnswerAll(NO_SEARCHES, AllCalls(replies, n, s.tool), s).(results := [])
  {
    if n > 0 {
      RoundsAreOneRound(replies, n - 1, s);
      var earlier := AllCalls(replies, n - 1, s.tool);
      if replies[n - 1].Parsed? {
        var calls, whole := Searches(replies[n - 1].content, s.tool), AnswerAll(NO_SEARCHES, earlier, s);
        AnswerConcat(NO_SEARCHES, earlier, calls, s);
        AnswerOn(whole, [], calls, s);
      } else {
        assert earlier + [] == earlier;
      }
    }
  }

  /** So what is kept for an id is the answer to its last successful call of the whole conversation. */
  lemma FoundOverTheConversation(replies: seq<Reply>, n: nat, s: Session, id: string)
    requires n <= |replies|
    ensures
      var calls := AllCalls(replies, n, s.tool);
      var results := AnswerAll(NO_SEARCHES, calls, s).results;
      && |results| == |calls| && (forall i: nat | i < |calls| :: AnsweredAt(results, calls, i, NO_SEARCHES, s))
      && var last := LastSuccess(results, calls, id, |calls|);
         && (id in RoundAfter(replies, n, s).found <==> last.Some?)
         && (last.Some? ==> s.provider(last.value, calls[last.value].1) == Some(RoundAfter(replies, n, s).found[id]))
  {
    RoundsAreOneRound(replies, n, s);
    RoundAsksItsCalls(NO_SEARCHES, AllCalls(replies, n, s.tool), s);
    FoundIsTheLastAnswer(NO_SEARCHES, AllCalls(replies, n, s.tool), s, id);
  }

  /** Replies to come do not change the rounds before them. */
  lemma {:induction false} RoundsStay(replies: seq<Reply>, more: seq<Reply>, n: nat, s: Session)
    requires n <= |replies| && replies <= more
    ensures RoundAfter(more, n, s) == RoundAfter(replies, n, s)
  {
    if n > 0 {
      RoundsStay(replies, more, n - 1, s);
    }
  }

  // ---------------------------------------------------------------- rewriting the final content

  datatype Piece = Content(b: Block) | Found(toolUseId: string, results: seq<SearchResult>)

  function AsPieces(content: seq<Block>): seq<Piece> {
    seq(|content|, i requires 0 <= i < |content| => Content(content[i]))
  }

  function RewriteBlock(b: Block, found: map<string, seq<SearchResult>>, tool: string): seq<Piece> {
    if !IsSearch(b, tool) then [Content(b)]
    else
      [Content(b.(kind := Some("server_tool_use")))]
      + if b.id.Some? then [Found(b.id.value, if b.id.value in found then found[b.id.value] else [])] else []
  }

  function Rewrite(content: seq<Block>, found: map<string, seq<SearchResult>>, tool: string): seq<Piece> {
    if content == [] then []
    else Rewrite(content[..|content| - 1], found, tool) + RewriteBlock(content[|content| - 1], found, tool)
  }

  lemma RewriteNext(content: seq<Block>, k: nat, found: map<string, seq<SearchResult>>, tool: string)
    requires k < |content|
    ensures Rewrite(content[..k + 1], found, tool) ==
      Rewrite(content[..k], found, tool) + RewriteBlock(content[k], found, tool)
    ensures AsPieces(content[k..]) == [Content(content[k])] + AsPieces(content[k + 1..])
  {
    assert content[..k + 1][..k] == content[..k];
  }

  /** The program rewrites its list in place, inserting a result block behind each search and stepping over it. */
  method RewriteInPlace(content: seq<Block>, found: map<string, seq<SearchResult>>, tool: string)
      returns (pieces: seq<Piece>)
    ensures pieces == Rewrite(content, found, tool)
  {
    pieces := AsPieces(content);
    var i: nat := 0;
    ghost var k: nat := 0;
    assert content[0..] == content;
    while i < |pieces|
      invariant k <= |content| && i <= |pieces|
      invariant pieces[..i] == Rewrite(content[..k], found, tool) && pieces[i..] == AsPieces(content[k..])
      decreases |content| - k
    {
      RewriteNext(content, k, found, tool);
      HeadOfRest(pieces, i, Content(content[k]), AsPieces(content[k + 1..]));
      ghost var done := pieces[..i];
      var b := pieces[i].b;
      i, pieces := RewriteAt(pieces, i, found, tool);
      SplitAt(done + RewriteBlock(b, found, tool), AsPieces(content[k + 1..]));
      k := k + 1;
    }
    assert content[..k] == content && pieces[..i] == pieces;
  }

  lemma HeadOfRest(pieces: seq<Piece>, i: nat, head: Piece, tail: seq<Piece>)
    requires i < |pieces| && pieces[i..] == [head] + tail
    ensures pieces[i] == head && pieces[i + 1..] == tail
  {
    assert pieces[i..][0] == head && pieces[i..][1..] == tail;
  }

  lemma SplitAt(a: seq<Piece>, b: seq<Piece>)
    ensures (a + b)[..|a|] == a && (a + b)[|a|..] == b
  {}

  /** One turn of the loop: rewrite the block at `i` and step over it and what was inserted behind it. */
  method RewriteAt(before: seq<Piece>, at: nat, found: map<string, seq<SearchResult>>, tool: string)
      returns (i: nat, pieces: seq<Piece>)
    requires at < |before| && before[at].Content?
    ensures
      var done := before[..at] + RewriteBlock(before[at].b, found, tool);
      pieces == done + before[at + 1..] && i == |done|
  {
    pieces, i := before, at;
    var b := pieces[i].b;
    if IsSearch(b, tool) {
      pieces := pieces[i := Content(b.(kind := Some("server_tool_use")))];
      if b.id.Some? {
        i := i + 1;
        pieces := pieces[..i] + [Found(b.id.value, if b.id.value in found then found[b.id.value] else [])]
          + pieces[i..];
      }
    }
    i := i + 1;
  }

  function Inserted(pieces: seq<Piece>): seq<string> {
    if pieces == [] then [] else Inserted(pieces[..|pieces| - 1]) + InsertedAt(pieces[|pieces| - 1])
  }

  function InsertedAt(p: Piece): seq<string> {
    if p.Found? then [p.toolUseId] else []
  }

  function Blocks(pieces: seq<Piece>): seq<Block> {
    if pieces == [] then [] else Blocks(pieces[..|pieces| - 1]) + BlockAt(pieces[|pieces| - 1])
  }

  function BlockAt(p: Piece): seq<Block> {
    if p.Content? then [p.b] else []
  }

  function Rename(b: Block, tool: string): Block {
    if IsSearch(b, tool) then b.(kind := Some("server_tool_use")) else b
  }

  function Renamed(content: seq<Block>, tool: string): seq<Block> {
    seq(|content|, i requires 0 <= i < |content| => Rename(content[i], tool))
  }

  lemma AddPiece(pieces: seq<Piece>, p: Piece)
    ensures Inserted(pieces + [p]) == Inserted(pieces) + InsertedAt(p)
    ensures Blocks(pieces + [p]) == Blocks(pieces) + BlockAt(p)
  {
    assert (pieces + [p])[..|pieces|] == pieces;
  }

  lemma AddRewritten(pieces: seq<Piece>, b: Block, found: map<string, seq<SearchResult>>, tool: string,
                     more: seq<Piece>)
    requires more == pieces + RewriteBlock(b, found, tool)
    ensures Inserted(more) == Inserted(pieces) + Ids(SearchOf(b, tool))
    ensures Blocks(more) == Blocks(pieces) + [Rename(b, tool)]
  {
    var p := RewriteBlock(b, found, tool);
    AddPiece(pieces, p[0]);
    if |p| == 2 {
      AddPiece(pieces + [p[0]], p[1]);
      assert pieces + p == pieces + [p[0]] + [p[1]];
    } else {
      assert p == [p[0]];
    }
  }

  lemma IdsConcat(a: seq<(string, string)>, b: seq<(string, string)>)
    ensures Ids(a + b) == Ids(a) + Ids(b)
  {}

  /** Rewriting keeps every block in order and only renames the searches. */
  lemma {:induction false} RewriteKeepsBlocks(content: seq<Block>, found: map<string, seq<SearchResult>>, tool: string)
    ensures Blocks(Rewrite(content, found, tool)) == Renamed(content, tool)
  {
    if content != [] {
      var front, last := content[..|content| - 1], content[|content| - 1];
      RewriteKeepsBlocks(front, found, tool);
      AddRewritten(Rewrite(front, found, tool), last, found, tool, Rewrite(content, found, tool));
      RenamedNext(content, front, tool);
    }
  }

  lemma RenamedNext(content: seq<Block>, front: seq<Block>, tool: string)
    requires |content| == |front| + 1 && front == content[..|front|]
    ensures Renamed(content, tool) == Renamed(front, tool) + [Rename(content[|front|], tool)]
  {}

  /** What rewriting inserts is one result per answerable search call, in the order of the calls. */
  lemma {:induction false} RewriteInsertsResults(content: seq<Block>, found: map<string, seq<SearchResult>>,
                                                 tool: string)
    ensures Inserted(Rewrite(content, found, tool)) == Ids(Searches(content, tool))
  {
    if content != [] {
      var front, last := content[..|content| - 1], content[|content| - 1];
      RewriteInsertsResults(front, found, tool);
      AddRewritten(Rewrite(front, found, tool), last, found, tool, Rewrite(content, found, tool));
      IdsConcat(Searches(front, tool), SearchOf(last, tool));
    }
  }

  /** An inserted result stands right behind its call and holds what was found for that id, or nothing. */
  predicate FollowsItsCall(pieces: seq<Piece>, k: nat, found: map<string, seq<SearchResult>>, tool: string)
    requires k < |pieces|
  {
    pieces[k].Found? ==>
      && k > 0 && pieces[k - 1].Content?
      && pieces[k - 1].b.kind == Some("server_tool_use") && pieces[k - 1].b.name == Some(tool)
      && pieces[k - 1].b.id == Some(pieces[k].toolUseId)
      && pieces[k].results == if pieces[k].toolUseId in found then found[pieces[k].toolUseId] else []
  }

  predicate AllFollow(pieces: seq<Piece>, found: map<string, seq<SearchResult>>, tool: string) {
    forall k: nat | k < |pieces| :: FollowsItsCall(pieces, k, found, tool)
  }

  lemma {:induction false} FoundFollowsItsCall(content: seq<Block>, found: map<string, seq<SearchResult>>, tool: string)
    ensures AllFollow(Rewrite(content, found, tool), found, tool)
  {
    if content != [] {
      var front, last := content[..|content| - 1], content[|content| - 1];
      FoundFollowsItsCall(front, found, tool);
      OneFollowsItsCall(last, found, tool);
      BehindFront(Rewrite(front, found, tool), RewriteBlock(last, found, tool), found, tool);
    }
  }

  lemma OneFollowsItsCall(b: Block, found: map<string, seq<SearchResult>>, tool: string)
    ensures AllFollow(RewriteBlock(b, found, tool), found, tool)
  {}

  lemma BehindFront(front: seq<Piece>, more: seq<Piece>, found: map<string, seq<SearchResult>>, tool: string)
    requires AllFollow(front, found, tool) && AllFollow(more, found, tool)
    ensures AllFollow(front + more, found, tool)
  {
    forall k: nat | k < |front + more| ensures FollowsItsCall(front + more, k, found, tool) {
      if k < |front| {
        assert FollowsItsCall(front, k, found, tool);
      } else {
        assert FollowsItsCall(more, k - |front|, found, tool);
      }
    }
  }

  // ---------------------------------------------------------------- the loop

  datatype Outcome =
    | Finished(pieces: seq<Piece>, capped: bool)
    | UpstreamFailed
    | BadReply

  function Min(a: nat, b: nat): nat {
    if a < b then a else b
  }

  lemma RepliesNext(upstream: Upstream, sent: seq<Bytes>, next: Bytes)
    ensures Replies(upstream, sent + [next]) == Replies(upstream, sent) + ParsedReply(upstream, |sent|, next)
  {
    assert (sent + [next])[..|sent|] == sent;
  }

  /** How many messages the loop had added when it sent its k-th body; `extra` is 1 when the first call was retried. */
  function Told(k: nat, extra: nat): nat {
    if k < extra then 0 else 2 * (k - extra)
  }

  /** Every body carries the original request, with exactly the history there was when it was sent. */
  predicate SentAsTold(sent: seq<Bytes>, original: Request, messages: seq<Message>, extra: nat) {
    forall k | 0 <= k < |sent| ::
      && sent[k].Encoded? && sent[k].body.rest == original.rest
      && sent[k].body.messages <= messages && |sent[k].body.messages| == |original.messages| + Told(k, extra)
  }

  predicate CarryAll(sent: seq<Bytes>, from: nat, r: Request) {
    forall k | from <= k < |sent| ::
      sent[k].Encoded? && sent[k].body.rest == r.rest && sent[k].body.messages == r.messages
  }

  function TheReply(a: Answer): seq<Reply> {
    if a.Accepted? && a.reply.Parsed? then [a.reply] else []
  }

  predicate LastAnswered(upstream: Upstream, sent: seq<Bytes>, answer: Answer) {
    sent != [] && answer == upstream(|sent| - 1, sent[|sent| - 1])
  }

  lemma FirstExchange(ctx: Option<BetaLearning.Context>, r: Request, upstream: Upstream, lower: string -> string)
    ensures
      var x := BetaLearning.Learn(ctx, Encode(r), upstream, lower);
      && (|x.sent| == 1 || (|x.sent| == 2 && upstream(0, x.sent[0]).Failed?))
      && CarryAll(x.sent, 0, r) && Replies(upstream, x.sent) == TheReply(x.last)
      && LastAnswered(upstream, x.sent, x.last)
  {
    var x := BetaLearning.Learn(ctx, Encode(r), upstream, lower);
    FirstReplies(upstream, x.sent);
  }

  /** The betas of all bodies after the first exchange: once upstream rejected some, the original ones without those. */
  function LaterBetas(original: Request, ctx: Option<BetaLearning.Context>, x: BetaLearning.Exchange,
                      lower: string -> string): seq<string> {
    if x.first.Failed? && ctx.Some? then
      BetaLearning.Without(original.betas, BetaLearning.ParseRejected(lower, x.first.message, ctx.value.forwarded))
    else original.betas
  }

  predicate CarriesAt(sent: seq<Bytes>, k: nat, betas: seq<string>)
    requires k < |sent|
  {
    sent[k].Encoded? && sent[k].body.betas == if betas == [] then None else Some(Strings(betas))
  }

  /** What the first exchange teaches: the bodies it sent, and the betas of all bodies to come. */
  datatype Lesson = Lesson(first: seq<Bytes>, betas: seq<string>)

  function LessonOf(ctx: Option<BetaLearning.Context>, original: Request, upstream: Upstream,
                    lower: string -> string): Lesson {
    var x := BetaLearning.Learn(ctx, Encode(original), upstream, lower);
    Lesson(x.sent, LaterBetas(original, ctx, x, lower))
  }

  /**
   After `heard` replies: the first bodies were those of the exchange that learns, and every later one carries its
   betas.
   */
  function BetasNow(w: Lesson, original: Request, heard: nat): seq<string> {
    if heard == 0 then original.betas else w.betas
  }

  function FirstSent(w: Lesson, heard: nat): seq<Bytes> {
    if heard == 0 then [] else w.first
  }

  predicate BetasLearned(w: Lesson, original: Request, request: Request, sent: seq<Bytes>, heard: nat) {
    && request.betas == BetasNow(w, original, heard) && FirstSent(w, heard) <= sent
    && (heard > 0 ==> |sent| == |w.first| + heard - 1)
    && forall k: nat | |FirstSent(w, heard)| <= k < |sent| :: CarriesAt(sent, k, w.betas)
  }

  predicate BetasAsked(w: Lesson, before: Request, answer: Answer, request: Request, sent: seq<Bytes>) {
    sent == w.first && (answer.Accepted? ==> BetasLearned(w, before, request, sent, 1))
  }

  /** What the first call, or a later one, means for the betas to come. */
  lemma BetasStay(w: Lesson, original: Request, before: Request, sentBefore: seq<Bytes>, answer: Answer,
                  after: Request, sent: seq<Bytes>, heard: nat)
    requires BetasLearned(w, original, before, sentBefore, heard) && answer.Accepted?
    requires if heard == 0 then before == original && BetasAsked(w, before, answer, after, sent)
             else after == before && sent == sentBefore + [Encode(before)]
    ensures BetasLearned(w, original, after, sent, heard + 1)
  {
    forall k: nat | heard > 0 && |w.first| <= k < |sent| ensures CarriesAt(sent, k, w.betas) {
      assert k < |sentBefore| ==> CarriesAt(sentBefore, k, w.betas);
    }
  }

  method AskFirst(client: BetaLearning.EndpointClient, ctx: Option<BetaLearning.Context>, before: Request,
                  upstream: Upstream, lower: string -> string)
      returns (answer: Answer, request: Request, sent: seq<Bytes>)
    modifies client
    ensures request == before.(betas := request.betas) && CarryAll(sent, 0, before)
    ensures |sent| == 1 || (|sent| == 2 && upstream(0, sent[0]).Failed?)
    ensures Replies(upstream, sent) == TheReply(answer) && LastAnswered(upstream, sent, answer)
    ensures BetasAsked(LessonOf(ctx, before, upstream, lower), before, answer, request, sent)
  {
    answer, sent, request := BetaLearning.InvokeWebSearchFirst(client, ctx, before, upstream, lower);
    FirstExchange(ctx, before, upstream, lower);
  }

  /** The upstream call of one iteration; only the first may be two calls. */
  method Ask(client: BetaLearning.EndpointClient, ctx: Option<BetaLearning.Context>, ghost original: Request,
             before: Request, sentBefore: seq<Bytes>, ghost heard: nat, first: bool, upstream: Upstream,
             lower: string -> string, ghost w: Lesson)
      returns (answer: Answer, request: Request, sent: seq<Bytes>)
    requires w == LessonOf(ctx, original, upstream, lower)
    requires BetasLearned(w, original, before, sentBefore, heard) && first == (heard == 0)
    requires first ==> before == original && sentBefore == []
    modifies client
    ensures request == before.(betas := request.betas)
    ensures answer.Accepted? ==> BetasLearned(w, original, request, sent, heard + 1)
    ensures sentBefore <= sent && CarryAll(sent, |sentBefore|, before)
    ensures |sent| == |sentBefore| + 1 || (first && |sent| == 2 && upstream(0, sent[0]).Failed?)
    ensures Replies(upstream, sent) == Replies(upstream, sentBefore) + TheReply(answer)
      && LastAnswered(upstream, sent, answer)
  {
    if first {
      answer, request, sent := AskFirst(client, ctx, before, upstream, lower);
    } else {
      answer, sent := AskAgain(before, sentBefore, upstream);
      request := before;
    }
    if answer.Accepted? {
      BetasStay(w, original, before, sentBefore, answer, request, sent, heard);
    }
  }

  method AskAgain(before: Request, sentBefore: seq<Bytes>, upstream: Upstream)
      returns (answer: Answer, sent: seq<Bytes>)
    ensures sent == sentBefore + [Encode(before)] && CarryAll(sent, |sentBefore|, before)
    ensures Replies(upstream, sent) == Replies(upstream, sentBefore) + TheReply(answer)
      && LastAnswered(upstream, sent, answer)
  {
    var bytes := Encode(before);
    answer := upstream(|sentBefore|, bytes);
    sent := sentBefore + [bytes];
    RepliesNext(upstream, sentBefore, bytes);
  }

  lemma FirstReplies(upstream: Upstream, sent: seq<Bytes>)
    requires 1 <= |sent| <= 2
    ensures Replies(upstream, sent) ==
            ParsedReply(upstream, 0, sent[0]) + if |sent| == 2 then ParsedReply(upstream, 1, sent[1]) else []
  {
    OneReply(upstream, sent[..1]);
    if |sent| == 2 {
      assert sent[..|sent| - 1] == sent[..1];
    } else {
      assert sent[..1] == sent;
    }
  }

  lemma OneReply(upstream: Upstream, sent: seq<Bytes>)
    requires |sent| == 1
    ensures Replies(upstream, sent) == ParsedReply(upstream, 0, sent[0])
  {
    assert Replies(upstream, sent[..0]) == [];
  }

  /** What the loop carries from one iteration to the next, apart from the searches. */
  datatype Loop = Loop(request: Request, usage: Usage, content: seq<Block>, stop: Option<string>, sent: seq<Bytes>)

  /**
   Nothing the model said is lost or repeated: content and usage are those of all the replies that parsed, and the
   history is the original one followed by one pair of turns for each of the first `rounds` replies.
   */
  predicate Conserved(original: Request, l: Loop, replies: seq<Reply>, rounds: nat, s: Session) {
    && rounds <= |replies| && (forall i | 0 <= i < |replies| :: replies[i].Parsed?)
    && l.content == Contents(replies) && l.usage == Usages(replies)
    && (replies != [] ==> l.stop == replies[|replies| - 1].stop)
    && l.request.rest == original.rest && original.messages <= l.request.messages
    && Turns(l.request.messages, |original.messages|, replies, rounds, s)
  }

  predicate CallsMade(sent: seq<Bytes>, iterations: nat, upstream: Upstream) {
    |sent| == iterations || (iterations > 0 && |sent| == iterations + 1 && upstream(0, sent[0]).Failed?)
  }

  /** What holds after `heard` replies, of which the first `rounds` have been answered in the history. */
  predicate Kept(original: Request, l: Loop, upstream: Upstream, s: Session, heard: nat, rounds: nat) {
    && CallsMade(l.sent, heard, upstream) && |Replies(upstream, l.sent)| == heard
    && SentAsTold(l.sent, original, l.request.messages, |l.sent| - heard)
    && Conserved(original, l, Replies(upstream, l.sent), rounds, s)
  }

  /** The request fails with upstream, or for a reply that does not parse, and for no other reason. */
  predicate FailsRightly(out: Outcome, upstream: Upstream, sent: seq<Bytes>) {
    && sent != []
    && var last := upstream(|sent| - 1, sent[|sent| - 1]);
       if last.Failed? then out == UpstreamFailed else last.reply.Garbled? && out == BadReply
  }

  lemma NothingSaid(original: Request, l: Loop, upstream: Upstream, s: Session)
    requires Kept(original, l, upstream, s, 0, 0)
    ensures l.sent == [] && l.request == original.(betas := l.request.betas)
  {}

  /** Taking in one more reply keeps everything, until its searches are answered. */
  lemma Heard(original: Request, l: Loop, next: Loop, reply: Reply, upstream: Upstream, s: Session, n: nat)
    requires Kept(original, l, upstream, s, n, n) && reply.Parsed?
      && next.request == l.request.(betas := next.request.betas)
    requires l.sent <= next.sent && CarryAll(next.sent, |l.sent|, l.request) && CallsMade(next.sent, n + 1, upstream)
    requires |next.sent| == |l.sent| + 1 || (n == 0 && |next.sent| == 2)
    requires Replies(upstream, next.sent) == Replies(upstream, l.sent) + [reply]
    requires next.content == l.content + reply.content && next.usage == AddUsage(l.usage, reply.usage)
      && next.stop == reply.stop
    ensures Kept(original, next, upstream, s, n + 1, n)
  {
    TellNext(original, l.request, l.sent, next.sent, n);
    Accumulate(original, l, next, Replies(upstream, l.sent), reply, n, s);
  }

  /** The first half of an iteration: a call, and what its reply adds. */
  method Listen(client: BetaLearning.EndpointClient, ctx: Option<BetaLearning.Context>, ghost original: Request,
                l: Loop, ghost n: nat, first: bool, ghost s: Session, upstream: Upstream,
                lower: string -> string, ghost w: Lesson)
      returns (failure: Option<Outcome>, reply: Reply, next: Loop)
    requires Kept(original, l, upstream, s, n, n) && first == (n == 0)
    requires w == LessonOf(ctx, original, upstream, lower) && BetasLearned(w, original, l.request, l.sent, n)
    modifies client
    ensures CallsMade(next.sent, n + 1, upstream)
    ensures failure.Some? ==> FailsRightly(failure.value, upstream, next.sent)
    ensures failure.None? ==>
      && Kept(original, next, upstream, s, n + 1, n)
      && BetasLearned(w, original, next.request, next.sent, n + 1)
      && reply.Parsed? && Replies(upstream, next.sent) == Replies(upstream, l.sent) + [reply]
  {
    if first {
      NothingSaid(original, l, upstream, s);
    }
    var answer, request, sent := Ask(client, ctx, original, l.request, l.sent, n, first, upstream, lower, w);
    next := l.(request := request, sent := sent);
    reply := Garbled;
    if answer.Failed? {
      return Some(UpstreamFailed), reply, next;
    }
    if answer.reply.Garbled? {
      return Some(BadReply), reply, next;
    }
    reply := answer.reply;
    next := next.(usage := AddUsage(l.usage, reply.usage), stop := reply.stop, content := l.content + reply.content);
    Heard(original, l, next, reply, upstream, s, n);
    failure := None;
  }

  /** The next request reports the reply and answers its search calls. */
  predicate Answered(before: Request, after: Request, round: Round, reply: Reply, s: Session) {
    && |after.messages| == |before.messages| + 2 && before.messages <= after.messages
    && after == before.(messages := after.messages)
    && Turn(after.messages[|before.messages|], after.messages[|before.messages| + 1], round, reply, s)
  }

  /** The second half: the searches the reply asks for, and the two turns that report them. */
  method Respond(request: Request, before: Round, reply: Reply, s: Session)
      returns (more: bool, next: Request, round: Round)
    requires reply.Parsed? && before.results == [] && before.count <= s.maxUses
    ensures more <==> GoesOn(before, reply, s)
    ensures if more then Answered(request, next, before, reply, s) else next == request
    ensures if more then round == RoundFor(before, reply, s).(results := [])
      else round.count == before.count && round.found == before.found
    ensures more ==> before.count < round.count <= s.maxUses
  {
    more, next, round := false, request, before;
    var calls := Searches(reply.content, s.tool);
    if calls == [] || reply.stop != Some("tool_use") {
      return;
    }
    round := ExecuteSearches(before, calls, s);
    RoundAnswersEveryCall(before, calls, s);
    NoSuccessIffAllErrors(round.results);
    if AllErrors(round.results) {
      return;
    }
    var messages := request.messages + [Assistant(reply.content)];
    messages := messages + [User(round.results)];
    more, next, round := true, request.(messages := messages), round.(results := []);
  }

  lemma Advance(original: Request, l: Loop, next: Request, upstream: Upstream, s: Session, n: nat, round: Round,
                reply: Reply)
    requires Kept(original, l, upstream, s, n + 1, n) && Replies(upstream, l.sent)[n] == reply
    requires round == RoundAfter(Replies(upstream, l.sent), n, s) && Answered(l.request, next, round, reply, s)
    ensures Kept(original, l.(request := next), upstream, s, n + 1, n + 1)
  {
    TellLater(original, l.sent, l.request.messages, next.messages, |l.sent| - (n + 1));
    AdvanceHistory(original, l, next, Replies(upstream, l.sent), s, n, round, reply);
  }

  lemma AdvanceHistory(original: Request, l: Loop, next: Request, replies: seq<Reply>, s: Session, n: nat, round: Round,
                       reply: Reply)
    requires Conserved(original, l, replies, n, s) && n < |replies| && replies[n] == reply
    requires round == RoundAfter(replies, n, s) && Answered(l.request, next, round, reply, s)
    ensures Conserved(original, l.(request := next), replies, n + 1, s)
  {
    TurnsNext(l.request.messages, next.messages, |original.messages|, replies, n, s);
  }

  lemma TurnsNext(messages: seq<Message>, more: seq<Message>, from: nat, replies: seq<Reply>, n: nat, s: Session)
    requires Turns(messages, from, replies, n, s) && messages <= more && |more| == |messages| + 2 && n < |replies|
    requires Turn(more[|messages|], more[|messages| + 1], RoundAfter(replies, n, s), replies[n], s)
    ensures Turns(more, from, replies, n + 1, s)
  {
    forall i: nat | i < n ensures TurnAt(more, from, replies, i, s) {
      assert TurnAt(messages, from, replies, i, s);
    }
  }

  lemma TellNext(original: Request, r: Request, before: seq<Bytes>, after: seq<Bytes>, iterations: nat)
    requires iterations <= |before| <= iterations + 1 && before <= after && (iterations > 0 || before == [])
    requires |after| == |before| + 1 || (iterations == 0 && |after| == 2)
    requires original.messages <= r.messages && |r.messages| == |original.messages| + 2 * iterations
      && r.rest == original.rest
    requires SentAsTold(before, original, r.messages, |before| - iterations) && CarryAll(after, |before|, r)
    ensures SentAsTold(after, original, r.messages, |after| - iterations - 1)
  {}

  lemma TellLater(original: Request, sent: seq<Bytes>, messages: seq<Message>, more: seq<Message>, extra: nat)
    requires SentAsTold(sent, original, messages, extra) && messages <= more
    ensures SentAsTold(sent, original, more, extra)
  {}

  /**
   The reply of an iteration extends what was accumulated; the history lags one reply behind until the turns are taken.
   */
  lemma Accumulate(original: Request, l: Loop, next: Loop, replies: seq<Reply>, reply: Reply, rounds: nat, s: Session)
    requires Conserved(original, l, replies, rounds, s) && rounds == |replies| && reply.Parsed?
    requires next.request.messages == l.request.messages && next.request.rest == l.request.rest
    requires next.content == l.content + reply.content && next.usage == AddUsage(l.usage, reply.usage)
      && next.stop == reply.stop
    ensures Conserved(original, next, replies + [reply], rounds, s)
  {
    TurnsStay(l.request.messages, |original.messages|, replies, replies + [reply], rounds, s);
  }

  lemma TurnsStay(messages: seq<Message>, from: nat, replies: seq<Reply>, more: seq<Reply>, rounds: nat, s: Session)
    requires Turns(messages, from, replies, rounds, s) && replies <= more
    ensures Turns(messages, from, more, rounds, s)
  {
    forall i: nat | i < rounds ensures TurnAt(messages, from, more, i, s) {
      assert TurnAt(messages, from, replies, i, s);
      RoundsStay(replies, more, i, s);
    }
  }

  datatype Verdict = Continue | Final | Failure(out: Outcome)

  /** The searches made so far are those that answer the first `n` replies. */
  predicate SearchesOf(round: Round, replies: seq<Reply>, n: nat, s: Session) {
    n <= |replies| && round.count == RoundAfter(replies, n, s).count && round.found == RoundAfter(replies, n, s).found
  }

  /** The loop before its next call: `n` replies were taken in, and all of them answered. */
  predicate Going(w: Lesson, original: Request, l: Loop, round: Round, upstream: Upstream, s: Session, n: nat) {
    && Kept(original, l, upstream, s, n, n) && round == RoundAfter(Replies(upstream, l.sent), n, s)
    && BetasLearned(w, original, l.request, l.sent, n)
  }

  /** How a conversation ends: at the cap, or after the first reply that does not go on. */
  predicate EndsRightly(original: Request, l: Loop, round: Round, upstream: Upstream, s: Session, n: nat,
                        capped: bool) {
    var replies := Replies(upstream, l.sent);
    && n > 0 && Kept(original, l, upstream, s, n, if capped then n else n - 1)
    && (capped ==> n == 11 && s.maxUses > 10)
    && (!capped ==> !GoesOn(RoundAfter(replies, n - 1, s), replies[n - 1], s))
    && SearchesOf(round, replies, if capped then n else n - 1, s)
  }

  predicate Ended(w: Lesson, original: Request, l: Loop, round: Round, upstream: Upstream, s: Session, n: nat,
                  capped: bool) {
    && EndsRightly(original, l, round, upstream, s, n, capped)
    && BetasLearned(w, original, l.request, l.sent, n)
  }

  lemma NothingYet(w: Lesson, original: Request, l: Loop, upstream: Upstream, s: Session)
    requires l == Loop(original, Usage(0, 0, 0, 0), [], None, [])
    ensures Going(w, original, l, NO_SEARCHES, upstream, s, 0)
  {}

  lemma GoesOnIf(original: Request, heard: Loop, next: Request, before: Round, reply: Reply, upstream: Upstream,
                 s: Session, n: nat)
    requires Kept(original, heard, upstream, s, n + 1, n) && Replies(upstream, heard.sent)[n] == reply
    requires before == RoundAfter(Replies(upstream, heard.sent), n, s)
      && Answered(heard.request, next, before, reply, s)
    ensures Kept(original, heard.(request := next), upstream, s, n + 1, n + 1)
    ensures RoundAfter(Replies(upstream, heard.sent), n + 1, s) == RoundFor(before, reply, s).(results := [])
  {
    Advance(original, heard, next, upstream, s, n, before, reply);
  }

  lemma EndsAfterLast(original: Request, l: Loop, before: Round, round: Round, upstream: Upstream, s: Session, n: nat)
    requires Kept(original, l, upstream, s, n + 1, n) && before == RoundAfter(Replies(upstream, l.sent), n, s)
    requires !GoesOn(before, Replies(upstream, l.sent)[n], s) && round.count == before.count
      && round.found == before.found
    ensures EndsRightly(original, l, round, upstream, s, n + 1, false)
  {}

  lemma EndsAtTheCap(w: Lesson, original: Request, l: Loop, round: Round, upstream: Upstream, s: Session, n: nat)
    requires Going(w, original, l, round, upstream, s, n)
    requires n == Min(s.maxUses, ITERATION_CAP) + 1 && n <= round.count <= s.maxUses
    ensures CallsMade(l.sent, n, upstream) && Ended(w, original, l, round, upstream, s, n, true)
  {}

  /** One iteration of the loop. */
  method Iterate(client: BetaLearning.EndpointClient, ctx: Option<BetaLearning.Context>, ghost original: Request,
                 l: Loop, before: Round, iteration: nat, s: Session, upstream: Upstream,
                 lower: string -> string, ghost w: Lesson)
      returns (verdict: Verdict, next: Loop, round: Round)
    requires w == LessonOf(ctx, original, upstream, lower) && Going(w, original, l, before, upstream, s, iteration)
    modifies client
    ensures CallsMade(next.sent, iteration + 1, upstream) && before.count <= round.count <= s.maxUses
    ensures verdict.Failure? ==> FailsRightly(verdict.out, upstream, next.sent)
    ensures verdict.Continue? ==>
      Going(w, original, next, round, upstream, s, iteration + 1) && round.count > before.count
    ensures verdict.Final? ==> Ended(w, original, next, round, upstream, s, iteration + 1, false)
  {
    RoundAfterIsBounded(Replies(upstream, l.sent), iteration, s);
    var failure, reply, more, request;
    failure, reply, next := Listen(client, ctx, original, l, iteration, iteration == 0, s, upstream, lower, w);
    if failure.Some? {
      return Failure(failure.value), next, before;
    }
    RoundsStay(Replies(upstream, l.sent), Replies(upstream, next.sent), iteration, s);
    more, request, round := Respond(next.request, before, reply, s);
    if !more {
      EndsAfterLast(original, next, before, round, upstream, s, iteration);
      return Final, next, round;
    }
    GoesOnIf(original, next, request, before, reply, upstream, s, iteration);
    next := next.(request := request);
    verdict := Continue;
  }

  /** The loop itself; `n` counts the replies it took in. */
  method Converse(client: BetaLearning.EndpointClient, ctx: Option<BetaLearning.Context>, original: Request,
                  s: Session, upstream: Upstream, lower: string -> string, ghost w: Lesson)
      returns (failure: Option<Outcome>, capped: bool, l: Loop, round: Round, ghost n: nat)
    requires w == LessonOf(ctx, original, upstream, lower)
    modifies client
    ensures round.count <= s.maxUses && 1 <= n <= Min(s.maxUses, ITERATION_CAP) + 1 && CallsMade(l.sent, n, upstream)
    ensures failure.Some? ==> FailsRightly(failure.value, upstream, l.sent)
    ensures failure.None? ==> Ended(w, original, l, round, upstream, s, n, capped)
  {
    l, round := Loop(original, Usage(0, 0, 0, 0), [], None, []), NO_SEARCHES;
    var iteration: nat := 0;
    var maxIterations := Min(s.maxUses, ITERATION_CAP) + 1;
    failure, capped := None, false;
    NothingYet(w, original, l, upstream, s);
    while true
      invariant failure.None? && !capped && iteration <= maxIterations && iteration <= round.count <= s.maxUses
      invariant Going(w, original, l, round, upstream, s, iteration)
      decreases maxIterations + 1 - iteration
    {
      iteration := iteration + 1;
      if iteration > maxIterations {
        capped, n := true, iteration - 1;
        EndsAtTheCap(w, original, l, round, upstream, s, n);
        return;
      }
      var verdict;
      verdict, l, round := Iterate(client, ctx, original, l, round, iteration - 1, s, upstream, lower, w);
      n := iteration;
      if verdict.Failure? {
        failure := Some(verdict.out);
        return;
      }
      if verdict.Final? {
        return;
      }
    }
  }

  /**
   Whatever upstream and the search provider answer, the loop ends within its budget of calls, and ends where it should;
   when it finishes, every reply is accounted for exactly once, and the history grew by one pair of turns per round;
   the bodies after the first exchange carry what it left of the betas.
   */
  method HandleWithWebSearch(client: BetaLearning.EndpointClient, ctx: Option<BetaLearning.Context>, original: Request,
                             s: Session, upstream: Upstream, lower: string -> string)
      returns (out: Outcome, l: Loop, round: Round)
    modifies client
    ensures round.count <= s.maxUses && 1 <= |l.sent| <= s.maxUses + 2 && |l.sent| <= 12
    ensures |l.sent| == s.maxUses + 2 || |l.sent| == 12 ==> upstream(0, l.sent[0]).Failed?
    ensures !out.Finished? ==> FailsRightly(out, upstream, l.sent)
    ensures out.Finished? ==>
      && EndsRightly(original, l, round, upstream, s, |Replies(upstream, l.sent)|, out.capped)
      && BetasLearned(LessonOf(ctx, original, upstream, lower), original, l.request, l.sent,
                      |Replies(upstream, l.sent)|)
      && out.pieces == Rewrite(l.content, round.found, s.tool)
  {
    var failure, capped;
    ghost var n;
    failure, capped, l, round, n := Converse(client, ctx, original, s, upstream, lower,
                                             LessonOf(ctx, original, upstream, lower));
    if failure.Some? {
      return failure.value, l, round;
    }
    var pieces := RewriteInPlace(l.content, round.found, s.tool);
    out := Finished(pieces, capped);
  }
}
