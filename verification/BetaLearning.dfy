/**
 Capability learning: which betas to forward, what to make of a rejection, and the single retry. The program writes
 the retry out three times, once per request path.
 */
module BetaLearning {
  import opened Wrappers
  import opened Bedrock
  import opened Sql

  type Key = (string, string)

  datatype Entry = Entry(supported: bool, adminOverride: bool)

  /** The betas of a request that were forwarded, and those of them nothing was known about. */
  datatype Context = Context(profile: string, unknown: seq<string>, forwarded: seq<string>)

  datatype Mark = Mark(beta: string, supported: bool)

  function ApplyMark(caps: map<Key, Entry>, profile: string, m: Mark): map<Key, Entry> {
    var key := (profile, m.beta);
    if key in caps && caps[key].adminOverride then caps else caps[key := Entry(m.supported, false)]
  }

  function ApplyMarks(caps: map<Key, Entry>, profile: string, marks: seq<Mark>): map<Key, Entry> {
    if marks == [] then caps
    else ApplyMark(ApplyMarks(caps, profile, marks[..|marks| - 1]), profile, marks[|marks| - 1])
  }

  function MarkAll(betas: seq<string>, supported: bool): seq<Mark> {
    seq(|betas|, i requires 0 <= i < |betas| => Mark(betas[i], supported))
  }

  function Without(betas: seq<string>, rejected: seq<string>): seq<string> {
    if betas == [] then []
    else (if betas[0] in rejected then [] else [betas[0]]) + Without(betas[1..], rejected)
  }

  /** The candidates that the lower-cased message mentions. */
  function ParseRejected(lower: string -> string, message: string, candidates: seq<string>): seq<string> {
    if candidates == [] then []
    else
      (if Substring(lower(candidates[0]), lower(message)) then [candidates[0]] else [])
      + ParseRejected(lower, message, candidates[1..])
  }

  // ---------------------------------------------------------------- the retry body

  function Strip(betas: seq<Element>, rejected: seq<string>): seq<Element> {
    if betas == [] then [] else StripOne(betas[0], rejected) + Strip(betas[1..], rejected)
  }

  function StripOne(e: Element, rejected: seq<string>): seq<Element> {
    if e.Str? && e.s in rejected then [] else [e]
  }

  /** The body with the rejected betas taken out, or nothing when the bytes do not parse. */
  function Rebuild(bytes: Bytes, rejected: seq<string>): Option<Bytes> {
    if bytes.Unparsable? then None
    else if bytes.body.betas.None? then Some(bytes)
    else Some(Encoded(bytes.body.(betas := Some(Strip(bytes.body.betas.value, rejected)))))
  }

  lemma {:induction false} StripIsFilter(a: seq<Element>, b: seq<Element>, rejected: seq<string>)
    ensures Strip(a + b, rejected) == Strip(a, rejected) + Strip(b, rejected)
  {
    if a == [] {
      assert a + b == b;
    } else {
      StripIsFilter(a[1..], b, rejected);
      assert (a + b)[1..] == a[1..] + b;
      Regroup(StripOne(a[0], rejected), Strip(a[1..], rejected), Strip(b, rejected));
    }
  }

  lemma Regroup(a: seq<Element>, b: seq<Element>, c: seq<Element>)
    ensures a + (b + c) == a + b + c
  {}

  /**
   Stripping removes every occurrence of exactly the rejected strings; being a filter, it keeps the order of the rest.
   */
  lemma {:induction false} StripCounts(betas: seq<Element>, rejected: seq<string>, e: Element)
    ensures multiset(Strip(betas, rejected))[e] == if e.Str? && e.s in rejected then 0 else multiset(betas)[e]
  {
    if betas != [] {
      StripCounts(betas[1..], rejected, e);
      assert betas == [betas[0]] + betas[1..];
    }
  }

  lemma {:induction false} StripStrings(betas: seq<string>, rejected: seq<string>)
    ensures Strip(Strings(betas), rejected) == Strings(Without(betas, rejected))
  {
    if betas != [] {
      StripStrings(betas[1..], rejected);
      assert Strings(betas)[1..] == Strings(betas[1..]);
    }
  }

  lemma {:induction false} WithoutMembers(betas: seq<string>, rejected: seq<string>, b: string)
    ensures b in Without(betas, rejected) <==> b in betas && b !in rejected
  {
    if betas != [] {
      WithoutMembers(betas[1..], rejected, b);
      assert betas == [betas[0]] + betas[1..];
    }
  }

  lemma {:induction false} ParsedMembers(lower: string -> string, message: string, candidates: seq<string>, b: string)
    ensures b in ParseRejected(lower, message, candidates) <==> b in candidates && Substring(lower(b), lower(message))
  {
    if candidates != [] {
      ParsedMembers(lower, message, candidates[1..], b);
      assert candidates == [candidates[0]] + candidates[1..];
    }
  }

  /**
   The web-search path strips the typed request for its later rounds and the bytes for the retry. The two agree
   exactly when they leave a beta standing or there was none: otherwise the retry sends an empty list where the
   later rounds leave the field out.
   */
  lemma RetainAgreesIffSomethingLeft(r: Request, rejected: seq<string>)
    ensures Rebuild(Encode(r), rejected) == Some(Encode(r.(betas := Without(r.betas, rejected))))
            <==> r.betas == [] || Without(r.betas, rejected) != []
  {
    StripStrings(r.betas, rejected);
    assert Strings([]) == [];
  }

  // ---------------------------------------------------------------- one learned exchange

  /** Everything an exchange does: marks in order, bodies sent in order, and the first and last answers. */
  datatype Exchange = Exchange(marks: seq<Mark>, sent: seq<Bytes>, first: Answer, last: Answer)

  function Learn(ctx: Option<Context>, bytes: Bytes, upstream: Upstream, lower: string -> string): Exchange {
    var first := upstream(0, bytes);
    if first.Accepted? then
      Exchange(if ctx.Some? then MarkAll(ctx.value.unknown, true) else [], [bytes], first, first)
    else if ctx.None? || !first.validation then
      Exchange([], [bytes], first, first)
    else
      var rejected := ParseRejected(lower, first.message, ctx.value.forwarded);
      var retry := if rejected == [] then None else Rebuild(bytes, rejected);
      if retry.None? then
        Exchange(MarkAll(rejected, false), [bytes], first, first)
      else
        var last := upstream(1, retry.value);
        var learned := if last.Accepted? then MarkAll(Without(ctx.value.unknown, rejected), true) else [];
        Exchange(MarkAll(rejected, false) + learned, [bytes, retry.value], first, last)
  }

  predicate Marked(x: Exchange, beta: string, supported: bool) {
    Mark(beta, supported) in x.marks
  }

  lemma MarkAllMembers(betas: seq<string>, supported: bool, m: Mark)
    ensures m in MarkAll(betas, supported) <==> m.beta in betas && m.supported == supported
  {
    var marks := MarkAll(betas, supported);
    if m.beta in betas && m.supported == supported {
      var i :| 0 <= i < |betas| && betas[i] == m.beta;
      assert marks[i] == m;
    }
  }

  class EndpointClient {
    var caps: map<Key, Entry>

    constructor ()
      ensures caps == map[]
    {
      caps := map[];
    }

    method MarkBeta(profile: string, m: Mark)
      modifies this
      ensures caps == ApplyMark(old(caps), profile, m)
    {
      var key := (profile, m.beta);
      if key in caps && caps[key].adminOverride {
        return;
      }
      caps := caps[key := Entry(m.supported, false)];
    }

    method MarkEach(profile: string, betas: seq<string>, supported: bool)
      modifies this
      ensures caps == ApplyMarks(old(caps), profile, MarkAll(betas, supported))
    {
      var marks := MarkAll(betas, supported);
      for i := 0 to |betas|
        invariant caps == ApplyMarks(old(caps), profile, marks[..i])
      {
        MarkBeta(profile, marks[i]);
        assert marks[..i + 1][..i] == marks[..i];
      }
      assert marks[..|betas|] == marks;
    }
  }

  lemma {:induction false} MarksConcat(caps: map<Key, Entry>, profile: string, a: seq<Mark>, b: seq<Mark>)
    ensures ApplyMarks(caps, profile, a + b) == ApplyMarks(ApplyMarks(caps, profile, a), profile, b)
  {
    if b == [] {
      assert a + b == a;
    } else {
      MarksConcat(caps, profile, a, b[..|b| - 1]);
      assert (a + b)[..|a + b| - 1] == a + b[..|b| - 1];
    }
  }

  lemma NoMarks(a: seq<Mark>)
    ensures [] + a == a + [] == a
  {}

  /** A call is made again when upstream refused the first as invalid and the message names a forwarded beta. */
  ghost predicate RetryIsDue(ctx: Option<Context>, bytes: Bytes, first: Answer, lower: string -> string) {
    bytes.Encoded? && exists beta :: IsRejected(ctx, first, lower, beta)
  }

  predicate IsRejected(ctx: Option<Context>, first: Answer, lower: string -> string, beta: string) {
    && first.Failed? && first.validation && ctx.Some?
    && beta in ctx.value.forwarded && Substring(lower(beta), lower(first.message))
  }

  /** The second body is the first without the rejected betas; the rest keeps its number, and other fields stay. */
  ghost predicate IsStripped(ctx: Option<Context>, bytes: Bytes, again: Bytes, first: Answer, lower: string -> string) {
    && bytes.Encoded? && again.Encoded?
    && again.body.messages == bytes.body.messages && again.body.rest == bytes.body.rest
    && (again.body.betas.Some? <==> bytes.body.betas.Some?)
    && (bytes.body.betas.Some? ==>
        forall e :: multiset(again.body.betas.value)[e] ==
          if e.Str? && IsRejected(ctx, first, lower, e.s) then 0 else multiset(bytes.body.betas.value)[e])
    && (bytes.body.betas.Some? && ctx.Some? && first.Failed? ==>
        var rejected := ParseRejected(lower, first.message, ctx.value.forwarded);
        again.body.betas.value == Strip(bytes.body.betas.value, rejected))
  }

  /**
   What an exchange does, from its context, its body and the two answers alone: when it calls again and with what, which
   betas it marks, and which way.
   */
  lemma LearnMeans(ctx: Option<Context>, bytes: Bytes, upstream: Upstream, lower: string -> string)
    ensures
      var x := Learn(ctx, bytes, upstream, lower);
      && x.first == upstream(0, bytes) && 1 <= |x.sent| <= 2 && x.sent[0] == bytes
      && (|x.sent| == 2 <==> RetryIsDue(ctx, bytes, x.first, lower))
      && (|x.sent| == 2 ==> x.last == upstream(1, x.sent[1]) && IsStripped(ctx, bytes, x.sent[1], x.first, lower))
      && (|x.sent| == 1 ==> x.last == x.first)
      && (forall b :: Marked(x, b, false) <==> IsRejected(ctx, x.first, lower, b))
      && (forall b :: Marked(x, b, true) <==>
          x.last.Accepted? && ctx.Some? && b in ctx.value.unknown && !IsRejected(ctx, x.first, lower, b))
  {
    var x := Learn(ctx, bytes, upstream, lower);
    if ctx.Some? && x.first.Failed? && x.first.validation {
      var rejected := ParseRejected(lower, x.first.message, ctx.value.forwarded);
      forall b ensures b in rejected <==> IsRejected(ctx, x.first, lower, b) {
        ParsedMembers(lower, x.first.message, ctx.value.forwarded, b);
      }
      assert rejected != [] ==> rejected[0] in rejected;
      if bytes.Encoded? && bytes.body.betas.Some? {
        forall e ensures multiset(Strip(bytes.body.betas.value, rejected))[e] ==
                         if e.Str? && e.s in rejected then 0 else multiset(bytes.body.betas.value)[e]
        {
          StripCounts(bytes.body.betas.value, rejected, e);
        }
      }
    }
    forall b ensures
      && (Marked(x, b, false) <==> IsRejected(ctx, x.first, lower, b))
      && (Marked(x, b, true) <==>
          x.last.Accepted? && ctx.Some? && b in ctx.value.unknown && !IsRejected(ctx, x.first, lower, b))
    {
      MarksMean(ctx, bytes, upstream, lower, b);
    }
  }

  lemma MarksMean(ctx: Option<Context>, bytes: Bytes, upstream: Upstream, lower: string -> string, b: string)
    ensures
      var x := Learn(ctx, bytes, upstream, lower);
      && (Marked(x, b, false) <==> IsRejected(ctx, x.first, lower, b))
      && (Marked(x, b, true) <==>
          x.last.Accepted? && ctx.Some? && b in ctx.value.unknown && !IsRejected(ctx, x.first, lower, b))
  {
    var x := Learn(ctx, bytes, upstream, lower);
    if ctx.Some? {
      MarkAllMembers(ctx.value.unknown, true, Mark(b, true));
      MarkAllMembers(ctx.value.unknown, true, Mark(b, false));
      if x.first.Failed? {
        var rejected := ParseRejected(lower, x.first.message, ctx.value.forwarded);
        var learned := Without(ctx.value.unknown, rejected);
        ParsedMembers(lower, x.first.message, ctx.value.forwarded, b);
        WithoutMembers(ctx.value.unknown, rejected, b);
        MarkAllMembers(rejected, false, Mark(b, true));
        MarkAllMembers(rejected, false, Mark(b, false));
        MarkAllMembers(learned, true, Mark(b, true));
        MarkAllMembers(learned, true, Mark(b, false));
      }
    }
  }

  /** The non-streaming path: a retry that fails bubbles the original error. */
  method InvokeNonStreaming(client: EndpointClient, ctx: Option<Context>, bytes: Bytes, upstream: Upstream,
                            lower: string -> string)
      returns (answer: Answer, sent: seq<Bytes>)
    modifies client
    ensures
      var x := Learn(ctx, bytes, upstream, lower);
      && sent == x.sent
      && answer == if x.last.Accepted? then x.last else x.first
    ensures ctx.Some? ==>
      client.caps == ApplyMarks(old(client.caps), ctx.value.profile, Learn(ctx, bytes, upstream, lower).marks)
    ensures ctx.None? ==> client.caps == old(client.caps)
    ensures |sent| == if RetryIsDue(ctx, bytes, upstream(0, bytes), lower) then 2 else 1
    ensures answer == if |sent| == 2 && upstream(1, sent[1]).Accepted? then upstream(1, sent[1]) else upstream(0, bytes)
  {
    LearnMeans(ctx, bytes, upstream, lower);
    var result := upstream(0, bytes);
    sent := [bytes];
    if result.Failed? && result.validation && ctx.Some? {
      var rejected := ParseRejected(lower, result.message, ctx.value.forwarded);
      if rejected != [] {
        client.MarkEach(ctx.value.profile, rejected, false);
        var retryBytes := Rebuild(bytes, rejected);
        if retryBytes.Some? {
          var retry := upstream(1, retryBytes.value);
          sent := [bytes, retryBytes.value];
          if retry.Accepted? {
            var remaining := Without(ctx.value.unknown, rejected);
            client.MarkEach(ctx.value.profile, remaining, true);
            MarksConcat(old(client.caps), ctx.value.profile, MarkAll(rejected, false), MarkAll(remaining, true));
            return retry, sent;
          }
          assert MarkAll(rejected, false) + [] == MarkAll(rejected, false);
        }
      }
    }
    if result.Accepted? && ctx.Some? {
      client.MarkEach(ctx.value.profile, ctx.value.unknown, true);
    }
    answer := result;
  }

  /**
   The streaming path: the context shrinks to the remaining unknown betas, and the retry's error is the one that
   bubbles.
   */
  method InvokeStreaming(client: EndpointClient, ctx: Option<Context>, bytes: Bytes, upstream: Upstream,
                         lower: string -> string)
      returns (answer: Answer, sent: seq<Bytes>)
    modifies client
    ensures
      var x := Learn(ctx, bytes, upstream, lower);
      && sent == x.sent && answer == x.last
    ensures ctx.Some? ==>
      client.caps == ApplyMarks(old(client.caps), ctx.value.profile, Learn(ctx, bytes, upstream, lower).marks)
    ensures ctx.None? ==> client.caps == old(client.caps)
    ensures |sent| == if RetryIsDue(ctx, bytes, upstream(0, bytes), lower) then 2 else 1
    ensures answer == if |sent| == 2 then upstream(1, sent[1]) else upstream(0, bytes)
  {
    LearnMeans(ctx, bytes, upstream, lower);
    answer := upstream(0, bytes);
    sent := [bytes];
    var learning := ctx;
    ghost var rejections: seq<Mark> := [];
    if answer.Failed? && answer.validation && ctx.Some? {
      var rejected := ParseRejected(lower, answer.message, ctx.value.forwarded);
      if rejected != [] {
        client.MarkEach(ctx.value.profile, rejected, false);
        rejections := MarkAll(rejected, false);
        var retryBytes := Rebuild(bytes, rejected);
        if retryBytes.Some? {
          answer := upstream(1, retryBytes.value);
          sent := [bytes, retryBytes.value];
          learning := Some(ctx.value.(unknown := Without(ctx.value.unknown, rejected)));
        }
      }
    }
    if answer.Accepted? && learning.Some? {
      ghost var learned := MarkAll(learning.value.unknown, true);
      client.MarkEach(learning.value.profile, learning.value.unknown, true);
      MarksConcat(old(client.caps), learning.value.profile, rejections, learned);
      NoMarks(learned);
    }
    NoMarks(rejections);
  }

  /** The first call of the web-search loop, which also strips the typed request for the rounds to come. */
  method InvokeWebSearchFirst(client: EndpointClient, ctx: Option<Context>, request: Request, upstream: Upstream,
                              lower: string -> string)
      returns (answer: Answer, sent: seq<Bytes>, remaining: Request)
    modifies client
    ensures
      var x := Learn(ctx, Encode(request), upstream, lower);
      && sent == x.sent && answer == x.last
      && remaining == request.(betas := remaining.betas)
      && (x.first.Accepted? ==> remaining == request)
      && (|sent| == 2 ==>
          remaining.betas == Without(request.betas, ParseRejected(lower, x.first.message, ctx.value.forwarded)))
    ensures ctx.Some? ==>
      client.caps == ApplyMarks(old(client.caps), ctx.value.profile, Learn(ctx, Encode(request), upstream, lower).marks)
    ensures ctx.None? ==> client.caps == old(client.caps)
    ensures |sent| == if RetryIsDue(ctx, Encode(request), upstream(0, Encode(request)), lower) then 2 else 1
    ensures answer == if |sent| == 2 then upstream(1, sent[1]) else upstream(0, Encode(request))
  {
    LearnMeans(ctx, Encode(request), upstream, lower);
    var bytes := Encode(request);
    answer := upstream(0, bytes);
    sent := [bytes];
    remaining := request;
    if answer.Failed? {
      if answer.validation {
        if ctx.Some? {
          var rejected := ParseRejected(lower, answer.message, ctx.value.forwarded);
          if rejected != [] {
            client.MarkEach(ctx.value.profile, rejected, false);
            remaining := request.(betas := Without(request.betas, rejected));
            var retryBytes := Rebuild(bytes, rejected);
            if retryBytes.Some? {
              answer := upstream(1, retryBytes.value);
              sent := [bytes, retryBytes.value];
              if answer.Accepted? {
                var learned := Without(ctx.value.unknown, rejected);
                client.MarkEach(ctx.value.profile, learned, true);
                MarksConcat(old(client.caps), ctx.value.profile, MarkAll(rejected, false), MarkAll(learned, true));
              }
              assert MarkAll(rejected, false) + [] == MarkAll(rejected, false);
            }
          }
        }
      }
    } else if ctx.Some? {
      client.MarkEach(ctx.value.profile, ctx.value.unknown, true);
    }
  }

  // ---------------------------------------------------------------- what an exchange is worth

  predicate InBody(bytes: Bytes, beta: string) {
    bytes.Encoded? && bytes.body.betas.Some? && Str(beta) in bytes.body.betas.value
  }

  lemma StringsMembers(betas: seq<string>, b: string)
    ensures Str(b) in Strings(betas) <==> b in betas
  {
    if b in betas {
      var i :| 0 <= i < |betas| && betas[i] == b;
      assert Strings(betas)[i] == Str(b);
    }
  }

  /**
   Whatever the service answers, an exchange for a request that forwards `ctx.forwarded` makes at most two calls,
   marks no beta both ways, marks supported only betas in the body that was accepted, marks unsupported only
   betas of the first body that its rejection named, and retries with exactly those taken out.
   */
  lemma LearnIsSound(ctx: Context, r: Request, upstream: Upstream, lower: string -> string, b: string)
    requires r.betas == ctx.forwarded && forall u | u in ctx.unknown :: u in ctx.forwarded
    ensures
      var x := Learn(Some(ctx), Encode(r), upstream, lower);
      && 1 <= |x.sent| <= 2 && x.sent[0] == Encode(r)
      && !(Marked(x, b, true) && Marked(x, b, false))
      && (Marked(x, b, true) ==> b in ctx.unknown && x.last.Accepted? && InBody(x.sent[|x.sent| - 1], b))
      && (Marked(x, b, false) ==>
          x.first.Failed? && InBody(x.sent[0], b) && Substring(lower(b), lower(x.first.message)))
      && (|x.sent| == 2 ==> (InBody(x.sent[1], b) <==> InBody(x.sent[0], b) && !Marked(x, b, false)))
  {
    var x := Learn(Some(ctx), Encode(r), upstream, lower);
    StringsMembers(r.betas, b);
    if x.first.Accepted? {
      MarkAllMembers(ctx.unknown, true, Mark(b, true));
      MarkAllMembers(ctx.unknown, true, Mark(b, false));
    } else {
      var rejected := ParseRejected(lower, x.first.message, ctx.forwarded);
      ParsedMembers(lower, x.first.message, ctx.forwarded, b);
      var learned := Without(ctx.unknown, rejected);
      WithoutMembers(ctx.unknown, rejected, b);
      WithoutMembers(r.betas, rejected, b);
      MarkAllMembers(rejected, false, Mark(b, true));
      MarkAllMembers(rejected, false, Mark(b, false));
      MarkAllMembers(learned, true, Mark(b, true));
      MarkAllMembers(learned, true, Mark(b, false));
      StripStrings(r.betas, rejected);
      StringsMembers(Without(r.betas, rejected), b);
    }
  }

  // ---------------------------------------------------------------- forwarding

  datatype Filtered = Filtered(kept: seq<string>, dropped: seq<string>, unknown: seq<string>)

  function Supported(caps: map<Key, Entry>, profile: string, b: string): Option<bool> {
    if (profile, b) in caps then Some(caps[(profile, b)].supported) else None
  }

  /** The elements that pass a test, in their order and as often as they occur. */
  function Only(betas: seq<string>, passes: string -> bool): seq<string> {
    if betas == [] then []
    else
      var front, last := Only(betas[..|betas| - 1], passes), betas[|betas| - 1];
      if passes(last) then front + [last] else front
  }

  lemma {:induction false} OnlyConcat(a: seq<string>, b: seq<string>, passes: string -> bool)
    ensures Only(a + b, passes) == Only(a, passes) + Only(b, passes)
  {
    if b == [] {
      assert a + b == a;
    } else {
      var front, last := b[..|b| - 1], b[|b| - 1];
      OnlyConcat(a, front, passes);
      assert (a + b)[..|a + b| - 1] == a + front;
    }
  }

  lemma {:induction false} OnlyCounts(betas: seq<string>, passes: string -> bool, b: string)
    ensures multiset(Only(betas, passes))[b] == if passes(b) then multiset(betas)[b] else 0
  {
    if betas != [] {
      var front, last := betas[..|betas| - 1], betas[|betas| - 1];
      OnlyCounts(front, passes, b);
      assert betas == front + [last];
    }
  }

  /**
   What is known to be rejected is dropped and the rest kept, in order; the unknown ones are the kept ones without an
   entry.
   */
  method FilterBetas(caps: map<Key, Entry>, profile: string, incoming: seq<string>) returns (r: Filtered)
    ensures r.kept == Only(incoming, b => Supported(caps, profile, b) != Some(false))
    ensures r.dropped == Only(incoming, b => Supported(caps, profile, b) == Some(false))
    ensures r.unknown == Only(incoming, b => Supported(caps, profile, b) == None)
    ensures multiset(r.kept) + multiset(r.dropped) == multiset(incoming)
    ensures forall b :: b in r.kept <==> b in incoming && ((profile, b) in caps ==> caps[(profile, b)].supported)
    ensures forall b :: b in r.unknown <==> b in incoming && (profile, b) !in caps
    ensures forall b | b in r.unknown :: b in r.kept
  {
    var kept, dropped, unknown := [], [], [];
    ghost var keeps := b => Supported(caps, profile, b) != Some(false);
    ghost var drops := b => Supported(caps, profile, b) == Some(false);
    ghost var wonders := b => Supported(caps, profile, b) == None;
    for i := 0 to |incoming|
      invariant kept == Only(incoming[..i], keeps) && dropped == Only(incoming[..i], drops)
      invariant unknown == Only(incoming[..i], wonders)
    {
      var b := incoming[i];
      assert incoming[..i + 1][..i] == incoming[..i];
      match Supported(caps, profile, b) {
        case Some(true) => kept := kept + [b];
        case Some(false) => dropped := dropped + [b];
        case None =>
          kept := kept + [b];
          unknown := unknown + [b];
      }
    }
    assert incoming[..|incoming|] == incoming;
    r := Filtered(kept, dropped, unknown);
    FilteredCounts(r, incoming, keeps, drops, wonders);
    SupportedIsTheEntry(caps, profile);
  }

  lemma SupportedIsTheEntry(caps: map<Key, Entry>, profile: string)
    ensures forall b ::
      Supported(caps, profile, b) != Some(false) <==> ((profile, b) in caps ==> caps[(profile, b)].supported)
    ensures forall b :: Supported(caps, profile, b) == None <==> (profile, b) !in caps
  {}

  lemma FilteredCounts(r: Filtered, incoming: seq<string>,
                       keeps: string -> bool, drops: string -> bool, wonders: string -> bool)
    requires r.kept == Only(incoming, keeps) && r.dropped == Only(incoming, drops)
    requires r.unknown == Only(incoming, wonders)
    requires forall b :: drops(b) == !keeps(b)
    ensures multiset(r.kept) + multiset(r.dropped) == multiset(incoming)
    ensures forall b :: b in r.kept <==> b in incoming && keeps(b)
    ensures forall b :: b in r.unknown <==> b in incoming && wonders(b)
  {
    forall b ensures
        && multiset(r.kept)[b] == (if keeps(b) then multiset(incoming)[b] else 0)
        && multiset(r.dropped)[b] == (if drops(b) then multiset(incoming)[b] else 0)
        && multiset(r.unknown)[b] == (if wonders(b) then multiset(incoming)[b] else 0)
    {
      OnlyCounts(incoming, keeps, b);
      OnlyCounts(incoming, drops, b);
      OnlyCounts(incoming, wonders, b);
    }
    CountsAreMembers(r.kept, r.dropped, r.unknown, incoming, keeps, drops, wonders);
  }

  lemma CountsAreMembers(kept: seq<string>, dropped: seq<string>, unknown: seq<string>, incoming: seq<string>,
                         keeps: string -> bool, drops: string -> bool, wonders: string -> bool)
    requires forall b :: multiset(kept)[b] == if keeps(b) then multiset(incoming)[b] else 0
    requires forall b :: multiset(dropped)[b] == if drops(b) then multiset(incoming)[b] else 0
    requires forall b :: multiset(unknown)[b] == if wonders(b) then multiset(incoming)[b] else 0
    requires forall b :: drops(b) == !keeps(b)
    ensures multiset(kept) + multiset(dropped) == multiset(incoming)
    ensures forall b :: b in kept <==> b in incoming && keeps(b)
    ensures forall b :: b in unknown <==> b in incoming && wonders(b)
  {
    forall b ensures (b in kept <==> b in incoming && keeps(b)) && (b in unknown <==> b in incoming && wonders(b)) {
      assert b in kept <==> multiset(kept)[b] > 0;
      assert b in unknown <==> multiset(unknown)[b] > 0;
      assert b in incoming <==> multiset(incoming)[b] > 0;
    }
  }

  lemma {:induction false} MarksTakeEffect(caps: map<Key, Entry>, profile: string, marks: seq<Mark>, b: string)
    requires (profile, b) in caps ==> !caps[(profile, b)].adminOverride
    requires forall m, n | m in marks && n in marks && m.beta == n.beta :: m.supported == n.supported
    ensures forall m | m in marks && m.beta == b ::
      (profile, b) in ApplyMarks(caps, profile, marks)
      && ApplyMarks(caps, profile, marks)[(profile, b)] == Entry(m.supported, false)
    ensures (forall m | m in marks :: m.beta != b) ==>
      Supported(ApplyMarks(caps, profile, marks), profile, b) == Supported(caps, profile, b)
    ensures (profile, b) in ApplyMarks(caps, profile, marks) ==>
      !ApplyMarks(caps, profile, marks)[(profile, b)].adminOverride
  {
    if marks != [] {
      var front, last := marks[..|marks| - 1], marks[|marks| - 1];
      MarksTakeEffect(caps, profile, front, b);
      assert marks == front + [last];
    }
  }

  /** Entries of other profiles, of betas without a mark and under an administrator's override are as before. */
  lemma {:induction false} MarksLeaveTheRest(caps: map<Key, Entry>, profile: string, marks: seq<Mark>, key: Key)
    requires key.0 != profile || (key in caps && caps[key].adminOverride) || forall m | m in marks :: m.beta != key.1
    ensures key in ApplyMarks(caps, profile, marks) <==> key in caps
    ensures key in caps ==> ApplyMarks(caps, profile, marks)[key] == caps[key]
  {
    if marks != [] {
      var front, last := marks[..|marks| - 1], marks[|marks| - 1];
      assert marks == front + [last];
      MarksLeaveTheRest(caps, profile, front, key);
    }
  }

  /**
   Learning is remembered: without an admin override, the next request drops what was rejected and is sure of what was
   accepted.
   */
  lemma NextRequestKnows(caps: map<Key, Entry>, ctx: Context, r: Request, upstream: Upstream, lower: string -> string,
                         b: string)
    requires r.betas == ctx.forwarded && forall u | u in ctx.unknown :: u in ctx.forwarded
    requires (ctx.profile, b) in caps ==> !caps[(ctx.profile, b)].adminOverride
    ensures
      var x := Learn(Some(ctx), Encode(r), upstream, lower);
      var caps' := ApplyMarks(caps, ctx.profile, x.marks);
      && (Marked(x, b, false) ==> Supported(caps', ctx.profile, b) == Some(false))
      && (Marked(x, b, true) ==> Supported(caps', ctx.profile, b) == Some(true))
      && (!Marked(x, b, false) && !Marked(x, b, true) ==>
          Supported(caps', ctx.profile, b) == Supported(caps, ctx.profile, b))
  {
    var x := Learn(Some(ctx), Encode(r), upstream, lower);
    forall m, n | m in x.marks && n in x.marks && m.beta == n.beta
      ensures m.supported == n.supported
    {
      LearnIsSound(ctx, r, upstream, lower, m.beta);
      assert m == Mark(m.beta, m.supported) && n == Mark(m.beta, n.supported);
    }
    MarksTakeEffect(caps, ctx.profile, x.marks, b);
    assert forall m | m in x.marks && m.beta == b :: m == Mark(b, true) || m == Mark(b, false);
  }
}
