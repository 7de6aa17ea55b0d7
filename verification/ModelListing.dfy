/** The list of models a client may ask for: bare ids, then variants for betas that some endpoint supports. */
module ModelListing {
  // ---------------------------------------------------------------- alphabetical order

  predicate Less(a: string, b: string) {
    b != [] && (a == [] || a[0] < b[0] || (a[0] == b[0] && Less(a[1..], b[1..])))
  }

  /** A string comes before another at the first place where they differ, or by being a part of it. */
  lemma {:induction false} LessMeans(a: string, b: string, k: nat)
    requires k <= |a| && k <= |b| && forall i | 0 <= i < k :: a[i] == b[i]
    requires k == |a| || k == |b| || a[k] != b[k]
    ensures Less(a, b) <==> if k == |a| then k < |b| else k < |b| && a[k] < b[k]
  {
    if k > 0 {
      LessMeans(a[1..], b[1..], k - 1);
    }
  }

  lemma {:induction false} LessIsStrict(a: string)
    ensures !Less(a, a)
  {
    if a != [] {
      LessIsStrict(a[1..]);
    }
  }

  lemma {:induction false} LessIsTransitive(a: string, b: string, c: string)
    requires Less(a, b) && Less(b, c)
    ensures Less(a, c)
  {
    if a != [] && a[0] == b[0] && b[0] == c[0] {
      LessIsTransitive(a[1..], b[1..], c[1..]);
    }
  }

  lemma {:induction false} LessIsTotal(a: string, b: string)
    requires a != b
    ensures Less(a, b) || Less(b, a)
  {
    if a != [] && b != [] && a[0] == b[0] {
      assert a == [a[0]] + a[1..] && b == [b[0]] + b[1..];
      LessIsTotal(a[1..], b[1..]);
    }
  }

  /** Sorted and free of duplicates at once. */
  predicate Ascending(s: seq<string>) {
    forall i, j | 0 <= i < j < |s| :: Less(s[i], s[j])
  }

  function Members(s: seq<string>): set<string> {
    set x | x in s
  }

  predicate IsSortedListOf(s: seq<string>, ids: set<string>) {
    Ascending(s) && Members(s) == ids
  }

  lemma LastIsGreatest(s: seq<string>, x: string)
    requires Ascending(s) && x in s && x != s[|s| - 1]
    ensures Less(x, s[|s| - 1])
  {}

  lemma FrontOf(s: seq<string>)
    requires Ascending(s) && s != []
    ensures IsSortedListOf(s[..|s| - 1], Members(s) - {s[|s| - 1]})
  {
    var last := s[|s| - 1];
    LessIsStrict(last);
    assert s == s[..|s| - 1] + [last];
  }

  lemma LastsAgree(s: seq<string>, t: seq<string>, ids: set<string>)
    requires IsSortedListOf(s, ids) && IsSortedListOf(t, ids) && s != [] && t != []
    ensures s[|s| - 1] == t[|t| - 1]
  {
    var x, y := s[|s| - 1], t[|t| - 1];
    assert x in Members(s) && y in Members(t);
    if x != y {
      LastIsGreatest(t, x);
      LastIsGreatest(s, y);
      LessIsTransitive(x, y, x);
      LessIsStrict(x);
    }
  }

  lemma EmptyIffNoMembers(s: seq<string>)
    ensures s == [] <==> Members(s) == {}
  {
    if s != [] {
      assert s[0] in Members(s);
    }
  }

  /** A set has only one sorted list. */
  lemma {:induction false} SortedListIsUnique(s: seq<string>, t: seq<string>, ids: set<string>)
    requires IsSortedListOf(s, ids) && IsSortedListOf(t, ids)
    ensures s == t
  {
    EmptyIffNoMembers(s);
    EmptyIffNoMembers(t);
    if s != [] && t != [] {
      LastsAgree(s, t, ids);
      FrontOf(s);
      FrontOf(t);
      var last := s[|s| - 1];
      SortedListIsUnique(s[..|s| - 1], t[..|t| - 1], ids - {last});
      assert s == s[..|s| - 1] + [last] && t == t[..|t| - 1] + [last];
    }
  }

  method InsertSorted(s: seq<string>, x: string) returns (r: seq<string>)
    requires Ascending(s) && x !in s
    ensures IsSortedListOf(r, Members(s) + {x})
  {
    var i := 0;
    while i < |s| && Less(s[i], x)
      invariant 0 <= i <= |s| && forall j | 0 <= j < i :: Less(s[j], x)
    {
      i := i + 1;
    }
    if i < |s| {
      LessIsTotal(s[i], x);
      forall j | i < j < |s| ensures Less(x, s[j]) {
        LessIsTransitive(x, s[i], s[j]);
      }
    }
    r := s[..i] + [x] + s[i..];
    Spliced(s, i, x, r);
  }

  lemma Spliced(s: seq<string>, i: nat, x: string, r: seq<string>)
    requires Ascending(s) && i <= |s| && r == s[..i] + [x] + s[i..]
    requires (forall j | 0 <= j < i :: Less(s[j], x)) && (forall j | i <= j < |s| :: Less(x, s[j]))
    ensures IsSortedListOf(r, Members(s) + {x})
  {
    assert forall j | 0 <= j < |r| :: r[j] == if j < i then s[j] else if j == i then x else s[j - 1];
    assert r[i] == x;
    forall y | y in s ensures y in r {
      var j :| 0 <= j < |s| && s[j] == y;
      assert r[if j < i then j else j + 1] == y;
    }
  }

  method SortedList(ids: set<string>) returns (s: seq<string>)
    ensures IsSortedListOf(s, ids)
  {
    s := [];
    var left := ids;
    while left != {}
      invariant Ascending(s) && left <= ids && Members(s) == ids - left
      decreases |left|
    {
      var x :| x in left;
      s := InsertSorted(s, x);
      left := left - {x};
    }
  }

  // ---------------------------------------------------------------- the list for known pairs

  datatype Suffix = Suffix(text: string, beta: string)

  /** An Anthropic id and the Bedrock profile it stands for. */
  datatype Pair = Pair(id: string, profile: string)

  function BareIds(pairs: seq<Pair>): set<string> {
    set p | p in pairs :: p.id
  }

  function VariantIds(pairs: seq<Pair>, supported: set<(string, string)>, suffixes: seq<Suffix>): set<string> {
    set p, x | p in pairs && x in suffixes && (p.profile, x.beta) in supported :: p.id + x.text
  }

  method BuildModels(pairs: seq<Pair>, supported: set<(string, string)>, suffixes: seq<Suffix>)
      returns (bare: seq<string>, variants: seq<string>)
    ensures IsSortedListOf(bare, BareIds(pairs)) && IsSortedListOf(variants, VariantIds(pairs, supported, suffixes))
  {
    var bareSet: set<string>, variantSet: set<string> := {}, {};
    for i := 0 to |pairs|
      invariant bareSet == BareIds(pairs[..i]) && variantSet == VariantIds(pairs[..i], supported, suffixes)
    {
      var p := pairs[i];
      assert pairs[..i + 1] == pairs[..i] + [p];
      bareSet := bareSet + {p.id};
      for j := 0 to |suffixes|
        invariant variantSet == VariantIds(pairs[..i], supported, suffixes) + VariantIds([p], supported, suffixes[..j])
      {
        var x := suffixes[j];
        assert suffixes[..j + 1] == suffixes[..j] + [x];
        if (p.profile, x.beta) in supported {
          variantSet := variantSet + {p.id + x.text};
        }
      }
      assert suffixes[..|suffixes|] == suffixes;
    }
    assert pairs[..|pairs|] == pairs;
    bare := SortedList(bareSet);
    variants := SortedList(variantSet);
  }

  // ---------------------------------------------------------------- the list of a gateway

  /** An endpoint: the profiles it advertises, and what it knows about betas. */
  datatype Client = Client(available: seq<string>, betas: map<(string, string), bool>) {
    predicate Supports(profile: string, beta: string) {
      profile in available && (profile, beta) in betas && betas[(profile, beta)]
    }
  }

  /** The profiles advertised by the gateway's default list or by any endpoint. */
  function Known(defaults: seq<string>, clients: seq<Client>): set<string> {
    Members(defaults) + set c, p | c in clients && p in c.available :: p
  }

  predicate Supported(clients: seq<Client>, profile: string, beta: string) {
    exists c | c in clients :: c.Supports(profile, beta)
  }

  function SupportedPairs(clients: seq<Client>, suffixes: seq<Suffix>): set<(string, string)> {
    set c, k | c in clients && k in OwnPairs(c, c.available, Betas(suffixes)) :: k
  }

  function ListedBare(defaults: seq<string>, clients: seq<Client>, toAnthropic: string -> string): set<string> {
    set p | p in Known(defaults, clients) :: toAnthropic(p)
  }

  function ListedVariants(defaults: seq<string>, clients: seq<Client>, toAnthropic: string -> string,
                          suffixes: seq<Suffix>): set<string> {
    set p, x | p in Known(defaults, clients) && x in suffixes && Supported(clients, p, x.beta) ::
      toAnthropic(p) + x.text
  }

  method CollectProfiles(defaults: seq<string>, clients: seq<Client>) returns (profiles: seq<string>)
    ensures Members(profiles) == Known(defaults, clients)
  {
    profiles := defaults;
    for i := 0 to |clients|
      invariant Members(profiles) == Known(defaults, clients[..i])
    {
      KnownNext(defaults, clients, i);
      profiles := profiles + clients[i].available;
    }
    assert clients[..|clients|] == clients;
  }

  lemma KnownNext(defaults: seq<string>, clients: seq<Client>, i: nat)
    requires i < |clients|
    ensures Known(defaults, clients[..i + 1]) == Known(defaults, clients[..i]) + Members(clients[i].available)
  {
    assert clients[..i + 1] == clients[..i] + [clients[i]];
    forall p
      ensures p in Known(defaults, clients[..i + 1]) <==>
        p in Known(defaults, clients[..i]) + Members(clients[i].available)
    {
      if p in clients[i].available {
        assert clients[i] in clients[..i + 1];
      }
    }
  }

  /** One pair for each profile, the first time it is met. */
  method MakePairs(profiles: seq<string>, toAnthropic: string -> string) returns (pairs: seq<Pair>)
    ensures forall q :: q in pairs <==> q.profile in profiles && q.id == toAnthropic(q.profile)
    ensures forall i, j | 0 <= i < j < |pairs| :: pairs[i].profile != pairs[j].profile
  {
    pairs := [];
    var seen: set<string> := {};
    for i := 0 to |profiles|
      invariant seen == Members(profiles[..i])
      invariant forall q :: q in pairs <==> q.profile in seen && q.id == toAnthropic(q.profile)
      invariant forall j, k | 0 <= j < k < |pairs| :: pairs[j].profile != pairs[k].profile
    {
      var profile := profiles[i];
      assert profiles[..i + 1] == profiles[..i] + [profile];
      if profile !in seen {
        assert forall j | 0 <= j < |pairs| :: pairs[j] in pairs;
        pairs := pairs + [Pair(toAnthropic(profile), profile)];
      }
      seen := seen + {profile};
    }
    assert profiles[..|profiles|] == profiles;
  }

  /** The (profile, beta) pairs that some endpoint supports, among the profiles that endpoint itself advertises. */
  method Snapshot(clients: seq<Client>, suffixes: seq<Suffix>) returns (supported: set<(string, string)>)
    ensures supported == SupportedPairs(clients, suffixes)
  {
    supported := {};
    for i := 0 to |clients|
      invariant supported == SupportedPairs(clients[..i], suffixes)
    {
      assert clients[..i + 1] == clients[..i] + [clients[i]];
      var own := SnapshotOf(clients[i], suffixes);
      supported := supported + own;
    }
    assert clients[..|clients|] == clients;
  }

  function Betas(suffixes: seq<Suffix>): set<string> {
    set x | x in suffixes :: x.beta
  }

  function OwnPairs(c: Client, profiles: seq<string>, betas: set<string>): set<(string, string)> {
    set p, beta | p in profiles && beta in betas && c.Supports(p, beta) :: (p, beta)
  }

  method SnapshotOf(c: Client, suffixes: seq<Suffix>) returns (supported: set<(string, string)>)
    ensures supported == OwnPairs(c, c.available, Betas(suffixes))
  {
    supported := {};
    for i := 0 to |c.available|
      invariant supported == OwnPairs(c, c.available[..i], Betas(suffixes))
    {
      var profile := c.available[i];
      assert c.available[..i + 1] == c.available[..i] + [profile] && profile in c.available;
      for j := 0 to |suffixes|
        invariant supported == OwnPairs(c, c.available[..i], Betas(suffixes))
          + OwnPairs(c, [profile], Betas(suffixes[..j]))
      {
        assert suffixes[..j + 1] == suffixes[..j] + [suffixes[j]];
        assert Betas(suffixes[..j + 1]) == Betas(suffixes[..j]) + {suffixes[j].beta};
        var key := (profile, suffixes[j].beta);
        if key in c.betas && c.betas[key] {
          supported := supported + {key};
        }
      }
      assert suffixes[..|suffixes|] == suffixes;
    }
    assert c.available[..|c.available|] == c.available;
  }

  method ListModels(defaults: seq<string>, clients: seq<Client>, toAnthropic: string -> string, suffixes: seq<Suffix>)
      returns (bare: seq<string>, variants: seq<string>)
    ensures IsSortedListOf(bare, ListedBare(defaults, clients, toAnthropic))
    ensures IsSortedListOf(variants, ListedVariants(defaults, clients, toAnthropic, suffixes))
  {
    var profiles := CollectProfiles(defaults, clients);
    assert forall p :: p in profiles <==> p in Members(profiles);
    if profiles == [] {
      assert Known(defaults, clients) == {};
      return [], [];
    }
    var pairs := MakePairs(profiles, toAnthropic);
    var supported := Snapshot(clients, suffixes);
    bare, variants := BuildModels(pairs, supported, suffixes);
    SameIds(defaults, clients, toAnthropic, suffixes, pairs);
  }

  lemma SameIds(defaults: seq<string>, clients: seq<Client>, toAnthropic: string -> string, suffixes: seq<Suffix>,
                pairs: seq<Pair>)
    requires forall q :: q in pairs <==> q.profile in Known(defaults, clients) && q.id == toAnthropic(q.profile)
    ensures BareIds(pairs) == ListedBare(defaults, clients, toAnthropic)
    ensures VariantIds(pairs, SupportedPairs(clients, suffixes), suffixes) ==
      ListedVariants(defaults, clients, toAnthropic, suffixes)
  {
    forall p | p in Known(defaults, clients) ensures Pair(toAnthropic(p), p) in pairs {}
    forall p, x | x in suffixes
      ensures (p, x.beta) in SupportedPairs(clients, suffixes) <==> Supported(clients, p, x.beta)
    {
      if c :| c in clients && c.Supports(p, x.beta) {
        assert (p, x.beta) in OwnPairs(c, c.available, Betas(suffixes));
      }
    }
  }

  // ---------------------------------------------------------------- the list is canonical

  /**
   An id stands in the list of variants exactly if some endpoint advertises a profile and supports a beta that make it
   up.
   */
  lemma VariantIffSupported(defaults: seq<string>, clients: seq<Client>, toAnthropic: string -> string,
                            suffixes: seq<Suffix>, variants: seq<string>, id: string)
    requires IsSortedListOf(variants, ListedVariants(defaults, clients, toAnthropic, suffixes))
    ensures
      id in variants
      <==> exists c, p, x | c in clients && p in c.available && x in suffixes ::
        (p, x.beta) in c.betas && c.betas[(p, x.beta)] && id == toAnthropic(p) + x.text
  {
    assert id in variants <==> id in Members(variants);
  }

  /** An id stands in the list of bare ids exactly if it names a profile of the default list or of some endpoint. */
  lemma BareIffKnown(defaults: seq<string>, clients: seq<Client>, toAnthropic: string -> string, bare: seq<string>,
                     id: string)
    requires IsSortedListOf(bare, ListedBare(defaults, clients, toAnthropic))
    ensures
      id in bare
      <==> || (exists p | p in defaults :: id == toAnthropic(p))
           || (exists c, p | c in clients && p in c.available :: id == toAnthropic(p))
  {
    assert id in bare <==> id in Members(bare);
    forall p | p in Members(defaults) ensures p in Known(defaults, clients) {}
  }

  /** Order and repetition of the default list, of the endpoints and of what each advertises do not show. */
  lemma ListIgnoresOrderAndRepetition(defaults: seq<string>, defaults': seq<string>, clients: seq<Client>,
                                      clients': seq<Client>, toAnthropic: string -> string, suffixes: seq<Suffix>,
                                      bare: seq<string>, bare': seq<string>, variants: seq<string>,
                                      variants': seq<string>)
    requires Members(defaults) == Members(defaults') && Subsumes(clients, clients') && Subsumes(clients', clients)
    requires IsSortedListOf(bare, ListedBare(defaults, clients, toAnthropic))
    requires IsSortedListOf(bare', ListedBare(defaults', clients', toAnthropic))
    requires IsSortedListOf(variants, ListedVariants(defaults, clients, toAnthropic, suffixes))
    requires IsSortedListOf(variants', ListedVariants(defaults', clients', toAnthropic, suffixes))
    ensures bare == bare' && variants == variants'
  {
    SameListedIds(defaults, defaults', clients, clients', toAnthropic, suffixes);
    SortedListIsUnique(bare, bare', ListedBare(defaults, clients, toAnthropic));
    SortedListIsUnique(variants, variants', ListedVariants(defaults, clients, toAnthropic, suffixes));
  }

  lemma SameListedIds(defaults: seq<string>, defaults': seq<string>, clients: seq<Client>, clients': seq<Client>,
                      toAnthropic: string -> string, suffixes: seq<Suffix>)
    requires Members(defaults) == Members(defaults') && Subsumes(clients, clients') && Subsumes(clients', clients)
    ensures ListedBare(defaults, clients, toAnthropic) == ListedBare(defaults', clients', toAnthropic)
    ensures ListedVariants(defaults, clients, toAnthropic, suffixes) ==
      ListedVariants(defaults', clients', toAnthropic, suffixes)
  {
    SubsumedLists(defaults, defaults', clients, clients', toAnthropic, suffixes);
    SubsumedLists(defaults', defaults, clients', clients, toAnthropic, suffixes);
  }

  lemma SubsumedLists(defaults: seq<string>, defaults': seq<string>, clients: seq<Client>, clients': seq<Client>,
                      toAnthropic: string -> string, suffixes: seq<Suffix>)
    requires Members(defaults') <= Members(defaults) && Subsumes(clients, clients')
    ensures ListedBare(defaults', clients', toAnthropic) <= ListedBare(defaults, clients, toAnthropic)
    ensures ListedVariants(defaults', clients', toAnthropic, suffixes)
         <= ListedVariants(defaults, clients, toAnthropic, suffixes)
  {
    SubsumedKnows(defaults, defaults', clients, clients');
    forall p, x | p in Known(defaults', clients') && x in suffixes && Supported(clients', p, x.beta)
      ensures toAnthropic(p) + x.text in ListedVariants(defaults, clients, toAnthropic, suffixes)
    {
      assert p in Known(defaults, clients) && Supported(clients, p, x.beta);
    }
  }

  /** Every endpoint of `more` is, up to the order of its profiles, one of `clients`. */
  predicate Subsumes(clients: seq<Client>, more: seq<Client>) {
    forall d | d in more :: exists c | c in clients ::
      Members(c.available) == Members(d.available) && c.betas == d.betas
  }

  lemma SubsumedKnows(defaults: seq<string>, defaults': seq<string>, clients: seq<Client>, more: seq<Client>)
    requires Members(defaults') <= Members(defaults) && Subsumes(clients, more)
    ensures Known(defaults', more) <= Known(defaults, clients)
    ensures forall p, beta | Supported(more, p, beta) :: Supported(clients, p, beta)
  {
    forall d, p | d in more && p in d.available ensures p in Known(defaults, clients) {
      var c :| c in clients && Members(c.available) == Members(d.available) && c.betas == d.betas;
      assert p in Members(d.available);
    }
    forall p, beta | Supported(more, p, beta) ensures Supported(clients, p, beta) {
      var d :| d in more && d.Supports(p, beta);
      var c :| c in clients && Members(c.available) == Members(d.available) && c.betas == d.betas;
      assert p in Members(d.available);
      assert c.Supports(p, beta);
    }
  }

  predicate NoRepeats(s: seq<string>) {
    forall i, j | 0 <= i < j < |s| :: s[i] != s[j]
  }

  /** Two sorted lists repeat an id between them exactly when their sets meet. */
  lemma ListsRepeatIffSetsMeet(bare: seq<string>, variants: seq<string>, b: set<string>, v: set<string>)
    requires IsSortedListOf(bare, b) && IsSortedListOf(variants, v)
    ensures NoRepeats(bare + variants) <==> b !! v
  {
    var all := bare + variants;
    if x :| x in b && x in v {
      assert x in Members(bare) && x in Members(variants);
      var i :| 0 <= i < |bare| && bare[i] == x;
      var j :| 0 <= j < |variants| && variants[j] == x;
      assert all[i] == all[|bare| + j];
    }
    if b !! v {
      forall i, j | 0 <= i < j < |all| ensures all[i] != all[j] {
        LessIsStrict(all[i]);
        if i < |bare| && j >= |bare| {
          assert all[i] in Members(bare) && all[j] in Members(variants);
        }
      }
    }
  }

  /**
   The whole list repeats an id exactly when the bare id of a known profile is that of a known profile followed by a
   suffix whose beta is supported for the latter.
   */
  lemma ListRepeatsIffIdsClash(defaults: seq<string>, clients: seq<Client>, toAnthropic: string -> string,
                               suffixes: seq<Suffix>, bare: seq<string>, variants: seq<string>)
    requires IsSortedListOf(bare, ListedBare(defaults, clients, toAnthropic))
    requires IsSortedListOf(variants, ListedVariants(defaults, clients, toAnthropic, suffixes))
    ensures
      !NoRepeats(bare + variants) <==>
      exists p, q, x | p in Known(defaults, clients) && q in Known(defaults, clients) && x in suffixes ::
        Supported(clients, q, x.beta) && toAnthropic(p) == toAnthropic(q) + x.text
  {
    var b, v := ListedBare(defaults, clients, toAnthropic), ListedVariants(defaults, clients, toAnthropic, suffixes);
    ListsRepeatIffSetsMeet(bare, variants, b, v);
    if p, q, x :| p in Known(defaults, clients) && q in Known(defaults, clients) && x in suffixes &&
                  Supported(clients, q, x.beta) && toAnthropic(p) == toAnthropic(q) + x.text {
      assert toAnthropic(p) in b && toAnthropic(p) in v;
    }
  }
}
