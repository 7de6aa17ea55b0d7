/**
 The analytics filter compiler: comma-separated selections become SQL conjuncts with numbered placeholders and a
 parallel list of bind values. `$1` is the day count, so the numbers start at 2.
 */
module AnalyticsFilter {
  import opened Wrappers
  import opened Sql

  datatype Filter = Filter(team: Option<string>, user: Option<string>, model: Option<string>, endpoint: Option<string>)

  datatype Column = TeamName | UserIdentity | Model | EndpointName

  /** The conjuncts the compiler emits; `OrNoTeam` is the `t.id IS NULL OR ...` form. */
  datatype Clause =
    | NoTeam
    | EqualsParam(column: Column, param: nat)
    | InParams(column: Column, params: seq<nat>)
    | OrNoTeam(column: Column, params: seq<nat>)

  /** A joined row. `teams.name` is NOT NULL, so `t.id` and `t.name` are NULL together. */
  datatype Row = Row(team: Option<string>, user: Option<string>, model: string, endpoint: Option<string>)

  const NONE_TOKEN: string := "__none__"

  // ---------------------------------------------------------------- splitting the selection

  /** Unicode White_Space, which is what `str::trim` removes. */
  predicate IsWhitespace(c: char) {
    || '\t' <= c <= '\r' || c == ' ' || c == '\U{85}' || c == '\U{A0}' || c == '\U{1680}'
    || '\U{2000}' <= c <= '\U{200A}' || c == '\U{2028}' || c == '\U{2029}' || c == '\U{202F}' || c == '\U{205F}'
    || c == '\U{3000}'
  }

  /** The twenty-five code points with that property. */
  lemma WhitespaceMeans(c: char)
    ensures
      IsWhitespace(c) <==>
        c as int in {0x9, 0xA, 0xB, 0xC, 0xD, 0x20, 0x85, 0xA0, 0x1680, 0x2000, 0x2001, 0x2002, 0x2003, 0x2004, 0x2005,
                     0x2006, 0x2007, 0x2008, 0x2009, 0x200A, 0x2028, 0x2029, 0x202F, 0x205F, 0x3000}
  {}

  function TrimStart(s: string): string {
    if s != "" && IsWhitespace(s[0]) then TrimStart(s[1..]) else s
  }

  function TrimEnd(s: string): string {
    if s != "" && IsWhitespace(s[|s| - 1]) then TrimEnd(s[..|s| - 1]) else s
  }

  function Trim(s: string): string {
    TrimEnd(TrimStart(s))
  }

  /** `s[i..j]` with nothing but whitespace around it, and none at its own ends. */
  predicate IsCore(s: string, i: int, j: int) {
    && 0 <= i <= j <= |s|
    && (forall k | 0 <= k < |s| && (k < i || k >= j) :: IsWhitespace(s[k]))
    && (i < j ==> !IsWhitespace(s[i]) && !IsWhitespace(s[j - 1]))
  }

  lemma {:induction false} TrimStartDrops(s: string) returns (i: nat)
    ensures i <= |s| && TrimStart(s) == s[i..]
    ensures (forall k | 0 <= k < i :: IsWhitespace(s[k])) && (i < |s| ==> !IsWhitespace(s[i]))
  {
    i := 0;
    if s != "" && IsWhitespace(s[0]) {
      var rest := TrimStartDrops(s[1..]);
      assert forall k | 1 <= k < |s| :: s[k] == s[1..][k - 1];
      i := rest + 1;
    }
  }

  lemma {:induction false} TrimEndDrops(s: string) returns (j: nat)
    ensures j <= |s| && TrimEnd(s) == s[..j]
    ensures (forall k | j <= k < |s| :: IsWhitespace(s[k])) && (j > 0 ==> !IsWhitespace(s[j - 1]))
  {
    j := |s|;
    if s != "" && IsWhitespace(s[|s| - 1]) {
      j := TrimEndDrops(s[..|s| - 1]);
    }
  }

  /** Trimming leaves what stands between the whitespace at both ends. */
  lemma TrimIsTheCore(s: string) returns (i: nat, j: nat)
    ensures IsCore(s, i, j) && Trim(s) == s[i..j]
  {
    i := TrimStartDrops(s);
    var k := TrimEndDrops(TrimStart(s));
    j := i + k;
    assert forall n | i <= n < |s| :: s[n] == s[i..][n - i];
  }

  /** It holds every stretch without blank ends, so it is the longest of them. */
  lemma CoreIsLongest(s: string, i: int, j: int, k: int, l: int)
    requires IsCore(s, i, j) && 0 <= k < l <= |s| && !IsWhitespace(s[k]) && !IsWhitespace(s[l - 1])
    ensures i <= k && l <= j
  {}

  /** The first comma at or after `from`, or the end. */
  function CommaFrom(s: string, from: nat): (i: nat)
    requires from <= |s|
    ensures from <= i <= |s| && (i < |s| ==> s[i] == ',') && forall k | from <= k < i :: s[k] != ','
    decreases |s| - from
  {
    if from == |s| || s[from] == ',' then from else CommaFrom(s, from + 1)
  }

  /** The stretches `str::split(',')` yields from position `from` on, as index pairs. */
  function Pieces(s: string, from: nat): (r: seq<(nat, nat)>)
    requires from <= |s|
    ensures forall p | p in r :: p.0 <= p.1 <= |s|
    decreases |s| - from
  {
    var i := CommaFrom(s, from);
    if i == |s| then [(from, i)] else [(from, i)] + Pieces(s, i + 1)
  }

  function KeepNonEmpty(s: string, pieces: seq<(nat, nat)>): seq<string>
    requires forall p | p in pieces :: p.0 <= p.1 <= |s|
  {
    if pieces == [] then []
    else
      var name := Trim(s[pieces[0].0..pieces[0].1]);
      (if name == "" then [] else [name]) + KeepNonEmpty(s, pieces[1..])
  }

  /** The names a selection lists, in order. An absent or empty selection lists none. */
  function Names(selection: Option<string>): seq<string> {
    if selection.None? || selection.value == "" then [] else KeepNonEmpty(selection.value, Pieces(selection.value, 0))
  }

  /** `s[i..j]` is a comma-free stretch that commas or the ends of `s` delimit. */
  predicate Segment(s: string, i: int, j: int) {
    && 0 <= i <= j <= |s|
    && (i == 0 || s[i - 1] == ',') && (j == |s| || s[j] == ',')
    && forall k | i <= k < j :: s[k] != ','
  }

  /** What a user means by a selection: the trimmed, non-empty, comma-delimited segments. */
  ghost predicate Lists(selection: Option<string>, name: string) {
    selection.Some? && name != "" && exists i, j ::
      Segment(selection.value, i, j) && Trim(selection.value[i..j]) == name
  }

  lemma {:induction false} PiecesAreSegments(s: string, from: nat, i: nat, j: nat)
    requires from <= |s| && (from == 0 || s[from - 1] == ',')
    ensures (i, j) in Pieces(s, from) <==> from <= i && Segment(s, i, j)
    decreases |s| - from
  {
    var c := CommaFrom(s, from);
    if c < |s| {
      PiecesAreSegments(s, c + 1, i, j);
    }
  }

  lemma {:induction false} KeptAreTrimmed(s: string, pieces: seq<(nat, nat)>, name: string)
    requires forall p | p in pieces :: p.0 <= p.1 <= |s|
    ensures name in KeepNonEmpty(s, pieces) <==> name != "" && exists p :: p in pieces && Trim(s[p.0..p.1]) == name
  {
    if pieces != [] {
      KeptAreTrimmed(s, pieces[1..], name);
      assert pieces == [pieces[0]] + pieces[1..];
    }
  }

  lemma NamesAreListed(selection: Option<string>, name: string)
    ensures name in Names(selection) <==> Lists(selection, name)
  {
    if selection.Some? {
      var s := selection.value;
      forall i: nat, j: nat
        ensures (i, j) in Pieces(s, 0) <==> Segment(s, i, j)
      {
        PiecesAreSegments(s, 0, i, j);
      }
      KeptAreTrimmed(s, Pieces(s, 0), name);
      assert Trim("") == "";
      if Lists(selection, name) {
        var i: nat, j: nat :| Segment(s, i, j) && Trim(s[i..j]) == name;
        assert (i, j) in Pieces(s, 0);
      }
    }
  }

  // ---------------------------------------------------------------- the compiler as a function

  /** The numbers `from`, `from + 1`, ..., `k` of them. */
  function Numbers(from: nat, k: nat): (r: seq<nat>)
    ensures |r| == k && forall i | 0 <= i < k :: r[i] == from + i
  {
    seq(k, i requires 0 <= i < k => from + i)
  }

  function Named(names: seq<string>): seq<string> {
    if names == [] then []
    else if names[0] == NONE_TOKEN then Named(names[1..])
    else [names[0]] + Named(names[1..])
  }

  /** The conjunct, if any, for a plain set of values bound from number `from` on. */
  function SetClause(column: Column, names: seq<string>, from: nat): seq<Clause> {
    if names == [] then []
    else if |names| == 1 then [EqualsParam(column, from)]
    else [InParams(column, Numbers(from, |names|))]
  }

  function TeamClause(names: seq<string>, from: nat): seq<Clause> {
    var named := Named(names);
    if NONE_TOKEN !in names then SetClause(TeamName, named, from)
    else if named == [] then [NoTeam]
    else [OrNoTeam(TeamName, Numbers(from, |named|))]
  }

  /** The four lists of names a filter amounts to. */
  datatype Lists4 = Lists4(teams: seq<string>, users: seq<string>, models: seq<string>, endpoints: seq<string>)

  function ListsOf(f: Filter): Lists4 {
    Lists4(Names(f.team), Names(f.user), Names(f.model), Names(f.endpoint))
  }

  function Binds(l: Lists4): seq<string> {
    Named(l.teams) + l.users + l.models + l.endpoints
  }

  function Clauses(l: Lists4): seq<Clause> {
    var b0, b1, b2 := |Named(l.teams)|, |l.users|, |l.models|;
    TeamClause(l.teams, 2) + SetClause(UserIdentity, l.users, 2 + b0)
    + SetClause(Model, l.models, 2 + b0 + b1) + SetClause(EndpointName, l.endpoints, 2 + b0 + b1 + b2)
  }

  // ---------------------------------------------------------------- the compiler as the program runs it

  class FilterBuilder {
    var clauses: seq<Clause>
    var paramIdx: nat

    constructor (start: nat)
      ensures clauses == [] && paramIdx == start
    {
      clauses, paramIdx := [], start;
    }

    method NextParam() returns (p: nat)
      modifies this`paramIdx
      ensures p == old(paramIdx) && paramIdx == old(paramIdx) + 1
    {
      p := paramIdx;
      paramIdx := paramIdx + 1;
    }

    method NextParams(k: nat) returns (params: seq<nat>)
      modifies this`paramIdx
      ensures params == Numbers(old(paramIdx), k) && paramIdx == old(paramIdx) + k
    {
      params := [];
      for i := 0 to k
        invariant params == Numbers(old(paramIdx), i) && paramIdx == old(paramIdx) + i
      {
        var p := NextParam();
        params := params + [p];
      }
    }

    method Add(c: Clause)
      modifies this`clauses
      ensures clauses == old(clauses) + [c]
    {
      clauses := clauses + [c];
    }

    method AddSet(column: Column, names: seq<string>) returns (binds: seq<string>)
      modifies this
      ensures clauses == old(clauses) + SetClause(column, names, old(paramIdx)) && binds == names
      ensures paramIdx == old(paramIdx) + |binds|
    {
      if |names| == 1 {
        var p := NextParam();
        Add(EqualsParam(column, p));
      } else if |names| > 1 {
        var params := NextParams(|names|);
        Add(InParams(column, params));
      }
      binds := names;
    }

    method AddTeam(names: seq<string>) returns (binds: seq<string>)
      modifies this
      ensures clauses == old(clauses) + TeamClause(names, old(paramIdx)) && binds == Named(names)
      ensures paramIdx == old(paramIdx) + |binds|
    {
      var hasNone := NONE_TOKEN in names;
      var named := Named(names);
      if hasNone && named == [] {
        Add(NoTeam);
        binds := [];
      } else if hasNone {
        var params := NextParams(|named|);
        Add(OrNoTeam(TeamName, params));
        binds := named;
      } else {
        binds := AddSet(TeamName, named);
      }
    }
  }

  method BuildOptionalFilters(f: Filter) returns (fb: FilterBuilder, binds: seq<string>)
    ensures fresh(fb) && fb.clauses == Clauses(ListsOf(f)) && binds == Binds(ListsOf(f)) && fb.paramIdx == 2 + |binds|
  {
    fb, binds := BuildFromLists(ListsOf(f));
  }

  method BuildFromLists(l: Lists4) returns (fb: FilterBuilder, binds: seq<string>)
    ensures fresh(fb) && fb.clauses == Clauses(l) && binds == Binds(l) && fb.paramIdx == 2 + |binds|
  {
    fb := new FilterBuilder(2);
    binds := fb.AddTeam(l.teams);
    ghost var c0 := fb.clauses;
    assert c0 == TeamClause(l.teams, 2);
    var users := fb.AddSet(UserIdentity, l.users);
    binds := binds + users;
    ghost var c1 := fb.clauses;
    var models := fb.AddSet(Model, l.models);
    binds := binds + models;
    ghost var c2 := fb.clauses;
    var endpoints := fb.AddSet(EndpointName, l.endpoints);
    binds := binds + endpoints;
  }

  // ---------------------------------------------------------------- meaning

  function ValueOf(row: Row, column: Column): Option<string> {
    match column
    case TeamName => row.team
    case UserIdentity => row.user
    case Model => Some(row.model)
    case EndpointName => row.endpoint
  }

  /** `$2` is the first bind value; a number without a value is NULL. */
  function Param(binds: seq<string>, n: nat): Option<string> {
    if 2 <= n < 2 + |binds| then Some(binds[n - 2]) else None
  }

  function Params(binds: seq<string>, ns: seq<nat>): seq<Option<string>> {
    seq(|ns|, i requires 0 <= i < |ns| => Param(binds, ns[i]))
  }

  function Eval(c: Clause, binds: seq<string>, row: Row): Truth {
    match c
    case NoTeam => FromBool(row.team.None?)
    case EqualsParam(column, n) => Equals(ValueOf(row, column), Param(binds, n))
    case InParams(column, ns) => In(ValueOf(row, column), Params(binds, ns))
    case OrNoTeam(column, ns) => Or(FromBool(row.team.None?), In(ValueOf(row, column), Params(binds, ns)))
  }

  /** A row is selected when the time condition and all the conjuncts are true. */
  function Where(time: Truth, clauses: seq<Clause>, binds: seq<string>, row: Row): Truth {
    if clauses == [] then time
    else And(Where(time, clauses[..|clauses| - 1], binds, row), Eval(clauses[|clauses| - 1], binds, row))
  }

  function ParamsOf(c: Clause): seq<nat> {
    match c
    case NoTeam => []
    case EqualsParam(_, n) => [n]
    case InParams(_, ns) => ns
    case OrNoTeam(_, ns) => ns
  }

  function FirstPlaceholders(clauses: seq<Clause>, n: nat): seq<nat>
    requires n <= |clauses|
  {
    if n == 0 then [] else FirstPlaceholders(clauses, n - 1) + ParamsOf(clauses[n - 1])
  }

  function Placeholders(clauses: seq<Clause>): seq<nat> {
    FirstPlaceholders(clauses, |clauses|)
  }

  /** The set a selection stands for, empty meaning no restriction. */
  ghost predicate PassesSet(selection: Option<string>, value: Option<string>) {
    (forall name :: !Lists(selection, name)) || (value.Some? && Lists(selection, value.value))
  }

  /** `__none__` stands for having no team; it never names one, so a team of that very name cannot be selected. */
  ghost predicate PassesTeam(selection: Option<string>, team: Option<string>) {
    || (forall name :: !Lists(selection, name))
    || (if team.None? then Lists(selection, "__none__") else team.value != "__none__" && Lists(selection, team.value))
  }

  ghost predicate Passes(f: Filter, row: Row) {
    && PassesTeam(f.team, row.team) && PassesSet(f.user, row.user)
    && PassesSet(f.model, Some(row.model)) && PassesSet(f.endpoint, row.endpoint)
  }

  // ---------------------------------------------------------------- proofs

  predicate InNames(names: seq<string>, value: Option<string>) {
    names == [] || (value.Some? && value.value in names)
  }

  predicate InTeams(names: seq<string>, team: Option<string>) {
    names == [] || if team.None? then NONE_TOKEN in names else team.value in names && team.value != NONE_TOKEN
  }

  /** Every conjunct of a block evaluates to true. */
  predicate AllTrue(clauses: seq<Clause>, binds: seq<string>, row: Row) {
    forall i | 0 <= i < |clauses| :: Eval(clauses[i], binds, row) == True
  }

  lemma {:induction false} WhereIsConjunction(time: Truth, clauses: seq<Clause>, binds: seq<string>, row: Row)
    ensures Where(time, clauses, binds, row) == True <==> time == True && AllTrue(clauses, binds, row)
  {
    if clauses != [] {
      WhereIsConjunction(time, clauses[..|clauses| - 1], binds, row);
    }
  }

  lemma {:induction false} NamedMembers(names: seq<string>, name: string)
    ensures name in Named(names) <==> name in names && name != NONE_TOKEN
  {
    if names != [] {
      NamedMembers(names[1..], name);
    }
  }

  lemma ParamsAreBinds(binds: seq<string>, lo: nat, k: nat)
    requires lo + k <= |binds|
    ensures
      var own := binds[lo..lo + k];
      Params(binds, Numbers(2 + lo, k)) == seq(|own|, i requires 0 <= i < |own| => Some(own[i]))
  {}

  lemma SingleTrue(c: Clause, binds: seq<string>, row: Row)
    ensures AllTrue([c], binds, row) <==> Eval(c, binds, row) == True
  {
    assert [c][0] == c;
  }

  /** A set block selects exactly the rows whose value is among its names, wherever its binds sit in the list. */
  lemma SetClauseMeaning(column: Column, names: seq<string>, binds: seq<string>, lo: nat, row: Row)
    requires lo + |names| <= |binds| && binds[lo..lo + |names|] == names
    ensures AllTrue(SetClause(column, names, 2 + lo), binds, row) <==> InNames(names, ValueOf(row, column))
  {
    if |names| == 1 {
      assert binds[lo] == binds[lo..lo + |names|][0];
      SingleTrue(EqualsParam(column, 2 + lo), binds, row);
    } else if |names| > 1 {
      ParamsAreBinds(binds, lo, |names|);
      InSelects(ValueOf(row, column), names);
      SingleTrue(InParams(column, Numbers(2 + lo, |names|)), binds, row);
    }
  }

  lemma {:induction false} NoneNamed(names: seq<string>)
    ensures NONE_TOKEN !in names ==> Named(names) == names
    ensures Named(names) == [] && names != [] ==> NONE_TOKEN in names
  {
    if names != [] {
      NoneNamed(names[1..]);
    }
  }

  lemma TeamClauseMeaning(names: seq<string>, binds: seq<string>, row: Row)
    requires Named(names) <= binds
    ensures AllTrue(TeamClause(names, 2), binds, row) <==> InTeams(names, row.team)
  {
    var named := Named(names);
    NoneNamed(names);
    NamedMembers(names, row.team.GetOr(""));
    assert binds[0..|named|] == named;
    if NONE_TOKEN !in names {
      SetClauseMeaning(TeamName, named, binds, 0, row);
    } else if named == [] {
      SingleTrue(NoTeam, binds, row);
    } else {
      ParamsAreBinds(binds, 0, |named|);
      InSelects(row.team, named);
      SingleTrue(OrNoTeam(TeamName, Numbers(2, |named|)), binds, row);
    }
  }

  predicate CountsFrom(params: seq<nat>, from: nat) {
    forall i | 0 <= i < |params| :: params[i] == from + i
  }

  /** The next free number, if the placeholders of the first `n` clauses count up from `from`. */
  function Scan(clauses: seq<Clause>, n: nat, from: nat): Option<nat>
    requires n <= |clauses|
    decreases n
  {
    if n == 0 then Some(from)
    else
      var next, params := Scan(clauses, n - 1, from), ParamsOf(clauses[n - 1]);
      if next.Some? && CountsFrom(params, next.value) then Some(next.value + |params|) else None
  }

  lemma {:induction false} ScannedReads(clauses: seq<Clause>, n: nat, from: nat)
    requires n <= |clauses| && Scan(clauses, n, from).Some?
    ensures from <= Scan(clauses, n, from).value
    ensures FirstPlaceholders(clauses, n) == Numbers(from, Scan(clauses, n, from).value - from)
    decreases n
  {
    if n > 0 {
      ScannedReads(clauses, n - 1, from);
    }
  }

  lemma {:induction false} ScanFront(a: seq<Clause>, b: seq<Clause>, n: nat, from: nat)
    requires n <= |a|
    ensures Scan(a + b, n, from) == Scan(a, n, from)
    decreases n
  {
    if n > 0 {
      ScanFront(a, b, n - 1, from);
    }
  }

  lemma {:induction false} ScanConcat(a: seq<Clause>, b: seq<Clause>, m: nat, from: nat, mid: nat)
    requires m <= |b| && Scan(a, |a|, from) == Some(mid)
    ensures Scan(a + b, |a| + m, from) == Scan(b, m, mid)
    decreases m
  {
    if m == 0 {
      ScanFront(a, b, |a|, from);
    } else {
      assert (a + b)[|a| + m - 1] == b[m - 1];
      ScanConcat(a, b, m - 1, from, mid);
    }
  }

  lemma ScanOne(c: Clause, from: nat)
    requires CountsFrom(ParamsOf(c), from)
    ensures Scan([c], 1, from) == Some(from + |ParamsOf(c)|)
  {
    assert Scan([c], 0, from) == Some(from);
  }

  lemma ScanSet(column: Column, names: seq<string>, from: nat)
    ensures Scan(SetClause(column, names, from), |SetClause(column, names, from)|, from) == Some(from + |names|)
  {
    ScanOne(EqualsParam(column, from), from);
    ScanOne(InParams(column, Numbers(from, |names|)), from);
  }

  lemma ScanTeam(names: seq<string>, from: nat)
    ensures Scan(TeamClause(names, from), |TeamClause(names, from)|, from) == Some(from + |Named(names)|)
  {
    ScanSet(TeamName, Named(names), from);
    ScanOne(NoTeam, from);
    ScanOne(OrNoTeam(TeamName, Numbers(from, |Named(names)|)), from);
  }

  /** The clauses of one selection, given the first free number, and how many numbers they use up. */
  datatype Block = Block(size: nat, compile: nat -> seq<Clause>)

  predicate NumberedRightly(b: Block, from: nat) {
    Scan(b.compile(from), |b.compile(from)|, from) == Some(from + b.size)
  }

  function NextNumber(blocks: seq<Block>, n: nat): nat
    requires n <= |blocks|
    decreases n, |blocks|
  {
    if n == 0 then 2 else NextNumber(blocks, n - 1) + blocks[n - 1].size
  }

  function CompiledBlocks(blocks: seq<Block>, n: nat): seq<Clause>
    requires n <= |blocks|
    decreases n, |blocks|
  {
    if n == 0 then [] else CompiledBlocks(blocks, n - 1) + blocks[n - 1].compile(NextNumber(blocks, n - 1))
  }

  lemma ScanAppend(a: seq<Clause>, b: seq<Clause>, next: nat, end: nat)
    requires Scan(a, |a|, 2) == Some(next) && Scan(b, |b|, next) == Some(end)
    ensures Scan(a + b, |a + b|, 2) == Some(end)
  {
    ScanConcat(a, b, |b|, 2, next);
  }

  lemma {:induction false} ScanBlocks(blocks: seq<Block>, n: nat)
    requires n <= |blocks| && forall b, from | b in blocks :: NumberedRightly(b, from)
    ensures Scan(CompiledBlocks(blocks, n), |CompiledBlocks(blocks, n)|, 2) == Some(NextNumber(blocks, n))
    decreases n
  {
    if n > 0 {
      ScanBlocks(blocks, n - 1);
      var next := NextNumber(blocks, n - 1);
      assert NumberedRightly(blocks[n - 1], next);
      ScanAppend(CompiledBlocks(blocks, n - 1), blocks[n - 1].compile(next), next, NextNumber(blocks, n));
    }
  }

  lemma FourBlocks(blocks: seq<Block>)
    requires |blocks| == 4
    ensures
      var n1 := 2 + blocks[0].size;
      var n2 := n1 + blocks[1].size;
      var n3 := n2 + blocks[2].size;
      && CompiledBlocks(blocks, 4) ==
         blocks[0].compile(2) + blocks[1].compile(n1) + blocks[2].compile(n2) + blocks[3].compile(n3)
      && NextNumber(blocks, 4) == n3 + blocks[3].size
  {
    assert NextNumber(blocks, 1) == 2 + blocks[0].size;
    assert NextNumber(blocks, 2) == NextNumber(blocks, 1) + blocks[1].size;
    assert NextNumber(blocks, 3) == NextNumber(blocks, 2) + blocks[2].size;
    assert CompiledBlocks(blocks, 1) == blocks[0].compile(2);
    assert CompiledBlocks(blocks, 2) == CompiledBlocks(blocks, 1) + blocks[1].compile(NextNumber(blocks, 1));
    assert CompiledBlocks(blocks, 3) == CompiledBlocks(blocks, 2) + blocks[2].compile(NextNumber(blocks, 2));
  }

  function SetBlock(column: Column, names: seq<string>): Block {
    Block(|names|, (from: nat) => SetClause(column, names, from))
  }

  function TeamBlock(names: seq<string>): Block {
    Block(|Named(names)|, (from: nat) => TeamClause(names, from))
  }

  function BlocksOf(l: Lists4): seq<Block> {
    [TeamBlock(l.teams), SetBlock(UserIdentity, l.users), SetBlock(Model, l.models),
     SetBlock(EndpointName, l.endpoints)]
  }

  lemma SetBlockIsNumberedRightly(column: Column, names: seq<string>, from: nat)
    ensures NumberedRightly(SetBlock(column, names), from)
  {
    ScanSet(column, names, from);
  }

  lemma TeamBlockIsNumberedRightly(names: seq<string>, from: nat)
    ensures NumberedRightly(TeamBlock(names), from)
  {
    ScanTeam(names, from);
  }

  lemma ClausesAreBlocks(l: Lists4)
    ensures Clauses(l) == CompiledBlocks(BlocksOf(l), 4) && NextNumber(BlocksOf(l), 4) == 2 + |Binds(l)|
  {
    FourBlocks(BlocksOf(l));
  }

  /** The placeholders read left to right are `$2 .. $(1 + number of binds)`, each exactly once. */
  lemma PlaceholdersInOrder(l: Lists4)
    ensures Placeholders(Clauses(l)) == Numbers(2, |Binds(l)|)
  {
    var blocks := BlocksOf(l);
    ClausesAreBlocks(l);
    forall b, from: nat | b in blocks ensures NumberedRightly(b, from) {
      TeamBlockIsNumberedRightly(l.teams, from);
      SetBlockIsNumberedRightly(UserIdentity, l.users, from);
      SetBlockIsNumberedRightly(Model, l.models, from);
      SetBlockIsNumberedRightly(EndpointName, l.endpoints, from);
    }
    ScanBlocks(blocks, 4);
    ScannedReads(CompiledBlocks(blocks, 4), |CompiledBlocks(blocks, 4)|, 2);
  }

  lemma EmptySelection(selection: Option<string>)
    ensures Names(selection) == [] <==> forall name :: !Lists(selection, name)
  {
    forall name
      ensures name in Names(selection) <==> Lists(selection, name)
    {
      NamesAreListed(selection, name);
    }
    assert Names(selection) != [] ==> Lists(selection, Names(selection)[0]);
  }

  /** One set block inside the whole bind list, whatever surrounds it. */
  lemma SetBlockMeaning(column: Column, before: seq<string>, names: seq<string>, after: seq<string>, binds: seq<string>,
                        row: Row)
    requires binds == before + names + after
    ensures AllTrue(SetClause(column, names, 2 + |before|), binds, row) <==> InNames(names, ValueOf(row, column))
  {
    SetClauseMeaning(column, names, binds, |before|, row);
  }

  lemma Regrouped(a: seq<string>, b: seq<string>, c: seq<string>, d: seq<string>)
    ensures a + b + c + d == a + (b + c + d) == a + b + (c + d) == a + b + c + d + []
  {}

  lemma ClausesMeaning(l: Lists4, time: Truth, row: Row)
    ensures Where(time, Clauses(l), Binds(l), row) == True <==>
            && time == True && InTeams(l.teams, row.team) && InNames(l.users, row.user)
            && InNames(l.models, Some(row.model)) && InNames(l.endpoints, row.endpoint)
  {
    var named, u, m, e, binds := Named(l.teams), l.users, l.models, l.endpoints, Binds(l);
    Regrouped(named, u, m, e);
    var c0 := TeamClause(l.teams, 2);
    var c1 := SetClause(UserIdentity, u, 2 + |named|);
    var c2 := SetClause(Model, m, 2 + |named + u|);
    var c3 := SetClause(EndpointName, e, 2 + |named + u + m|);
    assert AllTrue(c0, binds, row) <==> InTeams(l.teams, row.team) by {
      TeamClauseMeaning(l.teams, binds, row);
    }
    assert AllTrue(c1, binds, row) <==> InNames(u, row.user) by {
      SetBlockMeaning(UserIdentity, named, u, m + e, binds, row);
    }
    assert AllTrue(c2, binds, row) <==> InNames(m, Some(row.model)) by {
      SetBlockMeaning(Model, named + u, m, e, binds, row);
    }
    assert AllTrue(c3, binds, row) <==> InNames(e, row.endpoint) by {
      SetBlockMeaning(EndpointName, named + u + m, e, [], binds, row);
    }
    assert Clauses(l) == c0 + c1 + c2 + c3;
    FourConjuncts(time, c0, c1, c2, c3, binds, row);
  }

  /** For every filter and every row, the emitted clause under its bind list is true exactly when the row passes. */
  lemma CompileMeaning(f: Filter, time: Truth, row: Row)
    ensures Where(time, Clauses(ListsOf(f)), Binds(ListsOf(f)), row) == True <==> time == True && Passes(f, row)
  {
    ClausesMeaning(ListsOf(f), time, row);
    SelectionMeaning(f, row);
  }

  lemma FourConjuncts(time: Truth, c0: seq<Clause>, c1: seq<Clause>, c2: seq<Clause>, c3: seq<Clause>,
                      binds: seq<string>, row: Row)
    ensures Where(time, c0 + c1 + c2 + c3, binds, row) == True <==>
            && time == True && AllTrue(c0, binds, row) && AllTrue(c1, binds, row)
            && AllTrue(c2, binds, row) && AllTrue(c3, binds, row)
  {
    WhereIsConjunction(time, c0 + c1 + c2 + c3, binds, row);
    AllTrueConcat(c0 + c1 + c2, c3, binds, row);
    AllTrueConcat(c0 + c1, c2, binds, row);
    AllTrueConcat(c0, c1, binds, row);
  }

  lemma AllTrueConcat(a: seq<Clause>, b: seq<Clause>, binds: seq<string>, row: Row)
    ensures AllTrue(a + b, binds, row) <==> AllTrue(a, binds, row) && AllTrue(b, binds, row)
  {
    forall i | 0 <= i < |b|
      ensures (a + b)[|a| + i] == b[i]
    {}
    forall i | 0 <= i < |a|
      ensures (a + b)[i] == a[i]
    {}
  }

  lemma SelectionMeaning(f: Filter, row: Row)
    ensures Passes(f, row) <==>
            && InTeams(Names(f.team), row.team) && InNames(Names(f.user), row.user)
            && InNames(Names(f.model), Some(row.model)) && InNames(Names(f.endpoint), row.endpoint)
  {
    EmptySelection(f.team);
    EmptySelection(f.user);
    EmptySelection(f.model);
    EmptySelection(f.endpoint);
    NamesAreListed(f.team, NONE_TOKEN);
    NamesAreListed(f.team, row.team.GetOr(""));
    NamesAreListed(f.user, row.user.GetOr(""));
    NamesAreListed(f.model, row.model);
    NamesAreListed(f.endpoint, row.endpoint.GetOr(""));
  }
}
