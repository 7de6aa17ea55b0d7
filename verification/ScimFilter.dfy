/**
 The SCIM group filter compiler: a filter tree becomes a SQL expression with numbered placeholders, and the values
 it compares with are pushed on a bind list. `LOWER` is a parameter, character by character.
 */
module ScimFilter {
  import opened Wrappers
  import opened Sql

  datatype Filter =
    | Eq(attr: string, value: string)
    | Contains(attr: string, value: string)
    | StartsWith(attr: string, value: string)
    | And(left: Filter, right: Filter)

  datatype Expr =
    | NameEquals(param: nat)
    | ExternalIdEquals(param: nat)
    | NameContains(param: nat)
    | NameStartsWith(param: nat)
    | Never
    | Conj(left: Expr, right: Expr)

  datatype Group = Group(idp: nat, displayName: string, externalId: Option<string>)

  // ---------------------------------------------------------------- the compiler

  /** The expression of a filter when the bind list already holds `bound` values, and the values it adds. */
  function Compile(f: Filter, start: nat, bound: nat): (Expr, seq<string>) {
    match f
    case Eq(attr, v) =>
      if attr == "displayName" then (NameEquals(start + bound), [v])
      else if attr == "externalId" then (ExternalIdEquals(start + bound), [v])
      else (Never, [])
    case Contains(attr, v) => if attr == "displayName" then (NameContains(start + bound), [v]) else (Never, [])
    case StartsWith(attr, v) => if attr == "displayName" then (NameStartsWith(start + bound), [v]) else (Never, [])
    case And(l, r) =>
      var (le, lv) := Compile(l, start, bound);
      var (re, rv) := Compile(r, start, bound + |lv|);
      (Conj(le, re), lv + rv)
  }

  class BindList {
    var values: seq<string>

    constructor ()
      ensures values == []
    {
      values := [];
    }

    method Push(v: string)
      modifies this
      ensures values == old(values) + [v]
    {
      values := values + [v];
    }
  }

  method BuildFilterExpr(f: Filter, start: nat, binds: BindList) returns (e: Expr)
    modifies binds
    ensures e == Compile(f, start, |old(binds.values)|).0
    ensures binds.values == old(binds.values) + Compile(f, start, |old(binds.values)|).1
    decreases f
  {
    var idx := start + |binds.values|;
    match f {
      case Eq(attr, v) =>
        if attr == "displayName" {
          binds.Push(v);
          e := NameEquals(idx);
        } else if attr == "externalId" {
          binds.Push(v);
          e := ExternalIdEquals(idx);
        } else {
          e := Never;
        }
      case Contains(attr, v) =>
        if attr == "displayName" {
          binds.Push(v);
          e := NameContains(idx);
        } else {
          e := Never;
        }
      case StartsWith(attr, v) =>
        if attr == "displayName" {
          binds.Push(v);
          e := NameStartsWith(idx);
        } else {
          e := Never;
        }
      case And(l, r) =>
        var le := BuildFilterExpr(l, start, binds);
        var re := BuildFilterExpr(r, start, binds);
        e := Conj(le, re);
    }
  }

  /** The listing query: its condition beyond the IDP, its bind values, and the numbers of LIMIT and OFFSET. */
  datatype Query = Query(filter: Option<Expr>, values: seq<string>, limitParam: nat, offsetParam: nat)

  function ListQuery(f: Option<Filter>): Query {
    match f
    case None => Query(None, [], 2, 3)
    case Some(t) => var (e, vs) := Compile(t, 2, 0); Query(Some(e), vs, 2 + |vs|, 3 + |vs|)
  }

  method BuildListQuery(f: Option<Filter>) returns (q: Query)
    ensures q == ListQuery(f)
  {
    var binds := new BindList();
    var e := None;
    if f.Some? {
      var clause := BuildFilterExpr(f.value, 2, binds);
      e := Some(clause);
    }
    var nextParam := 2 + |binds.values|;
    q := Query(e, binds.values, nextParam, nextParam + 1);
  }

  // ---------------------------------------------------------------- meaning

  function Map(lower: char -> char, s: string): string {
    seq(|s|, i requires 0 <= i < |s| => lower(s[i]))
  }

  /** What the proofs need of LOWER: it is idempotent, keeps "a", and neither makes nor unmakes a metacharacter. */
  ghost predicate Lowering(lower: char -> char) {
    && lower('a') == 'a'
    && (forall c {:trigger lower(lower(c))} :: lower(lower(c)) == lower(c))
    && (forall c :: Meta(c) ==> lower(c) == c)
    && (forall c :: Meta(lower(c)) ==> Meta(c))
  }

  /** `$start` is the first bind value. */
  function Param(values: seq<string>, start: nat, n: nat): Option<string> {
    if start <= n < start + |values| then Some(values[n - start]) else None
  }

  function LikeTruth(s: string, prefix: string, p: Option<string>): Truth {
    if p.None? then Unknown else FromBool(Like(s, prefix + p.value + "%"))
  }

  function Lowered(lower: char -> char, p: Option<string>): Option<string> {
    if p.None? then None else Some(Map(lower, p.value))
  }

  function Eval(lower: char -> char, e: Expr, values: seq<string>, start: nat, g: Group): Truth {
    match e
    case NameEquals(n) => Equals(Some(Map(lower, g.displayName)), Lowered(lower, Param(values, start, n)))
    case ExternalIdEquals(n) => Equals(g.externalId, Param(values, start, n))
    case NameContains(n) => LikeTruth(Map(lower, g.displayName), "%", Lowered(lower, Param(values, start, n)))
    case NameStartsWith(n) => LikeTruth(Map(lower, g.displayName), "", Lowered(lower, Param(values, start, n)))
    case Never => False
    case Conj(l, r) => Sql.And(Eval(lower, l, values, start, g), Eval(lower, r, values, start, g))
  }

  /** Whether the listing query for `idp` returns the group. */
  function Returned(lower: char -> char, q: Query, idp: nat, g: Group): bool {
    && g.idp == idp
    && (q.filter.None? || Eval(lower, q.filter.value, q.values, 2, g) == True)
  }

  /**
   What a filter asks for (section 3.4.2.2 of RFC 7644): display names compare without regard to case, external
   identifiers exactly, and any other attribute or pairing selects nothing.
   */
  predicate Selects(lower: char -> char, f: Filter, g: Group) {
    match f
    case Eq(attr, v) =>
      if attr == "displayName" then Map(lower, g.displayName) == Map(lower, v)
      else attr == "externalId" && g.externalId == Some(v)
    case Contains(attr, v) => attr == "displayName" && Substring(Map(lower, v), Map(lower, g.displayName))
    case StartsWith(attr, v) => attr == "displayName" && Prefix(Map(lower, v), Map(lower, g.displayName))
    case And(l, r) => Selects(lower, l, g) && Selects(lower, r, g)
  }

  /** No operand of a LIKE comparison holds a metacharacter. */
  predicate PlainOperands(f: Filter) {
    match f
    case Eq(_, _) => true
    case Contains(attr, v) => attr == "displayName" ==> Plain(v)
    case StartsWith(attr, v) => attr == "displayName" ==> Plain(v)
    case And(l, r) => PlainOperands(l) && PlainOperands(r)
  }

  function Placeholders(e: Expr): seq<nat> {
    match e
    case Never => []
    case Conj(l, r) => Placeholders(l) + Placeholders(r)
    case _ => [e.param]
  }

  // ---------------------------------------------------------------- proofs

  /**
   The placeholders of an expression are consecutive in reading order, from the first free number on, one per value.
   */
  lemma {:induction false} PlaceholdersInOrder(f: Filter, start: nat, bound: nat)
    ensures
      var (e, vs) := Compile(f, start, bound);
      Placeholders(e) == seq(|vs|, i requires 0 <= i < |vs| => start + bound + i)
  {
    if f.And? {
      var lv := Compile(f.left, start, bound).1;
      PlaceholdersInOrder(f.left, start, bound);
      PlaceholdersInOrder(f.right, start, bound + |lv|);
    }
  }

  /** In the listing query no filter placeholder collides with the IDP's `$1`, with LIMIT or with OFFSET. */
  lemma PagingNeverCollides(f: Option<Filter>)
    ensures
      var q := ListQuery(f);
      && q.limitParam == 2 + |q.values| && q.offsetParam == q.limitParam + 1 && (f.None? ==> q.values == [])
      && (q.filter.Some? ==> |Placeholders(q.filter.value)| == |q.values| &&
                             forall n | n in Placeholders(q.filter.value) :: 1 < n < q.limitParam < q.offsetParam)
  {
    if f.Some? {
      PlaceholdersInOrder(f.value, 2, 0);
    }
  }

  /** An expression reads no values but its own, wherever in the list they stand. */
  lemma {:induction false} OnlyOwnBindsMatter(lower: char -> char, f: Filter, start: nat, bound: nat,
                                              a: seq<string>, b: seq<string>, g: Group)
    requires
      var n := bound + |Compile(f, start, bound).1|;
      n <= |a| && n <= |b| && forall i | bound <= i < n :: a[i] == b[i]
    ensures var e := Compile(f, start, bound).0; Eval(lower, e, a, start, g) == Eval(lower, e, b, start, g)
  {
    if f.And? {
      OnlyOwnBindsMatter(lower, f.left, start, bound, a, b, g);
      OnlyOwnBindsMatter(lower, f.right, start, bound + |Compile(f.left, start, bound).1|, a, b, g);
    }
  }

  /** Values bound later never change what an expression compiled earlier means. */
  lemma LaterBindsAreInvisible(lower: char -> char, f: Filter, start: nat, before: seq<string>, later: seq<string>,
                               g: Group)
    ensures
      var (e, vs) := Compile(f, start, |before|);
      Eval(lower, e, before + vs + later, start, g) == Eval(lower, e, before + vs, start, g)
  {
    var vs := Compile(f, start, |before|).1;
    OnlyOwnBindsMatter(lower, f, start, |before|, before + vs + later, before + vs, g);
  }

  lemma LoweredIsPlain(lower: char -> char, p: string)
    requires Lowering(lower)
    ensures Plain(Map(lower, p)) <==> Plain(p)
  {
    var m := Map(lower, p);
    if !Plain(p) {
      var i :| 0 <= i < |p| && Meta(p[i]);
      assert Meta(m[i]);
    }
    if !Plain(m) {
      var i :| 0 <= i < |m| && Meta(m[i]);
      assert Meta(p[i]);
    }
  }

  /**
   For every tree whose LIKE operands are plain, the compiled expression is true exactly of the groups the tree selects.
   */
  lemma {:induction false} CompileMeaning(lower: char -> char, f: Filter, start: nat, before: seq<string>, g: Group)
    requires Lowering(lower) && PlainOperands(f)
    ensures
      var (e, vs) := Compile(f, start, |before|);
      Eval(lower, e, before + vs, start, g) == True <==> Selects(lower, f, g)
  {
    var (e, vs) := Compile(f, start, |before|);
    if f.And? {
      var (le, lv) := Compile(f.left, start, |before|);
      var (re, rv) := Compile(f.right, start, |before + lv|);
      CompileMeaning(lower, f.left, start, before, g);
      CompileMeaning(lower, f.right, start, before + lv, g);
      LaterBindsAreInvisible(lower, f.left, start, before, rv, g);
      assert before + lv + rv == before + vs;
    } else if vs != [] {
      var name, operand := Map(lower, g.displayName), Map(lower, f.value);
      assert (before + vs)[|before|] == f.value;
      LoweredIsPlain(lower, f.value);
      if f.Contains? {
        LikePlainSubstring(name, operand);
      } else if f.StartsWith? {
        LikePlainPrefix(name, operand);
        assert "" + operand == operand;
      }
    }
  }

  lemma ListQueryMeaning(lower: char -> char, f: Option<Filter>, idp: nat, g: Group)
    requires Lowering(lower) && (f.Some? ==> PlainOperands(f.value))
    ensures Returned(lower, ListQuery(f), idp, g) <==> g.idp == idp && (f.None? || Selects(lower, f.value, g))
  {
    if f.Some? {
      CompileMeaning(lower, f.value, 2, [], g);
      assert [] + ListQuery(f).values == ListQuery(f).values;
    }
  }

  ghost predicate Faithful(lower: char -> char, f: Filter) {
    forall g: Group :: Returned(lower, ListQuery(Some(f)), g.idp, g) <==> Selects(lower, f, g)
  }

  /**
   A single containment or prefix test on the display name means what it should on every group if and only if its
   operand is free of `%`, `_` and backslashes: otherwise some group that it should not select is returned.
   */
  lemma LikeIsFaithfulIffPlain(lower: char -> char, v: string)
    requires Lowering(lower)
    ensures Faithful(lower, Contains("displayName", v)) <==> Plain(v)
    ensures Faithful(lower, StartsWith("displayName", v)) <==> Plain(v)
  {
    if Plain(v) {
      PlainIsFaithful(lower, Contains("displayName", v));
      PlainIsFaithful(lower, StartsWith("displayName", v));
    } else {
      var p := Map(lower, v);
      LoweredIsPlain(lower, v);
      MetaOperandMisleadsLike(p);
      CheapestIsLower(lower, v);
      ContainsMisled(lower, v, p, Cheapest(p));
      StartsWithMisled(lower, v, p, Cheapest(p));
    }
  }

  lemma PlainIsFaithful(lower: char -> char, f: Filter)
    requires Lowering(lower) && PlainOperands(f)
    ensures Faithful(lower, f)
  {
    forall g: Group ensures Returned(lower, ListQuery(Some(f)), g.idp, g) <==> Selects(lower, f, g) {
      ListQueryMeaning(lower, Some(f), g.idp, g);
    }
  }

  lemma ContainsMisled(lower: char -> char, v: string, p: string, name: string)
    requires p == Map(lower, v) && Map(lower, name) == name
    requires Like(name, "%" + p + "%") && !Substring(p, name)
    ensures !Faithful(lower, Contains("displayName", v))
  {
    var f, g := Contains("displayName", v), Group(0, name, None);
    assert ListQuery(Some(f)) == Query(Some(NameContains(2)), [v], 3, 4);
    assert Eval(lower, NameContains(2), [v], 2, g) == True;
    assert Returned(lower, ListQuery(Some(f)), g.idp, g) && !Selects(lower, f, g);
  }

  lemma StartsWithMisled(lower: char -> char, v: string, p: string, name: string)
    requires p == Map(lower, v) && Map(lower, name) == name
    requires Like(name, p + "%") && !Prefix(p, name)
    ensures !Faithful(lower, StartsWith("displayName", v))
  {
    var f, g := StartsWith("displayName", v), Group(0, name, None);
    assert ListQuery(Some(f)) == Query(Some(NameStartsWith(2)), [v], 3, 4);
    assert "" + p == p;
    assert Eval(lower, NameStartsWith(2), [v], 2, g) == True;
    assert Returned(lower, ListQuery(Some(f)), g.idp, g) && !Selects(lower, f, g);
  }

  lemma {:induction false} CheapestOfLower(lower: char -> char, p: string)
    requires Lowering(lower) && forall i | 0 <= i < |p| :: lower(p[i]) == p[i]
    ensures forall i | 0 <= i < |Cheapest(p)| :: lower(Cheapest(p)[i]) == Cheapest(p)[i]
    decreases |p|
  {
    if p != "" {
      assert Meta('%');
      if p[0] == '\\' && |p| > 1 {
        CheapestOfLower(lower, p[2..]);
      } else {
        CheapestOfLower(lower, p[1..]);
      }
    }
  }

  lemma CheapestIsLower(lower: char -> char, v: string)
    requires Lowering(lower)
    ensures Map(lower, Cheapest(Map(lower, v))) == Cheapest(Map(lower, v))
  {
    CheapestOfLower(lower, Map(lower, v));
  }
}
