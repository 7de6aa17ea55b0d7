/**
 When a conjunction of SCIM tests means what it says although its operands reach LIKE unescaped: for trees without an
 equality on the display name, exactly when no operand has a metacharacter or the other tests exclude one another.
 */
module ScimLike {
  import opened Wrappers
  import opened Sql
  import opened ScimFilter

  // ---------------------------------------------------------------- trees

  /** The operands a tree compares display names with for equality. */
  function NameOperands(f: Filter): seq<string> {
    match f
    case Eq(attr, v) => if attr == "displayName" then [v] else []
    case Contains(_, _) => []
    case StartsWith(_, _) => []
    case And(l, r) => NameOperands(l) + NameOperands(r)
  }

  /** The operands a tree compares display names with by LIKE. */
  function LikeOperands(f: Filter): seq<string> {
    match f
    case Eq(_, _) => []
    case Contains(attr, v) => if attr == "displayName" then [v] else []
    case StartsWith(attr, v) => if attr == "displayName" then [v] else []
    case And(l, r) => LikeOperands(l) + LikeOperands(r)
  }

  /** Those of them that are compared with the start of the name. */
  function PrefixOperands(f: Filter): seq<string> {
    match f
    case Eq(_, _) => []
    case Contains(_, _) => []
    case StartsWith(attr, v) => if attr == "displayName" then [v] else []
    case And(l, r) => PrefixOperands(l) + PrefixOperands(r)
  }

  /** An external identifier that passes all tests of the tree other than those on the display name. */
  predicate Fits(f: Filter, id: Option<string>) {
    match f
    case Eq(attr, v) => attr == "displayName" || (attr == "externalId" && id == Some(v))
    case Contains(attr, _) => attr == "displayName"
    case StartsWith(attr, _) => attr == "displayName"
    case And(l, r) => Fits(l, id) && Fits(r, id)
  }

  /** The tests on other attributes do not exclude one another. */
  ghost predicate Satisfiable(f: Filter) {
    exists id :: Fits(f, id)
  }

  lemma {:induction false} PlainLikesArePlainOperands(f: Filter)
    ensures (forall v | v in LikeOperands(f) :: Plain(v)) <==> PlainOperands(f)
  {
    if f.And? {
      PlainLikesArePlainOperands(f.left);
      PlainLikesArePlainOperands(f.right);
    }
  }

  /** The values a tree binds stand in the list from `bound` on. */
  predicate Bound(f: Filter, start: nat, bound: nat, values: seq<string>) {
    var vs := Compile(f, start, bound).1;
    bound + |vs| <= |values| && forall i | 0 <= i < |vs| :: values[bound + i] == vs[i]
  }

  lemma BoundParts(f: Filter, start: nat, bound: nat, values: seq<string>)
    requires f.And? && Bound(f, start, bound, values)
    ensures Bound(f.left, start, bound, values)
    ensures Bound(f.right, start, bound + |Compile(f.left, start, bound).1|, values)
  {
    var lv := Compile(f.left, start, bound).1;
    var rv := Compile(f.right, start, bound + |lv|).1;
    forall i | 0 <= i < |lv| ensures values[bound + i] == lv[i] {
      assert (lv + rv)[i] == lv[i];
    }
    forall i | 0 <= i < |rv| ensures values[bound + |lv| + i] == rv[i] {
      assert (lv + rv)[|lv| + i] == rv[i];
    }
  }

  lemma LeafParam(f: Filter, start: nat, bound: nat, values: seq<string>)
    requires !f.And? && Bound(f, start, bound, values) && Compile(f, start, bound).1 != []
    ensures Param(values, start, start + bound) == Some(f.value)
  {
    assert values[bound + 0] == Compile(f, start, bound).1[0];
  }

  /** The tests on the display name, as the database runs them on a lower-cased name. */
  predicate Matches(lower: char -> char, f: Filter, name: string) {
    match f
    case Eq(attr, v) => attr == "displayName" ==> name == Map(lower, v)
    case Contains(attr, v) => attr == "displayName" ==> Like(name, "%" + Map(lower, v) + "%")
    case StartsWith(attr, v) => attr == "displayName" ==> Like(name, "" + Map(lower, v) + "%")
    case And(l, r) => Matches(lower, l, name) && Matches(lower, r, name)
  }

  /** The same tests as they are meant. */
  predicate Means(lower: char -> char, f: Filter, name: string) {
    match f
    case Eq(attr, v) => attr == "displayName" ==> name == Map(lower, v)
    case Contains(attr, v) => attr == "displayName" ==> Substring(Map(lower, v), name)
    case StartsWith(attr, v) => attr == "displayName" ==> Prefix(Map(lower, v), name)
    case And(l, r) => Means(lower, l, name) && Means(lower, r, name)
  }

  lemma {:induction false} SelectedIff(lower: char -> char, f: Filter, g: Group)
    ensures Selects(lower, f, g) <==> Fits(f, g.externalId) && Means(lower, f, Map(lower, g.displayName))
  {
    if f.And? {
      SelectedIff(lower, f.left, g);
      SelectedIff(lower, f.right, g);
    }
  }

  lemma {:induction false} TrueIff(lower: char -> char, f: Filter, start: nat, bound: nat, values: seq<string>,
                                   g: Group)
    requires Bound(f, start, bound, values)
    ensures
      Eval(lower, Compile(f, start, bound).0, values, start, g) == True
      <==> Fits(f, g.externalId) && Matches(lower, f, Map(lower, g.displayName))
  {
    if f.And? {
      BoundParts(f, start, bound, values);
      TrueIff(lower, f.left, start, bound, values, g);
      TrueIff(lower, f.right, start, bound + |Compile(f.left, start, bound).1|, values, g);
    } else if Compile(f, start, bound).1 != [] {
      LeafParam(f, start, bound, values);
    }
  }

  lemma ReturnedIff(lower: char -> char, f: Filter, g: Group)
    ensures
      Returned(lower, ListQuery(Some(f)), g.idp, g)
      <==> Fits(f, g.externalId) && Matches(lower, f, Map(lower, g.displayName))
  {
    TrueIff(lower, f, 2, 0, ListQuery(Some(f)).values, g);
  }

  /** A tree is faithful exactly when nothing fits it or its tests on the name match what they mean. */
  lemma FaithfulIff(lower: char -> char, f: Filter)
    ensures
      Faithful(lower, f)
      <==> !Satisfiable(f) || forall s: string :: Matches(lower, f, Map(lower, s)) <==> Means(lower, f, Map(lower, s))
  {
    forall g: Group
      ensures Returned(lower, ListQuery(Some(f)), g.idp, g) <==>
              Fits(f, g.externalId) && Matches(lower, f, Map(lower, g.displayName))
      ensures Selects(lower, f, g) <==> Fits(f, g.externalId) && Means(lower, f, Map(lower, g.displayName))
    {
      ReturnedIff(lower, f, g);
      SelectedIff(lower, f, g);
    }
    if Faithful(lower, f) && Satisfiable(f) {
      var id :| Fits(f, id);
      forall s: string ensures Matches(lower, f, Map(lower, s)) <==> Means(lower, f, Map(lower, s)) {
        var g := Group(0, s, id);
        assert Returned(lower, ListQuery(Some(f)), g.idp, g) <==> Selects(lower, f, g);
      }
    }
  }

  // ---------------------------------------------------------------- more about LIKE

  /** The last character is a backslash that escapes nothing of the operand: it takes the `%` behind it literally. */
  predicate Dangles(p: string) {
    p != "" && if p[0] == '\\' then |p| == 1 || Dangles(p[2..]) else Dangles(p[1..])
  }

  /** Otherwise whatever follows a match still matches. */
  lemma {:induction false} LikeExtends(s: string, t: string, p: string)
    requires !Dangles(p) && Like(s, p + "%")
    ensures Like(s + t, p + "%")
    decreases |s| + |p|
  {
    var pat := p + "%";
    if p == "" {
      assert pat == "%";
      LikeAnything(s + t);
    } else if p[0] == '%' {
      assert pat[1..] == p[1..] + "%";
      if Like(s, pat[1..]) {
        LikeExtends(s, t, p[1..]);
      } else {
        LikeExtends(s[1..], t, p);
        assert (s + t)[1..] == s[1..] + t;
      }
    } else if p[0] == '\\' {
      assert pat[2..] == p[2..] + "%" && (s + t)[1..] == s[1..] + t;
      LikeExtends(s[1..], t, p[2..]);
    } else {
      assert pat[1..] == p[1..] + "%" && (s + t)[1..] == s[1..] + t;
      LikeExtends(s[1..], t, p[1..]);
    }
  }

  /** And what matches an operand matches any part of it that it starts with. */
  lemma {:induction false} LikeDrops(s: string, p: string, q: string)
    requires !Dangles(p) && Like(s, p + q + "%")
    ensures Like(s, p + "%")
    decreases |s| + |p|
  {
    var pat, more := p + "%", p + q + "%";
    if p == "" {
      assert pat == "%";
      LikeAnything(s);
    } else if p[0] == '%' {
      assert pat[1..] == p[1..] + "%" && more[1..] == p[1..] + q + "%";
      if Like(s, more[1..]) {
        LikeDrops(s, p[1..], q);
      } else {
        LikeDrops(s[1..], p, q);
      }
    } else if p[0] == '\\' {
      assert pat[2..] == p[2..] + "%" && more[2..] == p[2..] + q + "%";
      LikeDrops(s[1..], p[2..], q);
    } else {
      assert pat[1..] == p[1..] + "%" && more[1..] == p[1..] + q + "%";
      LikeDrops(s[1..], p[1..], q);
    }
  }

  lemma {:induction false} LikeSkips(u: string, s: string, pat: string)
    requires Like(s, pat)
    ensures Like(u + s, "%" + pat)
  {
    assert ("%" + pat)[1..] == pat;
    if u == "" {
      assert u + s == s;
    } else {
      LikeSkips(u[1..], s, pat);
      assert (u + s)[1..] == u[1..] + s;
    }
  }

  /** A dangling operand matches only what ends in a percent sign. */
  lemma {:induction false} DanglingEnds(s: string, p: string)
    requires Dangles(p) && Like(s, p + "%")
    ensures s != "" && s[|s| - 1] == '%'
    decreases |s| + |p|
  {
    var pat := p + "%";
    if p[0] == '%' {
      assert pat[1..] == p[1..] + "%";
      if Like(s, pat[1..]) {
        DanglingEnds(s, p[1..]);
      } else {
        DanglingEnds(s[1..], p);
      }
    } else if p[0] == '\\' {
      if |p| == 1 {
        assert pat[2..] == "";
      } else {
        assert pat[2..] == p[2..] + "%";
        DanglingEnds(s[1..], p[2..]);
      }
    } else {
      assert pat[1..] == p[1..] + "%";
      DanglingEnds(s[1..], p[1..]);
    }
  }

  lemma {:induction false} DanglingEndsAnywhere(s: string, p: string)
    requires Dangles(p) && Like(s, "%" + p + "%")
    ensures s != "" && s[|s| - 1] == '%'
  {
    var pat := "%" + p + "%";
    assert pat[1..] == p + "%";
    if Like(s, p + "%") {
      DanglingEnds(s, p);
    } else {
      DanglingEndsAnywhere(s[1..], p);
    }
  }

  // ---------------------------------------------------------------- counting characters

  function Count(s: string, bad: char -> bool, lo: nat, hi: nat): nat
    requires lo <= hi <= |s|
  {
    if lo == hi then 0 else Count(s, bad, lo, hi - 1) + if bad(s[hi - 1]) then 1 else 0
  }

  lemma {:induction false} CountMoves(s: string, t: string, bad: char -> bool, lo: nat, hi: nat, d: nat)
    requires lo <= hi <= |s| && hi + d <= |t| && forall k | lo <= k < hi :: s[k] == t[k + d]
    ensures Count(t, bad, lo + d, hi + d) == Count(s, bad, lo, hi)
  {
    if lo < hi {
      CountMoves(s, t, bad, lo, hi - 1, d);
    }
  }

  lemma {:induction false} CountSplits(s: string, bad: char -> bool, lo: nat, mid: nat, hi: nat)
    requires lo <= mid <= hi <= |s|
    ensures Count(s, bad, lo, hi) == Count(s, bad, lo, mid) + Count(s, bad, mid, hi)
  {
    if mid < hi {
      CountSplits(s, bad, lo, mid, hi - 1);
    }
  }

  lemma {:induction false} CountIsZeroIff(s: string, bad: char -> bool, lo: nat, hi: nat)
    requires lo <= hi <= |s|
    ensures Count(s, bad, lo, hi) == 0 <==> forall k | lo <= k < hi :: !bad(s[k])
  {
    if lo < hi {
      CountIsZeroIff(s, bad, lo, hi - 1);
    }
  }

  /** No window of the given width holds as many as `m` bad characters. */
  predicate Calm(s: string, bad: char -> bool, width: nat, m: nat) {
    forall lo: nat, hi: nat | lo <= hi <= |s| && hi - lo <= width :: Count(s, bad, lo, hi) < m
  }

  lemma FewAreCalm(s: string, bad: char -> bool, width: nat, m: nat)
    requires Count(s, bad, 0, |s|) < m
    ensures Calm(s, bad, width, m)
  {
    forall lo: nat, hi: nat | lo <= hi <= |s| && hi - lo <= width ensures Count(s, bad, lo, hi) < m {
      CountSplits(s, bad, 0, lo, |s|);
      CountSplits(s, bad, lo, hi, |s|);
    }
  }

  function Gap(width: nat): string {
    seq(width, _ => 'a')
  }

  /** A window meets only one of two strings that stand at least its width apart. */
  lemma CalmApart(a: string, b: string, bad: char -> bool, width: nat, m: nat)
    requires Calm(a, bad, width, m) && Calm(b, bad, width, m) && !bad('a')
    ensures Calm(a + Gap(width) + b, bad, width, m)
  {
    var s := a + Gap(width) + b;
    forall lo: nat, hi: nat | lo <= hi <= |s| && hi - lo <= width ensures Count(s, bad, lo, hi) < m {
      WindowIsCalm(a, b, bad, width, m, s, lo, hi);
    }
  }

  lemma WindowIsCalm(a: string, b: string, bad: char -> bool, width: nat, m: nat, s: string, lo: nat, hi: nat)
    requires Calm(a, bad, width, m) && Calm(b, bad, width, m) && !bad('a') && s == a + Gap(width) + b
    requires lo <= hi <= |s| && hi - lo <= width
    ensures Count(s, bad, lo, hi) < m
  {
    if hi <= |a| + width {
      LeftWindow(a, s, bad, lo, hi);
    } else {
      RightWindow(b, s, bad, |a| + width, lo, hi);
    }
  }

  /** Of a window that ends in the gap, only what lies in the string before it counts. */
  lemma LeftWindow(a: string, s: string, bad: char -> bool, lo: nat, hi: nat)
    requires a <= s && lo <= hi <= |s| && forall k | |a| <= k < hi :: !bad(s[k])
    ensures
      var l, h := if lo < |a| then lo else |a|, if hi < |a| then hi else |a|;
      Count(s, bad, lo, hi) == Count(a, bad, l, h)
  {
    var l, h := if lo < |a| then lo else |a|, if hi < |a| then hi else |a|;
    var mid := if lo < |a| then h else lo;
    CountSplits(s, bad, lo, mid, hi);
    CountIsZeroIff(s, bad, mid, hi);
    CountMoves(a, s, bad, l, h, 0);
  }

  /** Of a window that starts in the gap, only what lies in the string behind it counts. */
  lemma RightWindow(b: string, s: string, bad: char -> bool, from: nat, lo: nat, hi: nat)
    requires |s| == from + |b| && (forall k | 0 <= k < |b| :: b[k] == s[k + from])
    requires lo <= hi <= |s| && from <= hi && forall k | lo <= k < from :: !bad(s[k])
    ensures Count(s, bad, lo, hi) == Count(b, bad, (if lo < from then from else lo) - from, hi - from)
  {
    var l := if lo < from then from else lo;
    CountSplits(s, bad, lo, l, hi);
    CountIsZeroIff(s, bad, lo, l);
    CountMoves(b, s, bad, l - from, hi - from, from);
  }

  lemma CalmExcludes(s: string, p: string, bad: char -> bool, width: nat, m: nat)
    requires Calm(s, bad, width, m) && |p| <= width && Count(p, bad, 0, |p|) >= m
    ensures !Substring(p, s)
  {
    if Substring(p, s) {
      var i: nat :| i <= |s| && Prefix(p, s[i..]);
      CountMoves(p, s, bad, 0, |p|, i);
    }
  }

  // ---------------------------------------------------------------- witnesses

  const BACKSLASH: char -> bool := c => c == '\\'
  const META: char -> bool := c => Meta(c)

  lemma CountHead(s: string, bad: char -> bool)
    requires s != ""
    ensures Count(s, bad, 0, |s|) == (if bad(s[0]) then 1 else 0) + Count(s[1..], bad, 0, |s| - 1)
  {
    CountSplits(s, bad, 0, 1, |s|);
    CountMoves(s[1..], s, bad, 0, |s| - 1, 1);
    assert Count(s, bad, 0, 0) == 0;
  }

  function Slashes(s: string): nat {
    Count(s, BACKSLASH, 0, |s|)
  }

  lemma SlashesHead(c: char, s: string)
    ensures Slashes([c] + s) == (if c == '\\' then 1 else 0) + Slashes(s)
  {
    CountHead([c] + s, BACKSLASH);
    assert ([c] + s)[1..] == s;
  }

  /** Resolving an escape takes the backslash away, so the cheapest match has at most half of them. */
  lemma {:induction false} CheapestHalves(p: string)
    requires !Dangles(p)
    ensures 2 * Slashes(Cheapest(p)) <= Slashes(p)
    decreases |p|
  {
    if p != "" {
      assert p == [p[0]] + p[1..];
      SlashesHead(p[0], p[1..]);
      if p[0] == '\\' {
        assert p[1..] == [p[1]] + p[2..];
        SlashesHead(p[1], p[2..]);
        SlashesHead(p[1], Cheapest(p[2..]));
        CheapestHalves(p[2..]);
      } else {
        CheapestHalves(p[1..]);
        SlashesHead(p[0], Cheapest(p[1..]));
        SlashesHead('a', Cheapest(p[1..]));
      }
    }
  }

  lemma {:induction false} CheapestIsPlain(p: string)
    requires forall i | 0 <= i < |p| :: p[i] != '\\'
    ensures Plain(Cheapest(p))
  {
    if p != "" {
      CheapestIsPlain(p[1..]);
    }
  }

  function Witness(lower: char -> char, v: string): string {
    Cheapest(Map(lower, v))
  }

  /** The cheapest matches of all containment operands of a tree, far apart. */
  function NameFor(lower: char -> char, f: Filter, width: nat): string {
    match f
    case Eq(_, _) => ""
    case Contains(attr, v) => if attr == "displayName" then Witness(lower, v) else ""
    case StartsWith(_, _) => ""
    case And(l, r) => NameFor(lower, l, width) + Gap(width) + NameFor(lower, r, width)
  }

  lemma {:induction false} NameForIsCalm(lower: char -> char, f: Filter, width: nat, bad: char -> bool, m: nat)
    requires m > 0 && !bad('a')
    requires forall v | v in LikeOperands(f) :: Count(Witness(lower, v), bad, 0, |Witness(lower, v)|) < m
    ensures Calm(NameFor(lower, f, width), bad, width, m)
  {
    if f.And? {
      NameForIsCalm(lower, f.left, width, bad, m);
      NameForIsCalm(lower, f.right, width, bad, m);
      CalmApart(NameFor(lower, f.left, width), NameFor(lower, f.right, width), bad, width, m);
    } else {
      FewAreCalm(NameFor(lower, f, width), bad, width, m);
    }
  }

  predicate Low(lower: char -> char, s: string) {
    forall i | 0 <= i < |s| :: lower(s[i]) == s[i]
  }

  lemma {:induction false} NameForIsLow(lower: char -> char, f: Filter, width: nat)
    requires Lowering(lower)
    ensures Low(lower, NameFor(lower, f, width))
  {
    if f.And? {
      NameForIsLow(lower, f.left, width);
      NameForIsLow(lower, f.right, width);
    } else if NameFor(lower, f, width) != "" {
      CheapestOfLower(lower, Map(lower, f.value));
    }
  }

  /** A name that has the matches of all operands in it, and that of the prefix operand in front, passes. */
  lemma {:induction false} WitnessMatches(lower: char -> char, f: Filter, name: string, a: string, b: string,
                                          width: nat)
    requires NameOperands(f) == [] && name == a + NameFor(lower, f, width) + b
    requires forall v | v in LikeOperands(f) :: !Dangles(Map(lower, v))
    requires forall v | v in PrefixOperands(f) :: Like(name, Map(lower, v) + "%")
    ensures Matches(lower, f, name)
  {
    match f
    case And(_, _) =>
      var l, r := NameFor(lower, f.left, width), NameFor(lower, f.right, width);
      assert name == a + l + (Gap(width) + r + b) == (a + l + Gap(width)) + r + b;
      WitnessMatches(lower, f.left, name, a, Gap(width) + r + b, width);
      WitnessMatches(lower, f.right, name, a + l + Gap(width), b, width);
    case Contains(attr, v) =>
      if attr == "displayName" {
        ContainsMatches(a, b, Map(lower, v), name);
      }
    case StartsWith(_, v) => assert "" + Map(lower, v) == Map(lower, v);
    case Eq(_, _) =>
  }

  lemma ContainsMatches(a: string, b: string, p: string, name: string)
    requires !Dangles(p) && name == a + Cheapest(p) + b
    ensures Like(name, "%" + p + "%")
  {
    CheapestMatches(p);
    LikeExtends(Cheapest(p), b, p);
    LikeSkips(a, Cheapest(p) + b, p + "%");
    assert a + (Cheapest(p) + b) == name && "%" + (p + "%") == "%" + p + "%";
  }

  lemma {:induction false} LackingIsNotMeant(lower: char -> char, f: Filter, v: string, name: string)
    requires v in LikeOperands(f) && !Substring(Map(lower, v), name)
    ensures !Means(lower, f, name)
  {
    if f.And? {
      if v in LikeOperands(f.left) {
        LackingIsNotMeant(lower, f.left, v, name);
      } else {
        LackingIsNotMeant(lower, f.right, v, name);
      }
    } else {
      assert name[0..] == name;
    }
  }

  // ---------------------------------------------------------------- dangling operands

  /** All operands of a tree's containment tests, literally. */
  function Literally(lower: char -> char, f: Filter): string {
    match f
    case Eq(_, _) => ""
    case Contains(_, v) => Map(lower, v)
    case StartsWith(_, _) => ""
    case And(l, r) => Literally(lower, l) + Literally(lower, r)
  }

  lemma {:induction false} LiterallyIsLow(lower: char -> char, f: Filter)
    requires Lowering(lower)
    ensures Low(lower, Literally(lower, f))
  {
    if f.And? {
      LiterallyIsLow(lower, f.left);
      LiterallyIsLow(lower, f.right);
    }
  }

  lemma {:induction false} LiteralIsMeant(lower: char -> char, f: Filter, name: string, a: string, b: string)
    requires NameOperands(f) == [] && name == a + Literally(lower, f) + b
    requires forall v | v in PrefixOperands(f) :: Prefix(Map(lower, v), name)
    ensures Means(lower, f, name)
  {
    if f.And? {
      var l, r := Literally(lower, f.left), Literally(lower, f.right);
      assert name == a + l + (r + b) == (a + l) + r + b;
      LiteralIsMeant(lower, f.left, name, a, r + b);
      LiteralIsMeant(lower, f.right, name, a + l, b);
    } else if f.Contains? {
      assert name[|a|..] == Map(lower, f.value) + b;
    }
  }

  /** No name that ends otherwise than in a percent sign passes. */
  lemma {:induction false} DanglingDoesNotMatch(lower: char -> char, f: Filter, v: string, name: string)
    requires v in LikeOperands(f) && Dangles(Map(lower, v)) && (name == "" || name[|name| - 1] != '%')
    ensures !Matches(lower, f, name)
  {
    if f.And? {
      if v in LikeOperands(f.left) {
        DanglingDoesNotMatch(lower, f.left, v, name);
      } else {
        DanglingDoesNotMatch(lower, f.right, v, name);
      }
    } else {
      var p := Map(lower, v);
      assert "" + p == p;
      if Like(name, p + "%") {
        DanglingEnds(name, p);
      }
      if Like(name, "%" + p + "%") {
        DanglingEndsAnywhere(name, p);
      }
    }
  }

  predicate Longest(lower: char -> char, f: Filter, u: string) {
    forall v | v in PrefixOperands(f) :: Prefix(Map(lower, v), Map(lower, u))
  }

  lemma {:induction false} LongestOf(lower: char -> char, vs: seq<string>) returns (u: string)
    requires vs != []
    requires forall v, w | v in vs && w in vs ::
      Prefix(Map(lower, v), Map(lower, w)) || Prefix(Map(lower, w), Map(lower, v))
    ensures u in vs && forall v | v in vs :: Prefix(Map(lower, v), Map(lower, u))
  {
    u := vs[|vs| - 1];
    if |vs| > 1 {
      var front := LongestOf(lower, vs[..|vs| - 1]);
      if Prefix(Map(lower, u), Map(lower, front)) {
        u := front;
      }
    }
  }

  lemma DanglingTellsApart(lower: char -> char, f: Filter, v: string, u: string) returns (name: string)
    requires Lowering(lower) && NameOperands(f) == []
    requires v in LikeOperands(f) && Dangles(Map(lower, v)) && Longest(lower, f, u)
    ensures Map(lower, name) == name && Means(lower, f, name) && !Matches(lower, f, name)
  {
    name := Map(lower, u) + Literally(lower, f) + "a";
    LiterallyIsLow(lower, f);
    LiteralIsMeant(lower, f, name, Map(lower, u), "a");
    DanglingDoesNotMatch(lower, f, v, name);
  }

  // ---------------------------------------------------------------- the exact condition

  function Backslashes(lower: char -> char, v: string): nat {
    Count(Map(lower, v), BACKSLASH, 0, |v|)
  }

  lemma {:induction false} MostBackslashes(lower: char -> char, vs: seq<string>) returns (most: string)
    requires vs != []
    ensures most in vs && forall v | v in vs :: Backslashes(lower, v) <= Backslashes(lower, most)
  {
    most := vs[|vs| - 1];
    if |vs| > 1 {
      var front := MostBackslashes(lower, vs[..|vs| - 1]);
      if Backslashes(lower, front) > Backslashes(lower, most) {
        most := front;
      }
    }
  }

  /**
   A bound that all witnesses stay below and some operand does not: backslashes, or else metacharacters of any kind.
   */
  lemma Culprit(lower: char -> char, f: Filter, w: string) returns (v: string, bad: char -> bool, m: nat)
    requires Lowering(lower) && w in LikeOperands(f) && !Plain(w)
    requires forall v | v in LikeOperands(f) :: !Dangles(Map(lower, v))
    ensures v in LikeOperands(f) && m > 0 && !bad('a') && Count(Map(lower, v), bad, 0, |v|) >= m
    ensures forall u | u in LikeOperands(f) :: Count(Witness(lower, u), bad, 0, |Witness(lower, u)|) < m
  {
    v := MostBackslashes(lower, LikeOperands(f));
    bad, m := BACKSLASH, Backslashes(lower, v);
    if m > 0 {
      forall u | u in LikeOperands(f) ensures Count(Witness(lower, u), bad, 0, |Witness(lower, u)|) < m {
        CheapestHalves(Map(lower, u));
      }
    } else {
      v, bad, m := w, META, 1;
      LoweredIsPlain(lower, w);
      CountIsZeroIff(Map(lower, w), META, 0, |w|);
      forall u | u in LikeOperands(f) ensures Count(Witness(lower, u), bad, 0, |Witness(lower, u)|) < m {
        CountIsZeroIff(Map(lower, u), BACKSLASH, 0, |u|);
        CheapestIsPlain(Map(lower, u));
        CountIsZeroIff(Witness(lower, u), META, 0, |Witness(lower, u)|);
      }
    }
  }

  lemma WitnessTellsApart(lower: char -> char, f: Filter, w: string, u: string) returns (name: string)
    requires Lowering(lower) && NameOperands(f) == [] && w in LikeOperands(f) && !Plain(w)
    requires forall v | v in LikeOperands(f) :: !Dangles(Map(lower, v))
    requires (u == "" || u in LikeOperands(f)) && Longest(lower, f, u)
    ensures Map(lower, name) == name && Matches(lower, f, name) && !Means(lower, f, name)
  {
    var v, bad, m := Culprit(lower, f, w);
    var width := |v|;
    name := Witness(lower, u) + Gap(width) + NameFor(lower, f, width);
    NameIsCalm(lower, f, u, width, bad, m);
    NameIsLow(lower, f, u, width);
    CalmExcludes(name, Map(lower, v), bad, width, m);
    LackingIsNotMeant(lower, f, v, name);
    forall p | p in PrefixOperands(f) ensures Like(name, Map(lower, p) + "%") {
      PrefixesAreOperands(f, p);
      PrefixMatches(lower, f, u, p, width);
    }
    assert name == (Witness(lower, u) + Gap(width)) + NameFor(lower, f, width) + "";
    WitnessMatches(lower, f, name, Witness(lower, u) + Gap(width), "", width);
  }

  lemma NameIsCalm(lower: char -> char, f: Filter, u: string, width: nat, bad: char -> bool, m: nat)
    requires m > 0 && !bad('a') && (u == "" || u in LikeOperands(f))
    requires forall v | v in LikeOperands(f) :: Count(Witness(lower, v), bad, 0, |Witness(lower, v)|) < m
    ensures Calm(Witness(lower, u) + Gap(width) + NameFor(lower, f, width), bad, width, m)
  {
    NameForIsCalm(lower, f, width, bad, m);
    FewAreCalm(Witness(lower, u), bad, width, m);
    CalmApart(Witness(lower, u), NameFor(lower, f, width), bad, width, m);
  }

  lemma NameIsLow(lower: char -> char, f: Filter, u: string, width: nat)
    requires Lowering(lower)
    ensures
      var name := Witness(lower, u) + Gap(width) + NameFor(lower, f, width);
      Map(lower, name) == name
  {
    NameForIsLow(lower, f, width);
    CheapestOfLower(lower, Map(lower, u));
  }

  lemma PrefixMatches(lower: char -> char, f: Filter, u: string, v: string, width: nat)
    requires u == "" || !Dangles(Map(lower, u))
    requires !Dangles(Map(lower, v)) && Prefix(Map(lower, v), Map(lower, u))
    ensures Like(Witness(lower, u) + Gap(width) + NameFor(lower, f, width), Map(lower, v) + "%")
  {
    var w, rest := Witness(lower, u), Gap(width) + NameFor(lower, f, width);
    var p, q := Map(lower, v), Map(lower, u)[|v|..];
    CheapestMatches(Map(lower, u));
    LikeExtends(w, rest, Map(lower, u));
    assert w + rest == w + Gap(width) + NameFor(lower, f, width) && Map(lower, u) == p + q;
    LikeDrops(w + rest, p, q);
  }

  /** Of any two prefix operands, one starts with the other. */
  predicate PrefixesAgree(lower: char -> char, f: Filter) {
    forall u, v | u in PrefixOperands(f) && v in PrefixOperands(f) ::
      Prefix(Map(lower, u), Map(lower, v)) || Prefix(Map(lower, v), Map(lower, u))
  }

  /**
   A conjunction of any tests without an equality on the display name, whose prefix tests on it do not exclude one
   another, means what it should on every group if and only if all operands of LIKE are plain or the tests on other
   attributes exclude one another.
   */
  lemma LikeTreeIsFaithfulIff(lower: char -> char, f: Filter)
    requires Lowering(lower) && NameOperands(f) == []
    requires PrefixesAgree(lower, f)
    ensures Faithful(lower, f) <==> (forall v | v in LikeOperands(f) :: Plain(v)) || !Satisfiable(f)
  {
    if forall v | v in LikeOperands(f) :: Plain(v) {
      PlainLikesArePlainOperands(f);
      PlainIsFaithful(lower, f);
    } else {
      FaithfulIff(lower, f);
      var name := MetaTellsApart(lower, f);
      assert Matches(lower, f, Map(lower, name)) != Means(lower, f, Map(lower, name));
    }
  }

  lemma {:induction false} PrefixesAreOperands(f: Filter, u: string)
    requires u in PrefixOperands(f)
    ensures u in LikeOperands(f)
  {
    if f.And? {
      if u in PrefixOperands(f.left) {
        PrefixesAreOperands(f.left, u);
      } else {
        PrefixesAreOperands(f.right, u);
      }
    }
  }

  lemma MetaTellsApart(lower: char -> char, f: Filter) returns (name: string)
    requires Lowering(lower) && NameOperands(f) == []
    requires PrefixesAgree(lower, f)
    requires exists v :: v in LikeOperands(f) && !Plain(v)
    ensures Map(lower, name) == name && Matches(lower, f, name) != Means(lower, f, name)
  {
    var w :| w in LikeOperands(f) && !Plain(w);
    var u := "";
    if PrefixOperands(f) != [] {
      u := LongestOf(lower, PrefixOperands(f));
      PrefixesAreOperands(f, u);
    }
    if v: string :| v in LikeOperands(f) && Dangles(Map(lower, v)) {
      name := DanglingTellsApart(lower, f, v, u);
    } else {
      name := WitnessTellsApart(lower, f, w, u);
    }
  }

  lemma {:induction false} OnlyThatName(lower: char -> char, f: Filter, v: string, name: string)
    requires v in NameOperands(f) && name != Map(lower, v)
    ensures !Matches(lower, f, name) && !Means(lower, f, name)
  {
    if f.And? {
      if v in NameOperands(f.left) {
        OnlyThatName(lower, f.left, v, name);
      } else {
        OnlyThatName(lower, f.right, v, name);
      }
    }
  }

  /** With an equality on the display name, any tree means what it should exactly when it treats that one name right. */
  lemma NamedTreeIsFaithfulIff(lower: char -> char, f: Filter, v: string)
    requires v in NameOperands(f)
    ensures
      var name := Map(lower, v);
      Faithful(lower, f) <==> !Satisfiable(f) || (Matches(lower, f, name) <==> Means(lower, f, name))
  {
    FaithfulIff(lower, f);
    forall s: string | Map(lower, s) != Map(lower, v)
      ensures Matches(lower, f, Map(lower, s)) <==> Means(lower, f, Map(lower, s))
    {
      OnlyThatName(lower, f, v, Map(lower, s));
    }
  }

  lemma {:induction false} MeantHasPrefixes(lower: char -> char, f: Filter, name: string, v: string)
    requires Means(lower, f, name) && v in PrefixOperands(f)
    ensures Prefix(Map(lower, v), name)
  {
    if f.And? {
      if v in PrefixOperands(f.left) {
        MeantHasPrefixes(lower, f.left, name, v);
      } else {
        MeantHasPrefixes(lower, f.right, name, v);
      }
    }
  }

  /** Prefix tests that exclude one another mean nobody, so such a tree has to match nobody. */
  lemma ClashingTreeIsFaithfulIff(lower: char -> char, f: Filter)
    requires !PrefixesAgree(lower, f)
    ensures Faithful(lower, f) <==> !Satisfiable(f) || forall s: string :: !Matches(lower, f, Map(lower, s))
  {
    FaithfulIff(lower, f);
    var u, v :| u in PrefixOperands(f) && v in PrefixOperands(f) &&
      !Prefix(Map(lower, u), Map(lower, v)) && !Prefix(Map(lower, v), Map(lower, u));
    forall s: string ensures !Means(lower, f, Map(lower, s)) {
      if Means(lower, f, Map(lower, s)) {
        MeantHasPrefixes(lower, f, Map(lower, s), u);
        MeantHasPrefixes(lower, f, Map(lower, s), v);
      }
    }
  }
}
