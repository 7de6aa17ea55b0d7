/** SQL's three-valued logic and the LIKE operator, as far as the gateway's generated clauses use them. */
module Sql {
  import opened Wrappers

  datatype Truth = True | False | Unknown

  function And(a: Truth, b: Truth): Truth {
    if a == False || b == False then False else if a == True && b == True then True else Unknown
  }

  function Or(a: Truth, b: Truth): Truth {
    if a == True || b == True then True else if a == False && b == False then False else Unknown
  }

  function FromBool(b: bool): Truth {
    if b then True else False
  }

  /** A comparison with NULL is unknown. */
  function Equals(a: Option<string>, b: Option<string>): Truth {
    if a.None? || b.None? then Unknown else FromBool(a.value == b.value)
  }

  /** `a IN (v0, v1, ...)` is the disjunction of the comparisons. */
  function In(a: Option<string>, values: seq<Option<string>>): Truth {
    if values == [] then False else Or(Equals(a, values[0]), In(a, values[1..]))
  }

  lemma {:induction false} InSelects(a: Option<string>, values: seq<string>)
    ensures In(a, seq(|values|, i requires 0 <= i < |values| => Some(values[i]))) == True <==>
      a.Some? && a.value in values
    decreases |values|
  {
    var wrapped := seq(|values|, i requires 0 <= i < |values| => Some(values[i]));
    if values != [] {
      InSelects(a, values[1..]);
      assert wrapped[1..] == seq(|values[1..]|, i requires 0 <= i < |values[1..]| => Some(values[1..][i]));
    }
  }

  /** `s LIKE pattern`: `%` stands for any string, `_` for any character, and a backslash for the character after it. */
  predicate Like(s: string, pattern: string)
    decreases |s| + |pattern|
  {
    if pattern == "" then s == ""
    else if pattern[0] == '%' then Like(s, pattern[1..]) || (s != "" && Like(s[1..], pattern))
    else if pattern[0] == '_' then s != "" && Like(s[1..], pattern[1..])
    else if pattern[0] == '\\' then |pattern| > 1 && s != "" && s[0] == pattern[1] && Like(s[1..], pattern[2..])
    else s != "" && s[0] == pattern[0] && Like(s[1..], pattern[1..])
  }

  predicate Meta(c: char) {
    c == '%' || c == '_' || c == '\\'
  }

  predicate Plain(s: string) {
    forall i | 0 <= i < |s| :: !Meta(s[i])
  }

  predicate Prefix(p: string, s: string) {
    p <= s
  }

  predicate Substring(p: string, s: string) {
    exists i :: 0 <= i <= |s| && Prefix(p, s[i..])
  }

  lemma {:induction false} LikeAnything(s: string)
    ensures Like(s, "%")
  {
    if s != "" {
      LikeAnything(s[1..]);
    }
  }

  lemma {:induction false} LikePlainPrefix(s: string, p: string)
    requires Plain(p)
    ensures Like(s, p + "%") <==> Prefix(p, s)
  {
    if p == "" {
      LikeAnything(s);
      assert p + "%" == "%";
    } else {
      assert (p + "%")[1..] == p[1..] + "%" && !Meta(p[0]);
      if s != "" {
        LikePlainPrefix(s[1..], p[1..]);
        assert Prefix(p, s) <==> p[0] == s[0] && Prefix(p[1..], s[1..]);
      }
    }
  }

  lemma {:induction false} LikePlainSubstring(s: string, p: string)
    requires Plain(p)
    ensures Like(s, "%" + p + "%") <==> Substring(p, s)
  {
    assert ("%" + p + "%")[1..] == p + "%";
    LikePlainPrefix(s, p);
    if s == "" {
      assert s[0..] == s;
    } else {
      LikePlainSubstring(s[1..], p);
      if Substring(p, s[1..]) {
        var i :| 0 <= i <= |s[1..]| && Prefix(p, s[1..][i..]);
        assert s[1..][i..] == s[i + 1..];
      }
      if Substring(p, s) {
        var i :| 0 <= i <= |s| && Prefix(p, s[i..]);
        assert i > 0 ==> s[1..][i - 1..] == s[i..];
        assert i == 0 ==> s[i..] == s;
      }
      assert s[0..] == s;
    }
  }

  /** The shortest string that the pattern `p + "%"` matches: wildcards resolved as cheaply as possible. */
  function Cheapest(p: string): string {
    if p == "" then ""
    else if p[0] == '%' then Cheapest(p[1..])
    else if p[0] == '_' then "a" + Cheapest(p[1..])
    else if p[0] == '\\' then (if |p| == 1 then "%" else [p[1]] + Cheapest(p[2..]))
    else [p[0]] + Cheapest(p[1..])
  }

  lemma {:induction false} CheapestMatches(p: string)
    ensures Like(Cheapest(p), p + "%")
    decreases |p|
  {
    var w, pat := Cheapest(p), p + "%";
    if p == "" {
    } else if p[0] == '%' || p[0] == '_' || p[0] != '\\' {
      CheapestMatches(p[1..]);
      assert pat[1..] == p[1..] + "%";
      if p[0] != '%' {
        assert w[1..] == Cheapest(p[1..]);
      }
    } else if |p| == 1 {
      assert pat[2..] == "" && w[1..] == "";
    } else {
      CheapestMatches(p[2..]);
      assert pat[2..] == p[2..] + "%" && w[1..] == Cheapest(p[2..]);
    }
  }

  lemma {:induction false} CheapestDiffers(p: string)
    ensures |Cheapest(p)| <= |p|
    ensures !Plain(p) ==> Cheapest(p) != p
    decreases |p|
  {
    if p != "" {
      if p[0] == '\\' && |p| > 1 {
        CheapestDiffers(p[2..]);
      } else {
        CheapestDiffers(p[1..]);
        if !Plain(p) && !Meta(p[0]) {
          var i :| 0 <= i < |p| && Meta(p[i]);
          assert Meta(p[1..][i - 1]);
          assert Cheapest(p)[1..] == Cheapest(p[1..]);
        }
      }
    }
  }

  /** For an operand with a metacharacter, LIKE accepts a string that does not even contain the operand. */
  lemma MetaOperandMisleadsLike(p: string)
    requires !Plain(p)
    ensures Like(Cheapest(p), p + "%") && Like(Cheapest(p), "%" + p + "%")
    ensures !Substring(p, Cheapest(p)) && !Prefix(p, Cheapest(p))
  {
    CheapestMatches(p);
    CheapestDiffers(p);
    assert ("%" + p + "%")[1..] == p + "%";
  }
}
