/** Threshold policies: which rule lists are accepted, and what a policy makes of a spend and a limit. */
module BudgetPolicy {
  import opened Wrappers

  datatype Action = Notify | Shape | Block

  datatype Rule = Rule(atPercent: nat, action: Action, shapedRpm: Option<nat>)

  datatype Decision =
    | Allow
    | NotifyAt(threshold: nat)
    | ShapeAt(threshold: nat, rpm: nat)
    | BlockAt(threshold: nat)

  datatype PolicyError =
    | NoRules
    | TooManyRules
    | ZeroPercent
    | NotAscending
    | BlockNotLast
    | ShapeWithoutRpm(index: nat, percent: nat)

  const MAX_RULES: nat := 5
  const DEFAULT_RPM: nat := 5

  // ---------------------------------------------------------------- accepted policies

  /** The first `n` rules are fit: positive ascending percents, nothing behind a block, a rate for every shape. */
  predicate Fit(rules: seq<Rule>, n: nat)
    requires n <= |rules|
  {
    && (forall i | 0 <= i < n :: rules[i].atPercent > 0 && (rules[i].action.Shape? ==> rules[i].shapedRpm.Some?))
    && (forall i, j | 0 <= i < j < n :: rules[i].atPercent <= rules[j].atPercent && !rules[i].action.Block?)
  }

  predicate ValidPolicy(rules: seq<Rule>) {
    1 <= |rules| <= MAX_RULES && Fit(rules, |rules|)
  }

  /** What is wrong with rule `k` behind fit ones; of several faults the first in this order is named. */
  predicate FaultAt(rules: seq<Rule>, k: nat, e: PolicyError)
    requires k < |rules|
  {
    var r := rules[k];
    match e
    case NoRules => false
    case TooManyRules => false
    case ZeroPercent => r.atPercent == 0
    case NotAscending => r.atPercent > 0 && k > 0 && r.atPercent < rules[k - 1].atPercent
    case BlockNotLast => k > 0 && rules[k - 1].atPercent <= r.atPercent && rules[k - 1].action.Block?
    case ShapeWithoutRpm(i, percent) =>
      && r.atPercent > 0 && r.action.Shape? && r.shapedRpm.None? && i == k && percent == r.atPercent
      && (k > 0 ==> rules[k - 1].atPercent <= r.atPercent && !rules[k - 1].action.Block?)
  }

  /** A rule behind fit ones has one fault at most: the first that applies of these, in this order. */
  lemma FaultsInOrder(rules: seq<Rule>, k: nat, e: PolicyError)
    requires k < |rules| && Fit(rules, k)
    ensures
      var r := rules[k];
      FaultAt(rules, k, e) <==>
        if r.atPercent == 0 then e == ZeroPercent
        else if k > 0 && r.atPercent < rules[k - 1].atPercent then e == NotAscending
        else if k > 0 && rules[k - 1].action == Block then e == BlockNotLast
        else r.action == Shape && r.shapedRpm == None && e == ShapeWithoutRpm(k, r.atPercent)
  {}

  method ValidatePolicy(rules: seq<Rule>) returns (r: Result<(), PolicyError>)
    ensures r.Ok? <==> ValidPolicy(rules)
    ensures r == Err(NoRules) <==> |rules| == 0
    ensures r == Err(TooManyRules) <==> |rules| > MAX_RULES
    ensures r.Err? && 1 <= |rules| <= MAX_RULES ==>
      exists k: nat | k < |rules| :: Fit(rules, k) && FaultAt(rules, k, r.error)
  {
    if rules == [] {
      return Err(NoRules);
    }
    if |rules| > MAX_RULES {
      return Err(TooManyRules);
    }
    var prevPercent := 0;
    var hasBlock := false;
    for i := 0 to |rules|
      invariant Fit(rules, i)
      invariant prevPercent == if i == 0 then 0 else rules[i - 1].atPercent
      invariant hasBlock == (i > 0 && rules[i - 1].action.Block?)
    {
      var rule := rules[i];
      if rule.atPercent == 0 {
        assert FaultAt(rules, i, ZeroPercent);
        return Err(ZeroPercent);
      }
      if rule.atPercent < prevPercent {
        assert FaultAt(rules, i, NotAscending);
        return Err(NotAscending);
      }
      if hasBlock {
        assert FaultAt(rules, i, BlockNotLast);
        return Err(BlockNotLast);
      }
      if rule.action.Block? {
        hasBlock := true;
      }
      if rule.action.Shape? && rule.shapedRpm.None? {
        assert FaultAt(rules, i, ShapeWithoutRpm(i, rule.atPercent));
        return Err(ShapeWithoutRpm(i, rule.atPercent));
      }
      prevPercent := rule.atPercent;
    }
    r := Ok(());
  }

  // ---------------------------------------------------------------- evaluation

  function DecisionOf(r: Rule): Decision {
    match r.action
    case Notify => NotifyAt(r.atPercent)
    case Shape => ShapeAt(r.atPercent, r.shapedRpm.GetOr(DEFAULT_RPM))
    case Block => BlockAt(r.atPercent)
  }

  /** A rule is triggered once the spend reaches its percentage of the limit. */
  predicate Triggered(r: Rule, spend: real, limit: real) {
    spend * 100.0 >= r.atPercent as real * limit
  }

  /** The last triggered rule decides. */
  function Decide(rules: seq<Rule>, spend: real, limit: real): Decision {
    if limit <= 0.0 || rules == [] then Allow
    else
      var last := rules[|rules| - 1];
      if Triggered(last, spend, limit) then DecisionOf(last) else Decide(rules[..|rules| - 1], spend, limit)
  }

  lemma PercentOfLimit(spend: real, limit: real, ratio: real, n: real)
    requires limit > 0.0 && ratio == spend / limit
    ensures ratio * 100.0 >= n <==> spend * 100.0 >= n * limit
  {
    assert ratio * limit == spend;
    Scale(ratio * 100.0, n, limit);
    assert ratio * 100.0 * limit == spend * 100.0;
  }

  lemma Scale(a: real, b: real, k: real)
    requires k > 0.0
    ensures a >= b <==> a * k >= b * k
  {
    if a < b {
      assert (b - a) * k > 0.0;
    }
  }

  method Evaluate(rules: seq<Rule>, spend: real, limit: real) returns (decision: Decision)
    ensures decision == Decide(rules, spend, limit)
  {
    if limit <= 0.0 || rules == [] {
      return Allow;
    }
    var percent := (spend / limit) * 100.0;
    decision := Allow;
    for i := 0 to |rules|
      invariant decision == Decide(rules[..i], spend, limit)
    {
      var rule := rules[i];
      PercentOfLimit(spend, limit, spend / limit, rule.atPercent as real);
      assert rules[..i + 1][..i] == rules[..i];
      if percent >= rule.atPercent as real {
        match rule.action {
          case Notify => decision := NotifyAt(rule.atPercent);
          case Shape => decision := ShapeAt(rule.atPercent, rule.shapedRpm.GetOr(DEFAULT_RPM));
          case Block => decision := BlockAt(rule.atPercent);
        }
      }
    }
    assert rules[..|rules|] == rules;
  }

  // ---------------------------------------------------------------- what a decision means

  /** A rule may stand behind the one before it. */
  predicate Follows(rules: seq<Rule>, i: nat) {
    0 < i < |rules| && rules[i - 1].atPercent <= rules[i].atPercent && !rules[i - 1].action.Block?
  }

  /** Rule by rule: at most five, percents from one up that never fall, nothing behind a block, a rate for a shape. */
  lemma AcceptedIff(rules: seq<Rule>)
    ensures
      ValidPolicy(rules) <==>
        && 1 <= |rules| <= 5
        && (forall i | 0 <= i < |rules| ::
              rules[i].atPercent >= 1 && (rules[i].action.Shape? ==> rules[i].shapedRpm.Some?))
        && (forall i: nat | 1 <= i < |rules| :: Follows(rules, i))
  {
    if forall i: nat | 1 <= i < |rules| :: Follows(rules, i) {
      forall i, j | 0 <= i < j < |rules| ensures rules[i].atPercent <= rules[j].atPercent {
        StepsAscend(rules, i, j);
      }
      forall i | 0 <= i < |rules| - 1 ensures !rules[i].action.Block? {
        assert Follows(rules, i + 1);
      }
    } else {
      var i: nat :| 1 <= i < |rules| && !Follows(rules, i);
      var k := i - 1;
      assert rules[k].atPercent > rules[i].atPercent || rules[k].action.Block?;
    }
  }

  lemma {:induction false} StepsAscend(rules: seq<Rule>, i: nat, j: nat)
    requires i <= j < |rules| && forall k: nat | 1 <= k < |rules| :: Follows(rules, k)
    ensures rules[i].atPercent <= rules[j].atPercent
  {
    if i < j {
      StepsAscend(rules, i, j - 1);
      assert Follows(rules, j);
    }
  }

  /** What a rule decides, action by action. */
  predicate Says(d: Decision, r: Rule) {
    && (r.action == Notify ==> d == NotifyAt(r.atPercent))
    && (r.action == Block ==> d == BlockAt(r.atPercent))
    && (r.action == Shape && r.shapedRpm.Some? ==> d == ShapeAt(r.atPercent, r.shapedRpm.value))
    && (r.action == Shape && r.shapedRpm.None? ==> d == ShapeAt(r.atPercent, 5))
  }

  /** A rule is triggered exactly when the spend, in percent of the limit, reaches the rule's. */
  lemma TriggeredIffPercentReached(r: Rule, spend: real, limit: real)
    requires limit > 0.0
    ensures Triggered(r, spend, limit) <==> (spend / limit) * 100.0 >= r.atPercent as real
  {
    PercentOfLimit(spend, limit, spend / limit, r.atPercent as real);
  }

  predicate LastTriggered(rules: seq<Rule>, spend: real, limit: real, k: nat) {
    && k < |rules| && Triggered(rules[k], spend, limit)
    && forall i | k < i < |rules| :: !Triggered(rules[i], spend, limit)
  }

  /** Any rules at all: under a positive limit the last triggered one decides, by its own action; else all is well. */
  lemma {:induction false} DecideMeans(rules: seq<Rule>, spend: real, limit: real)
    ensures limit <= 0.0 ==> Decide(rules, spend, limit) == Allow
    ensures
      (forall i | 0 <= i < |rules| :: !Triggered(rules[i], spend, limit)) ==> Decide(rules, spend, limit) == Allow
    ensures
      limit > 0.0 ==>
      forall k: nat | LastTriggered(rules, spend, limit, k) :: Says(Decide(rules, spend, limit), rules[k])
  {
    if limit > 0.0 && rules != [] && !Triggered(rules[|rules| - 1], spend, limit) {
      var front := rules[..|rules| - 1];
      DecideMeans(front, spend, limit);
      assert forall i | 0 <= i < |front| :: front[i] == rules[i];
      assert forall k: nat | LastTriggered(rules, spend, limit, k) :: LastTriggered(front, spend, limit, k);
    }
  }

  /** The first `n` rules are triggered and no other is. */
  predicate TriggeredPrefix(rules: seq<Rule>, spend: real, limit: real, n: nat) {
    n <= |rules| && forall i | 0 <= i < |rules| :: Triggered(rules[i], spend, limit) <==> i < n
  }

  lemma TriggerOrder(a: Rule, b: Rule, spend: real, limit: real)
    requires limit > 0.0 && a.atPercent <= b.atPercent && Triggered(b, spend, limit)
    ensures Triggered(a, spend, limit)
  {
    Scale(b.atPercent as real, a.atPercent as real, limit);
  }

  /** Under an accepted policy the triggered rules are a prefix, and the last of them decides. */
  lemma {:induction false} TriggeredRulesFormAPrefix(rules: seq<Rule>, spend: real, limit: real) returns (n: nat)
    requires Fit(rules, |rules|) && limit > 0.0
    ensures TriggeredPrefix(rules, spend, limit, n)
    ensures Decide(rules, spend, limit) == if n == 0 then Allow else DecisionOf(rules[n - 1])
  {
    n := |rules|;
    if rules != [] {
      var front, last := rules[..|rules| - 1], rules[|rules| - 1];
      if Triggered(last, spend, limit) {
        forall i | 0 <= i < |rules| ensures Triggered(rules[i], spend, limit) {
          TriggerOrder(rules[i], last, spend, limit);
        }
      } else {
        n := TriggeredRulesFormAPrefix(front, spend, limit);
      }
    }
  }

  /** Spending is refused exactly when there is a block rule and its percentage of the limit is reached. */
  lemma {:induction false} BlocksIffBlockRuleReached(rules: seq<Rule>, spend: real, limit: real)
    requires ValidPolicy(rules) && limit > 0.0
    ensures
      Decide(rules, spend, limit).BlockAt?
      <==> exists i | 0 <= i < |rules| :: rules[i].action.Block? && spend * 100.0 >= rules[i].atPercent as real * limit
  {
    var n := TriggeredRulesFormAPrefix(rules, spend, limit);
    if i :| 0 <= i < |rules| && rules[i].action.Block? && Triggered(rules[i], spend, limit) {
      assert i == |rules| - 1;
    }
  }

  /** No rule is needed to be accepted for this: a decision names a rule that is triggered, with its own parameters. */
  lemma {:induction false} DecisionIsATriggeredRule(rules: seq<Rule>, spend: real, limit: real)
    ensures
      var d := Decide(rules, spend, limit);
      d != Allow ==>
        && limit > 0.0
        && exists i | 0 <= i < |rules| :: d == DecisionOf(rules[i]) && Triggered(rules[i], spend, limit)
  {
    if limit > 0.0 && rules != [] && !Triggered(rules[|rules| - 1], spend, limit) {
      var front := rules[..|rules| - 1];
      DecisionIsATriggeredRule(front, spend, limit);
      if Decide(front, spend, limit) != Allow {
        var i :| 0 <= i < |front| && Decide(rules, spend, limit) == DecisionOf(front[i])
            && Triggered(front[i], spend, limit);
        assert rules[i] == front[i];
      }
    }
  }

  /** A refusal stands however much more is spent. */
  lemma BlockedStaysBlocked(rules: seq<Rule>, spend: real, more: real, limit: real)
    requires ValidPolicy(rules) && spend <= more && Decide(rules, spend, limit).BlockAt?
    ensures Decide(rules, more, limit) == Decide(rules, spend, limit)
  {
    var n := TriggeredRulesFormAPrefix(rules, spend, limit);
    var m := TriggeredRulesFormAPrefix(rules, more, limit);
    assert n == |rules|;
    assert Triggered(rules[n - 1], more, limit);
  }

  // ---------------------------------------------------------------- the most restrictive triggered action

  function Severity(d: Decision): nat {
    match d
    case Allow => 0
    case NotifyAt(_) => 1
    case ShapeAt(_, _) => 2
    case BlockAt(_) => 3
  }

  lemma ActionsBySeverity(n: nat, rpm: nat, m: nat, k: nat)
    ensures Severity(Allow) < Severity(NotifyAt(n)) < Severity(ShapeAt(m, rpm)) < Severity(BlockAt(k))
  {}

  function RuleSeverity(r: Rule): nat {
    Severity(DecisionOf(r))
  }

  /** No triggered rule is more severe than the decision. */
  predicate MostRestrictive(rules: seq<Rule>, spend: real, limit: real) {
    forall i | 0 <= i < |rules| && Triggered(rules[i], spend, limit) ::
      RuleSeverity(rules[i]) <= Severity(Decide(rules, spend, limit))
  }

  predicate LastOfItsPercent(rules: seq<Rule>, j: nat) {
    j < |rules| && (j + 1 < |rules| ==> rules[j].atPercent < rules[j + 1].atPercent)
  }

  /** Every rule that ends a run of equal percents is at least as severe as all the rules before it. */
  ghost predicate SeverityAscends(rules: seq<Rule>) {
    forall i, j | 0 <= i < j && LastOfItsPercent(rules, j) :: RuleSeverity(rules[i]) <= RuleSeverity(rules[j])
  }

  lemma AscendingIsMostRestrictive(rules: seq<Rule>, spend: real, limit: real)
    requires ValidPolicy(rules) && limit > 0.0 && SeverityAscends(rules)
    ensures MostRestrictive(rules, spend, limit)
  {
    var n := TriggeredRulesFormAPrefix(rules, spend, limit);
    if n > 0 {
      if n < |rules| && rules[n - 1].atPercent == rules[n].atPercent {
        TriggerOrder(rules[n], rules[n - 1], spend, limit);
        assert false;
      }
      assert LastOfItsPercent(rules, n - 1);
    }
  }

  lemma MostRestrictiveAscends(rules: seq<Rule>, i: nat, j: nat)
    requires ValidPolicy(rules) && i < j && LastOfItsPercent(rules, j)
    requires MostRestrictive(rules, rules[j].atPercent as real, 100.0)
    ensures RuleSeverity(rules[i]) <= RuleSeverity(rules[j])
  {
    var spend := rules[j].atPercent as real;
    var n := TriggeredRulesFormAPrefix(rules, spend, 100.0);
    assert Triggered(rules[j], spend, 100.0);
    assert Triggered(rules[i], spend, 100.0);
    if j + 1 < |rules| {
      assert !Triggered(rules[j + 1], spend, 100.0);
    }
    assert n == j + 1;
  }

  /** The decision is the most restrictive triggered action at every spend and limit exactly when severities ascend. */
  lemma MostRestrictiveIffSeverityAscends(rules: seq<Rule>)
    requires ValidPolicy(rules)
    ensures SeverityAscends(rules) <==>
      forall spend: real, limit: real | limit > 0.0 :: MostRestrictive(rules, spend, limit)
  {
    if SeverityAscends(rules) {
      forall spend: real, limit: real | limit > 0.0 ensures MostRestrictive(rules, spend, limit) {
        AscendingIsMostRestrictive(rules, spend, limit);
      }
    }
    if forall spend: real, limit: real | limit > 0.0 :: MostRestrictive(rules, spend, limit) {
      forall i, j: nat | 0 <= i < j && LastOfItsPercent(rules, j)
        ensures RuleSeverity(rules[i]) <= RuleSeverity(rules[j])
      {
        assert MostRestrictive(rules, rules[j].atPercent as real, 100.0);
        MostRestrictiveAscends(rules, i, j);
      }
    }
  }

  /** An accepted policy whose decision is not the most restrictive one: shape at 80 %, notify at 100 %. */
  lemma NotifyCanOverrideShape()
    ensures
      var rules := [Rule(80, Shape, Some(5)), Rule(100, Notify, None)];
      ValidPolicy(rules) && Decide(rules, 100.0, 100.0) == NotifyAt(100) && !MostRestrictive(rules, 100.0, 100.0)
  {
    var rules := [Rule(80, Shape, Some(5)), Rule(100, Notify, None)];
    assert Triggered(rules[0], 100.0, 100.0) && RuleSeverity(rules[0]) == 2;
    assert Triggered(rules[1], 100.0, 100.0);
  }

  /** Among the rules that end a run of equal percents, severities ascend. */
  ghost predicate EndsAscend(rules: seq<Rule>) {
    forall i: nat, j: nat | i < j && LastOfItsPercent(rules, i) && LastOfItsPercent(rules, j) ::
      RuleSeverity(rules[i]) <= RuleSeverity(rules[j])
  }

  predicate NeverLoosens(rules: seq<Rule>, spend: real, more: real, limit: real) {
    Severity(Decide(rules, spend, limit)) <= Severity(Decide(rules, more, limit))
  }

  /** The rule that decides is the last of its percent. */
  lemma DecidingRuleEndsARun(rules: seq<Rule>, spend: real, limit: real) returns (n: nat)
    requires ValidPolicy(rules) && limit > 0.0
    ensures TriggeredPrefix(rules, spend, limit, n) && (n > 0 ==> LastOfItsPercent(rules, n - 1))
    ensures Decide(rules, spend, limit) == if n == 0 then Allow else DecisionOf(rules[n - 1])
  {
    n := TriggeredRulesFormAPrefix(rules, spend, limit);
    if 0 < n < |rules| && rules[n - 1].atPercent == rules[n].atPercent {
      TriggerOrder(rules[n], rules[n - 1], spend, limit);
      assert false;
    }
  }

  lemma MoreSpendTriggersMore(rules: seq<Rule>, spend: real, more: real, limit: real, n: nat, m: nat)
    requires spend <= more && TriggeredPrefix(rules, spend, limit, n) && TriggeredPrefix(rules, more, limit, m)
    ensures n <= m
  {
    if n > 0 {
      assert Triggered(rules[n - 1], spend, limit);
      assert Triggered(rules[n - 1], more, limit);
    }
  }

  /** When those severities ascend, as they do if all do, spending more never loosens the decision. */
  lemma DecisionIsMonotone(rules: seq<Rule>, spend: real, more: real, limit: real)
    requires ValidPolicy(rules) && EndsAscend(rules) && limit > 0.0 && spend <= more
    ensures NeverLoosens(rules, spend, more, limit)
  {
    var n := DecidingRuleEndsARun(rules, spend, limit);
    var m := DecidingRuleEndsARun(rules, more, limit);
    MoreSpendTriggersMore(rules, spend, more, limit, n, m);
  }

  /** At a spend of a run's percentage, the rule that ends it decides. */
  lemma EndDecidesAtItsPercent(rules: seq<Rule>, j: nat)
    requires ValidPolicy(rules) && LastOfItsPercent(rules, j)
    ensures Decide(rules, rules[j].atPercent as real, 100.0) == DecisionOf(rules[j])
  {
    var spend := rules[j].atPercent as real;
    var n := TriggeredRulesFormAPrefix(rules, spend, 100.0);
    assert Triggered(rules[j], spend, 100.0);
    if j + 1 < |rules| {
      assert !Triggered(rules[j + 1], spend, 100.0);
    }
    assert n == j + 1;
  }

  /** Spending more never loosens the decision, at any limit, exactly when the severities of run-ending rules ascend. */
  lemma MonotoneIffEndsAscend(rules: seq<Rule>)
    requires ValidPolicy(rules)
    ensures
      EndsAscend(rules) <==>
      forall spend: real, more: real, limit: real | limit > 0.0 && spend <= more ::
        NeverLoosens(rules, spend, more, limit)
  {
    if EndsAscend(rules) {
      forall spend: real, more: real, limit: real | limit > 0.0 && spend <= more
        ensures NeverLoosens(rules, spend, more, limit)
      {
        DecisionIsMonotone(rules, spend, more, limit);
      }
    }
    if forall spend: real, more: real, limit: real | limit > 0.0 && spend <= more ::
        NeverLoosens(rules, spend, more, limit)
    {
      forall i: nat, j: nat | i < j && LastOfItsPercent(rules, i) && LastOfItsPercent(rules, j)
        ensures RuleSeverity(rules[i]) <= RuleSeverity(rules[j])
      {
        EndDecidesAtItsPercent(rules, i);
        EndDecidesAtItsPercent(rules, j);
        assert NeverLoosens(rules, rules[i].atPercent as real, rules[j].atPercent as real, 100.0);
      }
    }
  }

  lemma AscendingNeverLoosens(rules: seq<Rule>, spend: real, more: real, limit: real)
    requires ValidPolicy(rules) && SeverityAscends(rules) && limit > 0.0 && spend <= more
    ensures NeverLoosens(rules, spend, more, limit)
  {
    assert EndsAscend(rules);
    DecisionIsMonotone(rules, spend, more, limit);
  }

  // ---------------------------------------------------------------- presets and combination

  const STANDARD: seq<Rule> := [Rule(80, Notify, None), Rule(100, Block, None)]
  const SOFT: seq<Rule> := [Rule(80, Notify, None), Rule(100, Notify, None), Rule(150, Block, None)]
  const SHAPED: seq<Rule> := [Rule(80, Notify, None), Rule(100, Shape, Some(5)), Rule(150, Block, None)]

  /** What the presets decide, spelled out. */
  lemma PresetsDecide(spend: real, limit: real)
    requires limit > 0.0
    ensures
      Decide(STANDARD, spend, limit) ==
        if spend >= limit then BlockAt(100) else if spend * 100.0 >= 80.0 * limit then NotifyAt(80) else Allow
    ensures
      Decide(SOFT, spend, limit) ==
        if spend * 100.0 >= 150.0 * limit then BlockAt(150)
        else if spend >= limit then NotifyAt(100)
        else if spend * 100.0 >= 80.0 * limit then NotifyAt(80)
        else Allow
    ensures
      Decide(SHAPED, spend, limit) ==
        if spend * 100.0 >= 150.0 * limit then BlockAt(150)
        else if spend >= limit then ShapeAt(100, 5)
        else if spend * 100.0 >= 80.0 * limit then NotifyAt(80)
        else Allow
  {
    DecideTwo(STANDARD, spend, limit);
    DecideThree(SOFT, spend, limit);
    DecideThree(SHAPED, spend, limit);
  }

  lemma DecideTwo(rules: seq<Rule>, spend: real, limit: real)
    requires |rules| == 2 && limit > 0.0
    ensures
      Decide(rules, spend, limit) ==
        if Triggered(rules[1], spend, limit) then DecisionOf(rules[1])
        else if Triggered(rules[0], spend, limit) then DecisionOf(rules[0])
        else Allow
  {
    var front := rules[..1];
    assert front[..0] == [];
    assert Decide(front, spend, limit) == if Triggered(rules[0], spend, limit) then DecisionOf(rules[0]) else Allow;
  }

  lemma DecideThree(rules: seq<Rule>, spend: real, limit: real)
    requires |rules| == 3 && limit > 0.0
    ensures
      Decide(rules, spend, limit) ==
        if Triggered(rules[2], spend, limit) then DecisionOf(rules[2])
        else if Triggered(rules[1], spend, limit) then DecisionOf(rules[1])
        else if Triggered(rules[0], spend, limit) then DecisionOf(rules[0])
        else Allow
  {
    DecideTwo(rules[..2], spend, limit);
  }

  lemma PresetsAreAccepted()
    ensures ValidPolicy(STANDARD) && ValidPolicy(SOFT) && ValidPolicy(SHAPED)
  {}

  lemma PresetsAscend()
    ensures SeverityAscends(STANDARD) && SeverityAscends(SOFT) && SeverityAscends(SHAPED)
  {}

  /** So every preset decides for the most restrictive triggered action. */
  lemma PresetsAreMostRestrictive(preset: seq<Rule>, spend: real, limit: real)
    requires preset == STANDARD || preset == SOFT || preset == SHAPED
    requires limit > 0.0
    ensures MostRestrictive(preset, spend, limit)
  {
    PresetsAreAccepted();
    PresetsAscend();
    AscendingIsMostRestrictive(preset, spend, limit);
  }

  /** And none of them ever loosens with more spending. */
  lemma PresetsNeverLoosen(preset: seq<Rule>, spend: real, more: real, limit: real)
    requires preset == STANDARD || preset == SOFT || preset == SHAPED
    requires limit > 0.0 && spend <= more
    ensures NeverLoosens(preset, spend, more, limit)
  {
    PresetsAreAccepted();
    PresetsAscend();
    AscendingNeverLoosens(preset, spend, more, limit);
  }

  /** The more severe of two decisions, the first on a tie. */
  function Combine(a: Decision, b: Decision): (d: Decision)
    ensures d == a || d == b
    ensures Severity(d) >= Severity(a) && Severity(d) >= Severity(b)
    ensures Severity(a) == Severity(b) ==> d == a
  {
    if Severity(b) > Severity(a) then b else a
  }
}
