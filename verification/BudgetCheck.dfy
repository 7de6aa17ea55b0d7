/** The budget check in front of a request: the user's and the team's policies, combined into one verdict. */
module BudgetCheck {
  import opened Wrappers
  import opened BudgetPolicy
  import Calendar

  datatype User = User(limit: Option<real>, period: Calendar.Period, teamId: Option<nat>)

  /** A team; `policy` is what its stored rules parse to, if anything. */
  datatype Team = Team(id: nat, amount: Option<real>, period: Calendar.Period, policy: Option<seq<Rule>>,
                       defaultUserBudget: Option<real>)

  datatype DefaultBudget = DefaultBudget(amount: real, period: Calendar.Period, policy: Option<seq<Rule>>)

  /** What the database answers; `None` stands for no row and for a failed query alike. */
  datatype Database = Database(
    users: string -> Option<User>,
    teams: nat -> Option<Team>,
    globalDefault: Option<DefaultBudget>,
    userSpend: (string, Calendar.Period) -> Option<real>,
    teamSpend: (nat, Calendar.Period) -> Option<real>)

  /** Whether a cached entry is still unexpired at each of the three moments the check reads the cache. */
  datatype Unexpired = Unexpired(user: bool, team: bool, teamAgain: bool)

  class SpendCache {
    var users: map<string, real>
    var teams: map<nat, real>

    constructor ()
      ensures users == map[] && teams == map[]
    {
      users, teams := map[], map[];
    }

    function UserSpend(identity: string, live: bool): (r: Option<real>)
      reads this
      ensures r.Some? <==> live && identity in users
      ensures r.Some? ==> r.value == users[identity]
    {
      if live && identity in users then Some(users[identity]) else None
    }

    function TeamSpend(id: nat, live: bool): (r: Option<real>)
      reads this
      ensures r.Some? <==> live && id in teams
      ensures r.Some? ==> r.value == teams[id]
    {
      if live && id in teams then Some(teams[id]) else None
    }
  }

  // ---------------------------------------------------------------- the two parties

  /** One side of the check: a limit, if there is one, the spend against it, and the policy that judges it. */
  datatype Party = Party(limit: Option<real>, spend: real, period: Calendar.Period, policy: seq<Rule>) {
    function Decision(): Decision {
      if limit.Some? then Decide(policy, spend, limit.value) else Allow
    }

    predicate Blocks() {
      Decision().BlockAt?
    }
  }

  function TeamOf(db: Database, user: User): Option<Team> {
    if user.teamId.Some? then db.teams(user.teamId.value) else None
  }

  /** The global default is a last resort: it counts only for users with neither a limit nor a team. */
  function DefaultFor(db: Database, user: User): Option<DefaultBudget> {
    if user.limit.None? && TeamOf(db, user).None? then db.globalDefault else None
  }

  function UserLimit(db: Database, user: User): (Option<real>, Calendar.Period) {
    var team, global := TeamOf(db, user), DefaultFor(db, user);
    if user.limit.Some? then (user.limit, user.period)
    else if team.Some? then (team.value.defaultUserBudget, team.value.period)
    else if global.Some? then (Some(global.value.amount), global.value.period)
    else (None, user.period)
  }

  function UserParty(db: Database, user: User, identity: string, cached: Option<real>): Party {
    var (limit, period) := UserLimit(db, user);
    var team, global := TeamOf(db, user), DefaultFor(db, user);
    Party(limit,
          if limit.None? then 0.0 else cached.GetOr(db.userSpend(identity, period).GetOr(0.0)),
          period,
          if team.Some? && team.value.policy.Some? then team.value.policy.value
          else if global.Some? then global.value.policy.GetOr(STANDARD)
          else STANDARD)
  }

  /** A party nothing is known to limit. */
  const NOBODY: Party := Party(None, 0.0, Calendar.Monthly, STANDARD)

  function PartyOfTeam(db: Database, t: Team, cached: Option<real>): Party {
    Party(t.amount, cached.GetOr(db.teamSpend(t.id, t.period).GetOr(0.0)), t.period, t.policy.GetOr(STANDARD))
  }

  function TeamParty(db: Database, team: Option<Team>, cached: Option<real>): Party {
    if team.None? || team.value.amount.None? then NOBODY else PartyOfTeam(db, team.value, cached)
  }

  // ---------------------------------------------------------------- where a party's numbers come from

  /** The user's limit and its period: their own, else the team's default, else, with neither, the global default. */
  lemma UserLimitMeans(db: Database, user: User, identity: string, cached: Option<real>)
    ensures
      var p, grouped := UserParty(db, user, identity, cached), user.teamId.Some? && db.teams(user.teamId.value).Some?;
      && (user.limit.Some? ==> p.limit == user.limit && p.period == user.period)
      && (user.limit.None? && grouped ==>
            var team := db.teams(user.teamId.value).value;
            p.limit == team.defaultUserBudget && p.period == team.period)
      && (user.limit.None? && !grouped && db.globalDefault.Some? ==>
            p.limit == Some(db.globalDefault.value.amount) && p.period == db.globalDefault.value.period)
      && (user.limit.None? && !grouped && db.globalDefault.None? ==> p.limit == None && p.period == user.period)
  {}

  /** The spend against it: what the cache holds, else what the database sums up for that period, else nothing. */
  lemma UserSpendMeans(db: Database, user: User, identity: string, cached: Option<real>)
    ensures
      var p := UserParty(db, user, identity, cached);
      && (p.limit.None? ==> p.spend == 0.0)
      && (p.limit.Some? && cached.Some? ==> p.spend == cached.value)
      && (p.limit.Some? && cached.None? && db.userSpend(identity, p.period).Some? ==>
            p.spend == db.userSpend(identity, p.period).value)
      && (p.limit.Some? && cached.None? && db.userSpend(identity, p.period).None? ==> p.spend == 0.0)
  {}

  /** The policy: the team's own, else that of the global default if that counts, else notify at 80 and block at 100. */
  lemma UserPolicyMeans(db: Database, user: User, identity: string, cached: Option<real>)
    ensures
      var p, grouped := UserParty(db, user, identity, cached), user.teamId.Some? && db.teams(user.teamId.value).Some?;
      && (grouped && db.teams(user.teamId.value).value.policy.Some? ==>
            p.policy == db.teams(user.teamId.value).value.policy.value)
      && (user.limit.None? && !grouped && db.globalDefault.Some? && db.globalDefault.value.policy.Some? ==>
            p.policy == db.globalDefault.value.policy.value)
      && (grouped && db.teams(user.teamId.value).value.policy.None? ==> p.policy == STANDARD)
      && (!grouped && (user.limit.Some? || db.globalDefault.None? || db.globalDefault.value.policy.None?) ==>
            p.policy == STANDARD)
  {}

  /** The team's side: its budget, spend and period, or nothing at all when it has no budget. */
  lemma TeamPartyMeans(db: Database, team: Option<Team>, cached: Option<real>)
    ensures
      var p := TeamParty(db, team, cached);
      && (team.None? || team.value.amount.None? ==> p.limit == None && p.Decision() == Allow)
      && (team.Some? && team.value.amount.Some? ==>
            var t := team.value;
            && p.limit == t.amount && p.period == t.period
            && (cached.Some? ==> p.spend == cached.value)
            && (cached.None? && db.teamSpend(t.id, t.period).Some? ==> p.spend == db.teamSpend(t.id, t.period).value)
            && (cached.None? && db.teamSpend(t.id, t.period).None? ==> p.spend == 0.0)
            && (t.policy.Some? ==> p.policy == t.policy.value) && (t.policy.None? ==> p.policy == STANDARD))
  {}

  // ---------------------------------------------------------------- the check

  datatype StatusKind = WithinBudget | Warning | Shaped(rpm: nat)

  datatype Outcome =
    | NoBudget
    | Refused(threshold: nat, spend: real, limit: real, period: Calendar.Period)
    | Status(kind: StatusKind, percent: real, remaining: real, period: Calendar.Period)

  /** An event row as recorded by the check; `user` is `None` for a team event. */
  datatype Event = Event(user: Option<string>, team: Option<nat>, decision: Decision, spend: real, limit: real,
                         percent: real, period: Calendar.Period)

  function EventsOf(p: Party, user: Option<string>, team: Option<nat>): seq<Event> {
    if p.Decision() == Allow || p.limit.None? || p.limit.value == 0.0 then []
    else [Event(user, team, p.Decision(), p.spend, p.limit.value, (p.spend / p.limit.value) * 100.0, p.period)]
  }

  /** What is recorded of a party: one event exactly if its policy does more than allow, with its own numbers. */
  lemma EventsMean(p: Party, user: Option<string>, team: Option<nat>)
    ensures |EventsOf(p, user, team)| == if p.Decision() == Allow then 0 else 1
    ensures
      p.Decision() != Allow ==>
        var e := EventsOf(p, user, team)[0];
        && e.user == user && e.team == team && e.decision == p.Decision() && e.spend == p.spend && e.period == p.period
        && p.limit == Some(e.limit) && e.limit > 0.0 && e.percent * e.limit == 100.0 * e.spend
  {
    if p.Decision() != Allow {
      DecisionHasLimit(p);
      PercentTimesLimit(p.spend, p.limit.value);
    }
  }

  lemma PercentTimesLimit(spend: real, limit: real)
    requires limit != 0.0
    ensures (spend / limit) * 100.0 * limit == 100.0 * spend
  {
    var ratio := spend / limit;
    assert ratio * limit == spend;
    assert ratio * 100.0 * limit == 100.0 * (ratio * limit);
  }

  function TeamId(team: Option<Team>): Option<nat> {
    if team.Some? then Some(team.value.id) else None
  }

  function KindOf(d: Decision): StatusKind {
    if d.ShapeAt? then Shaped(d.rpm) else if d.NotifyAt? then Warning else WithinBudget
  }

  /** Numbers that justify a refusal: the refused threshold is reached, against a limit one may divide by. */
  predicate Justified(threshold: nat, spend: real, limit: real) {
    limit > 0.0 && (spend / limit) * 100.0 >= threshold as real
  }

  lemma BlockIsJustified(p: Party)
    requires p.Blocks()
    ensures p.limit.Some? && Justified(p.Decision().threshold, p.spend, p.limit.value)
  {
    DecisionIsATriggeredRule(p.policy, p.spend, p.limit.value);
    PercentOfLimit(p.spend, p.limit.value, p.spend / p.limit.value, p.Decision().threshold as real);
  }

  /** A decision that is recorded comes from a positive limit, so its percentage is defined. */
  lemma DecisionHasLimit(p: Party)
    ensures p.Decision() != Allow ==> p.limit.Some? && p.limit.value > 0.0
  {}

  function Percent(spend: real, limit: real): real {
    if limit > 0.0 then (spend / limit) * 100.0 else 0.0
  }

  function Remaining(spend: real, limit: real): real {
    if limit - spend > 0.0 then limit - spend else 0.0
  }

  /**
   The party whose numbers a status shows: the user when there is a user limit, and otherwise the team, whose spend is
   read from the cache once more and taken for zero if it has expired there (`again` is false).
   */
  function Quoted(u: Party, t: Party, again: bool): Party {
    if u.limit.Some? then u else t.(spend := if again then t.spend else 0.0)
  }

  /**
   The verdict on two parties: refused iff one blocks, with the numbers of a party that does, the user's if both do.
   */
  predicate Verdict(u: Party, t: Party, again: bool, out: Outcome) {
    && (out.Refused? <==> u.Blocks() || t.Blocks())
    && (u.Blocks() ==> out == Refused(u.Decision().threshold, u.spend, u.limit.value, u.period))
    && (!u.Blocks() && t.Blocks() ==> out == Refused(t.Decision().threshold, t.spend, t.limit.value, t.period))
    && (out.Refused? ==> Justified(out.threshold, out.spend, out.limit))
    && (out == NoBudget <==> u.limit.None? && t.limit.None?)
    && (out.Status? ==>
          var q := Quoted(u, t, again);
          && q.limit.Some?
          && out == Status(KindOf(Combine(u.Decision(), t.Decision())),
                           Percent(q.spend, q.limit.value), Remaining(q.spend, q.limit.value), q.period))
  }

  /** What a status says: its kind is that of the more severe side, its numbers are those of the party it quotes. */
  lemma StatusMeans(u: Party, t: Party, again: bool, out: Outcome)
    requires Verdict(u, t, again, out) && out.Status?
    ensures out.kind == WithinBudget <==> u.Decision() == Allow && t.Decision() == Allow
    ensures out.kind.Shaped? <==> u.Decision().ShapeAt? || t.Decision().ShapeAt?
    ensures u.Decision().ShapeAt? ==> out.kind == Shaped(u.Decision().rpm)
    ensures !u.Decision().ShapeAt? && t.Decision().ShapeAt? ==> out.kind == Shaped(t.Decision().rpm)
    ensures
      var spend := if u.limit.Some? then u.spend else if again then t.spend else 0.0;
      var limit := if u.limit.Some? then u.limit.value else t.limit.value;
      && out.period == (if u.limit.Some? then u.period else t.period)
      && (limit > 0.0 ==> out.percent * limit == 100.0 * spend) && (limit <= 0.0 ==> out.percent == 0.0)
      && (spend <= limit ==> out.remaining + spend == limit) && (spend > limit ==> out.remaining == 0.0)
  {
    var q := Quoted(u, t, again);
    if q.limit.value > 0.0 {
      PercentTimesLimit(q.spend, q.limit.value);
    }
  }

  /** Without a policy of the team, a user whose own limit is used up is refused, whatever their team's defaults are. */
  lemma OwnLimitRefuses(db: Database, user: User, identity: string, cached: Option<real>, t: Party, again: bool,
                        out: Outcome)
    requires Verdict(UserParty(db, user, identity, cached), t, again, out)
    requires user.limit.Some? && user.limit.value > 0.0
    requires user.teamId.Some? && db.teams(user.teamId.value).Some? ==> db.teams(user.teamId.value).value.policy.None?
    requires cached.GetOr(db.userSpend(identity, user.period).GetOr(0.0)) >= user.limit.value
    ensures
      out == Refused(100, cached.GetOr(db.userSpend(identity, user.period).GetOr(0.0)), user.limit.value, user.period)
  {
    UserLimitMeans(db, user, identity, cached);
    UserPolicyMeans(db, user, identity, cached);
    var u := UserParty(db, user, identity, cached);
    PresetsDecide(u.spend, u.limit.value);
  }

  /** The user's side: explicit limit, then the team's default, then the global one; policies fall back likewise. */
  method ReadUser(db: Database, cache: SpendCache, identity: string, user: User, team: Option<Team>, live: bool)
      returns (u: Party)
    requires team == TeamOf(db, user)
    modifies cache
    ensures u == UserParty(db, user, identity, old(cache.UserSpend(identity, live)))
    ensures cache.users == (if u.limit.Some? then old(cache.users)[identity := u.spend] else old(cache.users))
    ensures cache.teams == old(cache.teams)
  {
    var globalDefault := None;
    if user.limit.None? && team.None? {
      globalDefault := db.globalDefault;
    }
    var limit, period := None, user.period;
    if user.limit.Some? {
      limit := user.limit;
    } else if team.Some? {
      limit, period := team.value.defaultUserBudget, team.value.period;
    } else if globalDefault.Some? {
      limit, period := Some(globalDefault.value.amount), globalDefault.value.period;
    }
    var spend := 0.0;
    if limit.Some? {
      var cached := cache.UserSpend(identity, live);
      if cached.Some? {
        spend := cached.value;
      } else {
        spend := db.userSpend(identity, period).GetOr(0.0);
        cache.users := cache.users[identity := spend];
      }
    }
    var policy := STANDARD;
    if team.Some? && team.value.policy.Some? {
      policy := team.value.policy.value;
    } else if globalDefault.Some? && globalDefault.value.policy.Some? {
      policy := globalDefault.value.policy.value;
    }
    u := Party(limit, spend, period, policy);
  }

  /** The team's side; its spend is only read when the team has a budget. */
  method ReadTeam(db: Database, cache: SpendCache, team: Team, live: bool) returns (t: Party)
    requires team.amount.Some?
    modifies cache
    ensures t == PartyOfTeam(db, team, old(cache.TeamSpend(team.id, live)))
    ensures cache.teams == old(cache.teams)[team.id := t.spend] && cache.users == old(cache.users)
  {
    var spend;
    var cached := cache.TeamSpend(team.id, live);
    if cached.Some? {
      spend := cached.value;
    } else {
      spend := db.teamSpend(team.id, team.period).GetOr(0.0);
      cache.teams := cache.teams[team.id := spend];
    }
    t := Party(team.amount, spend, team.period, team.policy.GetOr(STANDARD));
  }

  /** Judge one party and record what its policy says, unless it allows. */
  method Judge(p: Party, user: Option<string>, team: Option<nat>) returns (decision: Decision, events: seq<Event>)
    ensures decision == p.Decision() && events == EventsOf(p, user, team)
  {
    decision, events := Allow, [];
    if p.limit.Some? {
      decision := Evaluate(p.policy, p.spend, p.limit.value);
      if decision != Allow {
        DecisionHasLimit(p);
        events := [Event(user, team, decision, p.spend, p.limit.value, (p.spend / p.limit.value) * 100.0, p.period)];
      }
    }
  }

  method CheckBudget(db: Database, cache: SpendCache, identity: string, live: Unexpired)
      returns (out: Outcome, events: seq<Event>)
    modifies cache
    ensures db.users(identity).None? ==>
      out == NoBudget && events == [] && cache.users == old(cache.users) && cache.teams == old(cache.teams)
    ensures db.users(identity).Some? ==>
      var user := db.users(identity).value;
      var team := TeamOf(db, user);
      var u := UserParty(db, user, identity, old(cache.UserSpend(identity, live.user)));
      var t := TeamParty(db, team, if team.Some? then old(cache.TeamSpend(team.value.id, live.team)) else None);
      && Verdict(u, t, live.teamAgain, out)
      && events == EventsOf(u, Some(identity), user.teamId) + EventsOf(t, None, TeamId(team))
      && cache.users == (if u.limit.Some? then old(cache.users)[identity := u.spend] else old(cache.users))
      && cache.teams == (if t.limit.Some? then old(cache.teams)[team.value.id := t.spend] else old(cache.teams))
  {
    var found := db.users(identity);
    if found.None? {
      return NoBudget, [];
    }
    var user := found.value;
    var team := None;
    if user.teamId.Some? {
      team := db.teams(user.teamId.value);
    }
    var u := ReadUser(db, cache, identity, user, team, live.user);
    var decision;
    decision, events := Judge(u, Some(identity), user.teamId);

    var t := NOBODY;
    var teamBinds := false;
    if team.Some? && team.value.amount.Some? {
      t := ReadTeam(db, cache, team.value, live.team);
      var teamDecision, more := Judge(t, None, Some(team.value.id));
      events := events + more;
      var previous := decision;
      decision := Combine(decision, teamDecision);
      teamBinds := teamDecision.BlockAt? && !previous.BlockAt?;
    }
    var again := if team.Some? then cache.TeamSpend(team.value.id, live.teamAgain).GetOr(0.0) else 0.0;
    out := Report(u, t, teamBinds, again, live.teamAgain);
  }

  /** The answer, whose numbers are the team's when only the team blocks, and otherwise the user's if there are any. */
  method Report(u: Party, t: Party, teamBinds: bool, again: real, ghost live: bool) returns (out: Outcome)
    requires teamBinds == (t.Blocks() && !u.Blocks())
    requires t.limit.Some? ==> again == if live then t.spend else 0.0
    ensures Verdict(u, t, live, out)
  {
    var spend, limit, period;
    if teamBinds {
      spend, limit, period := t.spend, t.limit.value, t.period;
    } else if u.limit.Some? {
      spend, limit, period := u.spend, u.limit.value, u.period;
    } else if t.limit.Some? {
      spend, limit, period := again, t.limit.value, t.period;
    } else {
      return NoBudget;
    }
    if u.Blocks() {
      BlockIsJustified(u);
    } else if t.Blocks() {
      BlockIsJustified(t);
    }
    var decision := Combine(u.Decision(), t.Decision());
    match decision {
      case BlockAt(threshold) =>
        out := Refused(threshold, spend, limit, period);
      case ShapeAt(_, rpm) =>
        out := Status(Shaped(rpm), Percent(spend, limit), Remaining(spend, limit), period);
      case NotifyAt(_) =>
        out := Status(Warning, Percent(spend, limit), Remaining(spend, limit), period);
      case Allow =>
        out := Status(WithinBudget, Percent(spend, limit), Remaining(spend, limit), period);
    }
  }

  // ---------------------------------------------------------------- whose numbers a status shows

  /** The numbers shown are those of a party whose own policy makes the decision shown. */
  predicate Attributed(u: Party, t: Party, again: bool) {
    Quoted(u, t, again).Decision() == Combine(u.Decision(), t.Decision())
  }

  lemma {:induction false} NothingTriggersAtZero(policy: seq<Rule>, limit: real)
    requires forall i | 0 <= i < |policy| :: policy[i].atPercent > 0
    ensures Decide(policy, 0.0, limit) == Allow
  {
    if limit > 0.0 && policy != [] {
      Scale(policy[|policy| - 1].atPercent as real, 0.0, limit);
      NothingTriggersAtZero(policy[..|policy| - 1], limit);
    }
  }

  /**
   With a user limit, a status is attributed if and only if the team's decision is no more severe than the user's.
   With a team limit alone, it is if and only if the team's spend is still cached at the second read or the team's
   policy allows anyway; that second part needs that no rule of the team triggers at no spend at all.
   */
  lemma StatusIsAttributedIff(u: Party, t: Party, again: bool, out: Outcome)
    requires Verdict(u, t, again, out) && out.Status?
    requires forall i | 0 <= i < |t.policy| :: t.policy[i].atPercent > 0
    ensures
      Attributed(u, t, again) <==>
        if u.limit.Some? then Severity(u.Decision()) >= Severity(t.Decision())
        else again || t.Decision() == Allow
  {
    if u.limit.None? {
      NothingTriggersAtZero(t.policy, t.limit.value);
    }
  }

  /** For any team policy, rules at zero percent included. */
  lemma StatusIsAttributedIffAnyPolicy(u: Party, t: Party, again: bool, out: Outcome)
    requires Verdict(u, t, again, out) && out.Status?
    ensures
      Attributed(u, t, again) <==>
        if u.limit.Some? then Severity(u.Decision()) >= Severity(t.Decision())
        else again || t.Decision() == Decide(t.policy, 0.0, t.limit.value)
  {}

  /** An attributed status that warns or shapes shows a percentage that reaches the threshold of the rule behind it. */
  lemma AttributedPercentReachesThreshold(u: Party, t: Party, again: bool, out: Outcome)
    requires Verdict(u, t, again, out) && out.Status? && Attributed(u, t, again)
    ensures
      var d := Combine(u.Decision(), t.Decision());
      d == Allow || (!d.BlockAt? && out.percent >= d.threshold as real)
  {
    var q := Quoted(u, t, again);
    var d := q.Decision();
    if d != Allow {
      DecisionIsATriggeredRule(q.policy, q.spend, q.limit.value);
      PercentOfLimit(q.spend, q.limit.value, q.spend / q.limit.value, d.threshold as real);
    }
  }

  /** A warning the team caused is shown with the user's numbers, far below any threshold. */
  lemma WarningCanQuoteTheOtherParty(again: bool, out: Outcome)
    requires Verdict(Party(Some(100.0), 10.0, Calendar.Monthly, STANDARD),
                     Party(Some(100.0), 90.0, Calendar.Monthly, STANDARD), again, out)
    ensures out == Status(Warning, 10.0, 90.0, Calendar.Monthly)
  {
    StandardAt(10.0);
    StandardAt(90.0);
  }

  /** A team at ninety percent is shown at zero when its spend expires between the two reads. */
  lemma ExpiredSpendIsShownAsZero(out: Outcome)
    requires Verdict(NOBODY, Party(Some(100.0), 90.0, Calendar.Monthly, STANDARD), false, out)
    ensures out == Status(Warning, 0.0, 100.0, Calendar.Monthly)
  {
    StandardAt(90.0);
  }

  lemma StandardAt(spend: real)
    requires spend < 100.0
    ensures Decide(STANDARD, spend, 100.0) == if spend >= 80.0 then NotifyAt(80) else Allow
  {
    var front := STANDARD[..1];
    assert front == [Rule(80, Notify, None)] && front[..0] == [];
    assert !Triggered(STANDARD[1], spend, 100.0);
    assert Triggered(front[0], spend, 100.0) <==> spend >= 80.0;
    assert Decide(front, spend, 100.0) == if spend >= 80.0 then NotifyAt(80) else Allow;
  }
}
