/** Budget events: recorded once per window, and delivered at least once by a polling loop. */
module EventOutbox {
  import opened Wrappers
  import Calendar

  const BATCH: nat := 50

  datatype Key = Key(user: Option<string>, team: Option<nat>, threshold: nat, periodStart: Calendar.Instant)

  /**
   An event row; its id is its position, as rows are only ever appended. `facts` stands for the columns nothing looks
   at.
   */
  datatype Row = Row(key: Key, kind: string, facts: nat, delivered: bool)

  // ---------------------------------------------------------------- the table

  predicate Recorded(rows: seq<Row>, key: Key) {
    exists i | 0 <= i < |rows| :: rows[i].key == key
  }

  predicate NoDuplicates(rows: seq<Row>) {
    forall i, j | 0 <= i < j < |rows| :: rows[i].key != rows[j].key
  }

  function Inserted(rows: seq<Row>, key: Key, kind: string, facts: nat): seq<Row> {
    if Recorded(rows, key) then rows else rows + [Row(key, kind, facts, false)]
  }

  /** Deleting a team clears it from its events. */
  function WithoutTeam(k: Key, team: nat): Key {
    if k.team == Some(team) then k.(team := None) else k
  }

  function TeamDeleted(rows: seq<Row>, team: nat): seq<Row> {
    seq(|rows|, i requires 0 <= i < |rows| => rows[i].(key := WithoutTeam(rows[i].key, team)))
  }

  function PendingBelow(rows: seq<Row>, n: nat): (k: nat)
    requires n <= |rows|
    ensures k <= n
  {
    if n == 0 then 0 else PendingBelow(rows, n - 1) + if rows[n - 1].delivered then 0 else 1
  }

  /** Row `i` is one of the `limit` oldest pending rows. */
  predicate AmongOldest(rows: seq<Row>, i: nat, limit: nat) {
    i < |rows| && !rows[i].delivered && PendingBelow(rows, i) < limit
  }

  predicate InBatch(rows: seq<Row>, i: nat) {
    AmongOldest(rows, i, BATCH)
  }

  /** The rank of a row among the pending ones is the number of pending rows before it. */
  lemma {:induction false} PendingBelowCounts(rows: seq<Row>, n: nat)
    requires n <= |rows|
    ensures PendingBelow(rows, n) == |set i | 0 <= i < n && !rows[i].delivered|
  {
    var pending := set i | 0 <= i < n && !rows[i].delivered;
    if n > 0 {
      PendingBelowCounts(rows, n - 1);
      var fewer := set i | 0 <= i < n - 1 && !rows[i].delivered;
      assert pending == if rows[n - 1].delivered then fewer else fewer + {n - 1};
    }
  }

  /** A new event is appended as given, to be delivered; a recorded one is not recorded again. */
  lemma InsertedMeans(rows: seq<Row>, key: Key, kind: string, facts: nat)
    ensures (exists i | 0 <= i < |rows| :: rows[i].key == key) ==> Inserted(rows, key, kind, facts) == rows
    ensures
      (forall i | 0 <= i < |rows| :: rows[i].key != key) ==>
        Inserted(rows, key, kind, facts) == rows + [Row(key, kind, facts, false)]
  {}

  /** A team's deletion takes it out of the keys of its events and leaves all else. */
  lemma TeamDeletedMeans(rows: seq<Row>, team: nat, i: nat)
    requires i < |rows|
    ensures |TeamDeleted(rows, team)| == |rows|
    ensures
      var k, k' := rows[i].key, TeamDeleted(rows, team)[i].key;
      && TeamDeleted(rows, team)[i] == rows[i].(key := k')
      && k'.user == k.user && k'.threshold == k.threshold && k'.periodStart == k.periodStart
      && (k.team == Some(team) ==> k'.team == None) && (k.team != Some(team) ==> k'.team == k.team)
  {}

  class EventTable {
    var rows: seq<Row>

    constructor ()
      ensures rows == []
    {
      rows := [];
    }

    method InsertEvent(key: Key, kind: string, facts: nat) returns (inserted: bool)
      modifies this
      ensures inserted <==> !Recorded(old(rows), key)
      ensures rows == Inserted(old(rows), key, kind, facts)
    {
      if exists i | 0 <= i < |rows| :: rows[i].key == key {
        return false;
      }
      rows := rows + [Row(key, kind, facts, false)];
      inserted := true;
    }

    /** The oldest undelivered rows, in order of creation. */
    method GetUndelivered(limit: nat) returns (ids: seq<nat>)
      ensures forall i: nat :: i in ids <==> AmongOldest(rows, i, limit)
      ensures forall a, b | 0 <= a < b < |ids| :: ids[a] < ids[b]
    {
      ids := [];
      for i := 0 to |rows|
        invariant |ids| == if PendingBelow(rows, i) < limit then PendingBelow(rows, i) else limit
        invariant forall a | 0 <= a < |ids| :: ids[a] < i
        invariant forall j: nat :: j in ids <==> j < i && AmongOldest(rows, j, limit)
        invariant forall a, b | 0 <= a < b < |ids| :: ids[a] < ids[b]
      {
        if !rows[i].delivered && |ids| < limit {
          ids := ids + [i];
        }
      }
    }

    /** The update may fail, and then changes nothing. */
    method MarkDelivered(id: nat, succeeds: bool)
      requires id < |rows|
      modifies this
      ensures rows == if succeeds then old(rows)[id := old(rows)[id].(delivered := true)] else old(rows)
    {
      if succeeds {
        rows := rows[id := rows[id].(delivered := true)];
      }
    }

    method DeleteTeam(team: nat)
      modifies this
      ensures rows == TeamDeleted(old(rows), team)
    {
      rows := TeamDeleted(rows, team);
    }
  }

  // ---------------------------------------------------------------- one delivery cycle

  function EventCategory(kind: string): string {
    if kind == "rate_limit" then "rate_limit" else "budget"
  }

  datatype Categories = NotAList | List(entries: seq<Option<string>>)

  /** The active configuration; entries of its category list that are not strings read as `None`. */
  datatype Config = Config(kind: string, destination: string, categories: Categories)

  datatype Plan = NoDestination | Deliver(kind: string, destination: string, enabled: seq<string>)

  function Names(entries: seq<Option<string>>): seq<string> {
    if entries == [] then []
    else (if entries[0].Some? then [entries[0].value] else []) + Names(entries[1..])
  }

  const BUDGET_ONLY: seq<string> := ["budget"]
  const SNS_PREFIX: string := "arn:aws:sns:"

  /** A stored configuration wins over the one from the environment, which is limited to budget events. */
  function ResolvePlan(active: Option<Config>, environment: Option<string>): Plan {
    if active.Some? then
      var c := active.value;
      Deliver(c.kind, c.destination, if c.categories.List? then Names(c.categories.entries) else BUDGET_ONLY)
    else if environment.Some? then
      Deliver(if SNS_PREFIX <= environment.value then "sns" else "webhook", environment.value, BUDGET_ONLY)
    else NoDestination
  }

  /** Whether sending an event to a destination succeeds, and whether recording that it is done with does. */
  datatype World = World(send: (string, string, nat) -> bool, mark: nat -> bool)

  predicate Wanted(r: Row, plan: Plan) {
    plan.Deliver? && EventCategory(r.kind) in plan.enabled
  }

  /** What has to happen in a cycle for an event of its batch to end up delivered. */
  predicate Settles(r: Row, i: nat, plan: Plan, world: World) {
    (Wanted(r, plan) ==> world.send(plan.kind, plan.destination, i)) && world.mark(i)
  }

  function Settled(r: Row, settles: bool): Row {
    if settles then r.(delivered := true) else r
  }

  function Ticked(rows: seq<Row>, plan: Plan, world: World): seq<Row> {
    seq(|rows|, i requires 0 <= i < |rows| => Settled(rows[i], InBatch(rows, i) && Settles(rows[i], i, plan, world)))
  }

  /** One cycle: everything in the batch that is wanted is sent once, and what succeeded or was not wanted is marked. */
  method DeliverOnce(table: EventTable, plan: Plan, world: World) returns (attempted: seq<nat>)
    modifies table
    ensures table.rows == Ticked(old(table.rows), plan, world)
    ensures forall i: nat :: i in attempted <==> InBatch(old(table.rows), i) && Wanted(old(table.rows)[i], plan)
    ensures forall a, b | 0 <= a < b < |attempted| :: attempted[a] < attempted[b]
  {
    attempted := [];
    ghost var before := table.rows;
    var ids := table.GetUndelivered(BATCH);
    ghost var done: set<nat> := {};
    for k := 0 to |ids|
      invariant forall j | 0 <= j < k :: ids[j] in done
      invariant forall i | i in done :: i in ids && forall j | k <= j < |ids| :: i < ids[j]
      invariant |table.rows| == |before|
      invariant forall i | 0 <= i < |before| ::
        table.rows[i] == Settled(before[i], i in done && Settles(before[i], i, plan, world))
      invariant forall i: nat :: i in attempted <==> i in done && Wanted(before[i], plan)
      invariant forall a, b | 0 <= a < b < |attempted| :: attempted[a] < attempted[b]
    {
      var id := ids[k];
      assert id in ids;
      done := done + {id};
      var tried := DeliverOne(table, id, plan, world);
      if tried {
        assert forall a | 0 <= a < |attempted| :: attempted[a] in attempted;
        attempted := attempted + [id];
      }
    }
  }

  method DeliverOne(table: EventTable, id: nat, plan: Plan, world: World) returns (tried: bool)
    requires id < |table.rows|
    modifies table
    ensures tried == Wanted(old(table.rows)[id], plan)
    ensures
      var before := old(table.rows);
      table.rows == before[id := Settled(before[id], Settles(before[id], id, plan, world))]
  {
    if plan.NoDestination? || EventCategory(table.rows[id].kind) !in plan.enabled {
      table.MarkDelivered(id, world.mark(id));
      return false;
    }
    if world.send(plan.kind, plan.destination, id) {
      table.MarkDelivered(id, world.mark(id));
    }
    tried := true;
  }

  /** A turn of the loop: the batch is fetched, the destination looked up, and the batch delivered. */
  method DeliveryCycle(table: EventTable, fetched: bool, active: Option<Config>, environment: Option<string>,
                       world: World)
      returns (attempted: seq<nat>)
    modifies table
    ensures table.rows ==
      if fetched then Ticked(old(table.rows), ResolvePlan(active, environment), world) else old(table.rows)
    ensures forall i: nat :: i in attempted <==>
      fetched && InBatch(old(table.rows), i) && Wanted(old(table.rows)[i], ResolvePlan(active, environment))
  {
    if !fetched {
      return [];
    }
    var plan := NoDestination;
    if active.Some? {
      var enabled := if active.value.categories.List? then Names(active.value.categories.entries) else BUDGET_ONLY;
      plan := Deliver(active.value.kind, active.value.destination, enabled);
    } else if environment.Some? {
      plan := Deliver(if SNS_PREFIX <= environment.value then "sns" else "webhook", environment.value, BUDGET_ONLY);
    }
    attempted := DeliverOnce(table, plan, world);
  }

  lemma {:induction false} NamesAreEntries(entries: seq<Option<string>>, name: string)
    ensures name in Names(entries) <==> Some(name) in entries
  {
    if entries != [] {
      NamesAreEntries(entries[1..], name);
    }
  }

  /**
   Which events are sent: those of a listed category, budget events when no list is stored, none without a destination.
   */
  lemma WantedMeans(r: Row, active: Option<Config>, environment: Option<string>)
    ensures
      Wanted(r, ResolvePlan(active, environment)) <==>
        if active.Some? && active.value.categories.List? then
          Some(EventCategory(r.kind)) in active.value.categories.entries
        else (active.Some? || environment.Some?) && r.kind != "rate_limit"
  {
    if active.Some? && active.value.categories.List? {
      NamesAreEntries(active.value.categories.entries, EventCategory(r.kind));
    }
  }

  /** Where events go: to the stored destination as its kind says, else to that of the environment, topic or hook. */
  lemma PlanMeans(active: Option<Config>, environment: Option<string>)
    ensures
      var plan := ResolvePlan(active, environment);
      && (plan.NoDestination? <==> active.None? && environment.None?)
      && (active.Some? ==> plan.kind == active.value.kind && plan.destination == active.value.destination)
      && (active.None? && environment.Some? ==>
            && plan.destination == environment.value && plan.enabled == ["budget"]
            && plan.kind == if "arn:aws:sns:" <= environment.value then "sns" else "webhook")
  {}

  /**
   What a cycle does to a row: it is delivered if it was, or if it is among the fifty oldest pending ones, is sent to
   the plan's destination unless it is not wanted, and is then marked. Nothing else of it changes.
   */
  lemma TickMeans(rows: seq<Row>, plan: Plan, world: World, i: nat)
    requires i < |rows|
    ensures |Ticked(rows, plan, world)| == |rows|
    ensures
      var r, after := rows[i], Ticked(rows, plan, world)[i];
      var wanted :=
        plan.Deliver? && (if r.kind == "rate_limit" then "rate_limit" else "budget") in plan.enabled;
      && after == r.(delivered := after.delivered)
      && (after.delivered <==>
            || r.delivered
            || (&& |set j | 0 <= j < i && !rows[j].delivered| < 50
                && (wanted ==> world.send(plan.kind, plan.destination, i)) && world.mark(i)))
  {
    PendingBelowCounts(rows, i);
  }

  // ---------------------------------------------------------------- whole runs

  datatype Move =
    | Insert(key: Key, kind: string, facts: nat)
    | Tick(plan: Plan, world: World)
    | DeleteTeam(team: nat)

  function Step(rows: seq<Row>, m: Move): (after: seq<Row>)
    ensures |after| >= |rows|
  {
    match m
    case Insert(key, kind, facts) => Inserted(rows, key, kind, facts)
    case Tick(plan, world) => Ticked(rows, plan, world)
    case DeleteTeam(team) => TeamDeleted(rows, team)
  }

  function After(rows: seq<Row>, run: seq<Move>): (after: seq<Row>)
    ensures |after| >= |rows|
    decreases |run|
  {
    if run == [] then rows else Step(After(rows, run[..|run| - 1]), run[|run| - 1])
  }

  lemma StepKeepsDistinct(rows: seq<Row>, m: Move)
    requires NoDuplicates(rows) && !m.DeleteTeam?
    ensures NoDuplicates(Step(rows, m))
  {
    if m.Tick? {
      var after := Step(rows, m);
      assert forall i | 0 <= i < |rows| :: after[i].key == rows[i].key;
    }
  }

  /** Some event of the team differs from a teamless one only by its team. */
  predicate TeamClash(rows: seq<Row>, team: nat) {
    exists i, j | 0 <= i < |rows| && 0 <= j < |rows| ::
      rows[i].key.team == Some(team) && rows[j].key == rows[i].key.(team := None)
  }

  /** Deleting a team keeps events distinct exactly when no event of the team has a teamless twin. */
  lemma TeamDeletionKeepsDistinctIff(rows: seq<Row>, team: nat)
    requires NoDuplicates(rows)
    ensures NoDuplicates(TeamDeleted(rows, team)) <==> !TeamClash(rows, team)
  {
    var after := TeamDeleted(rows, team);
    if TeamClash(rows, team) {
      var i, j :| 0 <= i < |rows| && 0 <= j < |rows| && rows[i].key.team == Some(team)
          && rows[j].key == rows[i].key.(team := None);
      assert after[i].key == after[j].key && i != j;
      if i < j {
        assert after[i].key == after[j].key;
      } else {
        assert after[j].key == after[i].key;
      }
    }
    if !NoDuplicates(after) {
      var i, j :| 0 <= i < j < |after| && after[i].key == after[j].key;
      assert rows[i].key != rows[j].key;
      if rows[i].key.team == Some(team) {
        assert rows[j].key == rows[i].key.(team := None);
      } else {
        assert rows[i].key == rows[j].key.(team := None);
      }
    }
  }

  /** A step whose team deletion, if it is one, meets no clash. */
  predicate MeetsNoClash(rows: seq<Row>, m: Move) {
    m.DeleteTeam? ==> !TeamClash(rows, m.team)
  }

  lemma StepKeepsDistinctIff(rows: seq<Row>, m: Move)
    ensures NoDuplicates(Step(rows, m)) <==> NoDuplicates(rows) && MeetsNoClash(rows, m)
  {
    if !NoDuplicates(rows) {
      DuplicatesStay(rows, m);
    } else if m.DeleteTeam? {
      TeamDeletionKeepsDistinctIff(rows, m.team);
    } else {
      StepKeepsDistinct(rows, m);
    }
  }

  lemma DuplicatesStay(rows: seq<Row>, m: Move)
    requires !NoDuplicates(rows)
    ensures !NoDuplicates(Step(rows, m))
  {
    var i, j :| 0 <= i < j < |rows| && rows[i].key == rows[j].key;
    var after := Step(rows, m);
    assert after[i].key == after[j].key;
  }

  predicate NoClashAt(rows: seq<Row>, run: seq<Move>, k: nat)
    requires k < |run|
  {
    MeetsNoClash(After(rows, run[..k]), run[k])
  }

  lemma PrefixNoClashAt(rows: seq<Row>, run: seq<Move>, n: nat, k: nat)
    requires k < n <= |run|
    ensures NoClashAt(rows, run[..n], k) <==> NoClashAt(rows, run, k)
  {
    assert run[..n][..k] == run[..k];
  }

  lemma LastStepKeepsDistinctIff(rows: seq<Row>, run: seq<Move>)
    requires run != []
    ensures
      NoDuplicates(After(rows, run)) <==> NoDuplicates(After(rows, run[..|run| - 1])) && NoClashAt(rows, run, |run| - 1)
  {
    StepKeepsDistinctIff(After(rows, run[..|run| - 1]), run[|run| - 1]);
  }

  /**
   After any run, no two events share user, team, threshold and period start if and only if no team was deleted at a
   moment when one of its events had a teamless twin.
   */
  lemma {:induction false} RunKeepsDistinctIff(rows: seq<Row>, run: seq<Move>)
    requires NoDuplicates(rows)
    ensures NoDuplicates(After(rows, run)) <==> forall k: nat | k < |run| :: NoClashAt(rows, run, k)
    decreases |run|
  {
    if run != [] {
      var n := |run| - 1;
      RunKeepsDistinctIff(rows, run[..n]);
      LastStepKeepsDistinctIff(rows, run);
      forall k: nat | k < n ensures NoClashAt(rows, run[..n], k) <==> NoClashAt(rows, run, k) {
        PrefixNoClashAt(rows, run, n, k);
      }
    }
  }

  /** In particular, they stay distinct as long as no team is deleted. */
  lemma RunKeepsDistinct(run: seq<Move>)
    requires forall k | 0 <= k < |run| :: !run[k].DeleteTeam?
    ensures NoDuplicates(After([], run))
  {
    RunKeepsDistinctIff([], run);
  }

  /** Two teams that crossed the same threshold in the same window, both deleted later, leave two equal events. */
  lemma DeletedTeamsLeaveDuplicates(threshold: nat, start: Calendar.Instant)
    ensures
      var a, b := Key(None, Some(1), threshold, start), Key(None, Some(2), threshold, start);
      !NoDuplicates(After([], [Insert(a, "team_notify", 0), Insert(b, "team_notify", 0), DeleteTeam(1), DeleteTeam(2)]))
  {
    var a, b := Key(None, Some(1), threshold, start), Key(None, Some(2), threshold, start);
    var run := [Insert(a, "team_notify", 0), Insert(b, "team_notify", 0), DeleteTeam(1), DeleteTeam(2)];
    var r1 := [Row(a, "team_notify", 0, false)];
    var r2 := r1 + [Row(b, "team_notify", 0, false)];
    assert run[..0] == [] && run[..2][..1] == run[..1] && run[..3][..2] == run[..2] && run[..4] == run
      && run[..4][..3] == run[..3];
    assert After([], run[..1]) == Inserted([], a, "team_notify", 0) == r1;
    assert After([], run[..2]) == Inserted(r1, b, "team_notify", 0) == r2;
    var r3 := TeamDeleted(r2, 1);
    assert After([], run[..3]) == r3;
    var r4 := TeamDeleted(r3, 2);
    assert r4[0].key == r4[1].key;
  }

  // ---------------------------------------------------------------- delivery over whole runs

  lemma StepKeepsRow(rows: seq<Row>, m: Move, i: nat)
    requires i < |rows|
    ensures
      var after := Step(rows, m)[i];
      && after.kind == rows[i].kind && after.facts == rows[i].facts
      && (after.delivered <==>
          rows[i].delivered || (m.Tick? && InBatch(rows, i) && Settles(rows[i], i, m.plan, m.world)))
  {}

  /** The cycle of a run that settled an event: it was in the batch, and was sent, or unwanted, or had nowhere to go. */
  predicate SettledAt(rows: seq<Row>, run: seq<Move>, k: nat, i: nat)
    requires k < |run| && i < |rows|
  {
    var before := After(rows, run[..k]);
    run[k].Tick? && InBatch(before, i) && Settles(before[i], i, run[k].plan, run[k].world)
  }

  lemma PrefixSettledAt(rows: seq<Row>, run: seq<Move>, n: nat, k: nat, i: nat)
    requires k < n <= |run| && i < |rows|
    ensures SettledAt(rows, run[..n], k, i) <==> SettledAt(rows, run, k, i)
  {
    assert run[..n][..k] == run[..k];
  }

  lemma {:induction false} RunKeepsRow(rows: seq<Row>, run: seq<Move>, i: nat)
    requires i < |rows|
    ensures After(rows, run)[i].kind == rows[i].kind && After(rows, run)[i].facts == rows[i].facts
    decreases |run|
  {
    if run != [] {
      RunKeepsRow(rows, run[..|run| - 1], i);
      StepKeepsRow(After(rows, run[..|run| - 1]), run[|run| - 1], i);
    }
  }

  lemma LastStepSettles(rows: seq<Row>, run: seq<Move>, i: nat)
    requires i < |rows| && run != []
    ensures
      After(rows, run)[i].delivered <==>
        After(rows, run[..|run| - 1])[i].delivered || SettledAt(rows, run, |run| - 1, i)
  {
    StepKeepsRow(After(rows, run[..|run| - 1]), run[|run| - 1], i);
  }

  /**
   An event is delivered at the end of a run exactly when it was before or some cycle settled it. So it is never lost,
   never becomes undelivered again, and stays pending while its sends fail.
   */
  lemma {:induction false} DeliveredIffSettled(rows: seq<Row>, run: seq<Move>, i: nat)
    requires i < |rows|
    ensures After(rows, run)[i].kind == rows[i].kind && After(rows, run)[i].facts == rows[i].facts
    ensures After(rows, run)[i].delivered <==>
      rows[i].delivered || exists k: nat | k < |run| :: SettledAt(rows, run, k, i)
    decreases |run|
  {
    RunKeepsRow(rows, run, i);
    if run != [] {
      var n := |run| - 1;
      DeliveredIffSettled(rows, run[..n], i);
      LastStepSettles(rows, run, i);
      forall k: nat | k < n ensures SettledAt(rows, run, k, i) <==> SettledAt(rows, run[..n], k, i) {
        PrefixSettledAt(rows, run, n, k, i);
      }
    }
  }

  // ---------------------------------------------------------------- draining a backlog

  function Less(n: nat, k: nat): nat {
    if n < k then 0 else n - k
  }

  /** A cycle in which every event of the batch of `rows` settles. */
  ghost predicate SettlesBatch(rows: seq<Row>, m: Move) {
    m.Tick? ==> forall i: nat | InBatch(rows, i) :: Settles(rows[i], i, m.plan, m.world)
  }

  ghost predicate SettlesBatchAt(rows: seq<Row>, run: seq<Move>, k: nat)
    requires k < |run|
  {
    SettlesBatch(After(rows, run[..k]), run[k])
  }

  lemma PrefixSettlesBatchAt(rows: seq<Row>, run: seq<Move>, n: nat, k: nat)
    requires k < n <= |run|
    ensures SettlesBatchAt(rows, run[..n], k) <==> SettlesBatchAt(rows, run, k)
  {
    assert run[..n][..k] == run[..k];
  }

  /**
   Sends and marks that all succeed settle any batch, but only the batch's own need to, and only the sends it wants.
   */
  lemma SucceedingSettlesBatch(rows: seq<Row>, plan: Plan, world: World)
    requires forall i: nat | InBatch(rows, i) :: world.mark(i)
    requires forall i: nat | InBatch(rows, i) && Wanted(rows[i], plan) :: world.send(plan.kind, plan.destination, i)
    ensures SettlesBatch(rows, Tick(plan, world))
  {}

  lemma {:induction false} TickDrains(rows: seq<Row>, m: Move, n: nat)
    requires m.Tick? && SettlesBatch(rows, m) && n <= |rows|
    ensures PendingBelow(Step(rows, m), n) == Less(PendingBelow(rows, n), BATCH)
  {
    if n > 0 {
      TickDrains(rows, m, n - 1);
      StepKeepsRow(rows, m, n - 1);
    }
  }

  lemma {:induction false} OthersKeepPending(rows: seq<Row>, m: Move, n: nat)
    requires !m.Tick? && n <= |rows|
    ensures PendingBelow(Step(rows, m), n) == PendingBelow(rows, n)
  {
    if n > 0 {
      OthersKeepPending(rows, m, n - 1);
      StepKeepsRow(rows, m, n - 1);
    }
  }

  function Ticks(run: seq<Move>): nat {
    if run == [] then 0 else Ticks(run[..|run| - 1]) + if run[|run| - 1].Tick? then 1 else 0
  }

  /** When each cycle settles its own batch, it takes that off the oldest events, whatever is recorded meanwhile. */
  lemma {:induction false} BacklogDrains(rows: seq<Row>, run: seq<Move>, n: nat)
    requires n <= |rows| && forall k: nat | k < |run| :: SettlesBatchAt(rows, run, k)
    ensures PendingBelow(After(rows, run), n) == Less(PendingBelow(rows, n), Ticks(run) * BATCH)
    decreases |run|
  {
    if run != [] {
      var front, last := run[..|run| - 1], run[|run| - 1];
      forall k: nat | k < |front| ensures SettlesBatchAt(rows, front, k) {
        PrefixSettlesBatchAt(rows, run, |front|, k);
      }
      BacklogDrains(rows, front, n);
      assert SettlesBatchAt(rows, run, |front|);
      if last.Tick? {
        TickDrains(After(rows, front), last, n);
      } else {
        OthersKeepPending(After(rows, front), last, n);
      }
    }
  }

  lemma {:induction false} NonePending(rows: seq<Row>, n: nat)
    requires n <= |rows|
    ensures PendingBelow(rows, n) == 0 <==> forall i | 0 <= i < n :: rows[i].delivered
  {
    if n > 0 {
      NonePending(rows, n - 1);
    }
  }

  /** A backlog is gone after one cycle per batch, rounded up, and not before. */
  lemma DrainedAfterCeiling(rows: seq<Row>, run: seq<Move>)
    requires forall k: nat | k < |run| :: SettlesBatchAt(rows, run, k)
    ensures
      (forall i | 0 <= i < |rows| :: After(rows, run)[i].delivered)
      <==> Ticks(run) >= (PendingBelow(rows, |rows|) + BATCH - 1) / BATCH
  {
    BacklogDrains(rows, run, |rows|);
    NonePending(After(rows, run), |rows|);
  }

  // ---------------------------------------------------------------- starvation

  /** A cycle in which no event of the batch of `rows` settles. */
  ghost predicate FailsBatch(rows: seq<Row>, m: Move) {
    m.Tick? ==> forall i: nat | InBatch(rows, i) :: !Settles(rows[i], i, m.plan, m.world)
  }

  /** A destination that rejects every send makes a batch of wanted events fail, however well the database works. */
  lemma DeadDestinationFailsBatch(rows: seq<Row>, plan: Plan, world: World)
    requires forall i: nat | InBatch(rows, i) :: Wanted(rows[i], plan) && !world.send(plan.kind, plan.destination, i)
    ensures FailsBatch(rows, Tick(plan, world))
  {}

  lemma {:induction false} SamePending(a: seq<Row>, b: seq<Row>, n: nat)
    requires n <= |a| && n <= |b| && forall i | 0 <= i < n :: a[i].delivered == b[i].delivered
    ensures PendingBelow(a, n) == PendingBelow(b, n)
  {
    if n > 0 {
      SamePending(a, b, n - 1);
    }
  }

  lemma {:induction false} PendingGrows(rows: seq<Row>, n: nat, m: nat)
    requires n <= m <= |rows|
    ensures PendingBelow(rows, n) <= PendingBelow(rows, m)
  {
    if n < m {
      PendingGrows(rows, n, m - 1);
    }
  }

  /** The table still holds the original events as they were, but for their keys, and has delivered none since. */
  predicate StuckAt(rows: seq<Row>, now: seq<Row>) {
    && |rows| <= |now|
    && (forall i | 0 <= i < |rows| :: now[i].kind == rows[i].kind && now[i].delivered == rows[i].delivered)
    && (forall i | |rows| <= i < |now| :: !now[i].delivered)
  }

  lemma StaysStuck(rows: seq<Row>, now: seq<Row>, m: Move, i: nat)
    requires StuckAt(rows, now) && PendingBelow(rows, |rows|) >= BATCH && FailsBatch(rows, m) && i < |now|
    ensures Step(now, m)[i].delivered == now[i].delivered
  {
    StepKeepsRow(now, m, i);
    if m.Tick? && InBatch(now, i) {
      if i < |rows| {
        SamePending(rows, now, i);
        assert InBatch(rows, i);
      } else {
        SamePending(rows, now, |rows|);
        PendingGrows(now, |rows|, i);
      }
    }
  }

  /**
   Delivery is not fair: a full batch of events that keep failing shuts out every younger one for good, those recorded
   in the meantime included. All that fails need be the fifty oldest.
   */
  lemma {:induction false} FullBatchStarves(rows: seq<Row>, run: seq<Move>)
    requires PendingBelow(rows, |rows|) >= BATCH
    requires forall k | 0 <= k < |run| :: FailsBatch(rows, run[k])
    ensures forall i: nat | i < |After(rows, run)| :: After(rows, run)[i].delivered <==> i < |rows| && rows[i].delivered
    ensures StuckAt(rows, After(rows, run))
    decreases |run|
  {
    if run != [] {
      var front, last := run[..|run| - 1], run[|run| - 1];
      FullBatchStarves(rows, front);
      StuckStep(rows, After(rows, front), last);
    }
  }

  lemma StuckStep(rows: seq<Row>, now: seq<Row>, m: Move)
    requires StuckAt(rows, now) && PendingBelow(rows, |rows|) >= BATCH && FailsBatch(rows, m)
    ensures StuckAt(rows, Step(now, m))
  {
    var after := Step(now, m);
    forall i: nat | i < |now| ensures after[i].kind == now[i].kind && after[i].delivered == now[i].delivered {
      StaysStuck(rows, now, m, i);
      StepKeepsRow(now, m, i);
    }
  }
}
