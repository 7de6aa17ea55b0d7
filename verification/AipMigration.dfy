/** The startup migration of a single legacy inference profile into the per-model override table. */
module AipMigration {
  import opened Wrappers

  type Endpoint = nat

  datatype Row = Row(arn: string, setBy: string, reason: Option<string>)

  /** The override table, keyed by endpoint and model. */
  type Overrides = map<(Endpoint, string), Row>

  datatype Candidate = Candidate(endpoint: Endpoint, legacyArn: string)

  const MIGRATED_BY: string := "auto-migration"
  const MIGRATION_REASON: string := "migrated from inference_profile_arn column"

  // ---------------------------------------------------------------- the table

  /** The models of an endpoint that have a row. */
  function Models(t: Overrides, e: Endpoint): set<string> {
    set k | k in t && k.0 == e :: k.1
  }

  predicate HasRows(t: Overrides, e: Endpoint) {
    exists k | k in t :: k.0 == e
  }

  class OverrideTable {
    var rows: Overrides

    constructor ()
      ensures rows == map[]
    {
      rows := map[];
    }

    /** A second row for the same endpoint and model violates the primary key; `fails` stands for any other failure. */
    method Insert(e: Endpoint, model: string, row: Row, fails: bool) returns (ok: bool)
      modifies this
      ensures ok <==> !fails && (e, model) !in old(rows)
      ensures rows == if ok then old(rows)[(e, model) := row] else old(rows)
    {
      if fails || (e, model) in rows {
        return false;
      }
      rows := rows[(e, model) := row];
      ok := true;
    }

    method ListByEndpoint(e: Endpoint, fails: bool) returns (models: Option<set<string>>)
      ensures models == if fails then None else Some(Models(rows, e))
    {
      models := if fails then None else Some(set k | k in rows && k.0 == e :: k.1);
    }

    method DeleteByModel(e: Endpoint, model: string) returns (affected: nat)
      modifies this
      ensures rows == old(rows) - {(e, model)}
      ensures affected == if (e, model) in old(rows) then 1 else 0
    {
      affected := if (e, model) in rows then 1 else 0;
      rows := rows - {(e, model)};
    }
  }

  // ---------------------------------------------------------------- the migration

  /** What the model service and the database do during a run; a resolver's failure is `None`. */
  datatype World = World(resolve: string -> Option<string>, listFails: Endpoint -> bool,
                         insertFails: (Endpoint, string) -> bool)

  /** The row one candidate contributes to a table, if any. */
  function Contribution(t: Overrides, c: Candidate, w: World): Option<string> {
    if w.listFails(c.endpoint) || HasRows(t, c.endpoint) || w.resolve(c.legacyArn).None? then None
    else
      var model := w.resolve(c.legacyArn).value;
      if w.insertFails(c.endpoint, model) then None else Some(model)
  }

  function MigratedRow(arn: string): Row {
    Row(arn, MIGRATED_BY, Some(MIGRATION_REASON))
  }

  function MigrateOne(t: Overrides, c: Candidate, w: World): Overrides {
    var model := Contribution(t, c, w);
    if model.None? then t else t[(c.endpoint, model.value) := MigratedRow(c.legacyArn)]
  }

  function Migrate(t: Overrides, cs: seq<Candidate>, w: World): Overrides {
    if cs == [] then t else MigrateOne(Migrate(t, cs[..|cs| - 1], w), cs[|cs| - 1], w)
  }

  lemma NoModelsIffNoRows(t: Overrides, e: Endpoint)
    ensures Models(t, e) == {} <==> !HasRows(t, e)
  {
    if k :| k in t && k.0 == e {
      assert k.1 in Models(t, e);
    }
  }

  method MigrateLegacyEndpoints(table: OverrideTable, candidates: seq<Candidate>, w: World)
    modifies table
    ensures table.rows == Migrate(old(table.rows), candidates, w)
  {
    for i := 0 to |candidates|
      invariant table.rows == Migrate(old(table.rows), candidates[..i], w)
    {
      var c := candidates[i];
      assert candidates[..i + 1][..i] == candidates[..i];
      var existing := table.ListByEndpoint(c.endpoint, w.listFails(c.endpoint));
      NoModelsIffNoRows(table.rows, c.endpoint);
      if existing.None? || existing.value != {} {
        continue;
      }
      var model := w.resolve(c.legacyArn);
      if model.None? {
        continue;
      }
      var inserted := table.Insert(c.endpoint, model.value, MigratedRow(c.legacyArn),
                                   w.insertFails(c.endpoint, model.value));
    }
    assert candidates[..|candidates|] == candidates;
  }

  // ---------------------------------------------------------------- independence and idempotence

  /** The part of a table that belongs to one endpoint. */
  function Of(t: Overrides, e: Endpoint): map<string, Row> {
    map model | model in Models(t, e) :: t[(e, model)]
  }

  function CandidatesFor(cs: seq<Candidate>, e: Endpoint): seq<Candidate> {
    if cs == [] then []
    else
      var front, last := CandidatesFor(cs[..|cs| - 1], e), cs[|cs| - 1];
      if last.endpoint == e then front + [last] else front
  }

  lemma ModelsOf(t: Overrides, e: Endpoint, model: string)
    ensures model in Of(t, e) <==> (e, model) in t
    ensures (e, model) in t ==> Of(t, e)[model] == t[(e, model)]
  {
    if (e, model) in t {
      assert model in Models(t, e);
    }
  }

  lemma OfDecidesRows(t: Overrides, u: Overrides, e: Endpoint)
    requires Of(t, e) == Of(u, e)
    ensures HasRows(t, e) ==> HasRows(u, e)
  {
    if k :| k in t && k.0 == e {
      ModelsOf(t, e, k.1);
      ModelsOf(u, e, k.1);
      assert (e, k.1) in u;
    }
  }

  lemma OneCandidate(t: Overrides, u: Overrides, c: Candidate, w: World, e: Endpoint)
    requires Of(t, e) == Of(u, e)
    ensures Of(MigrateOne(t, c, w), e) == if c.endpoint == e then Of(MigrateOne(u, c, w), e) else Of(u, e)
  {
    var t', u' := MigrateOne(t, c, w), MigrateOne(u, c, w);
    OfDecidesRows(t, u, e);
    OfDecidesRows(u, t, e);
    forall model ensures model in Of(t', e) <==> model in Of(if c.endpoint == e then u' else u, e) {
      Pointwise(t, u, c, w, e, model);
    }
    forall model | model in Of(t', e) ensures Of(t', e)[model] == Of(if c.endpoint == e then u' else u, e)[model] {
      Pointwise(t, u, c, w, e, model);
    }
  }

  lemma Pointwise(t: Overrides, u: Overrides, c: Candidate, w: World, e: Endpoint, model: string)
    requires Of(t, e) == Of(u, e) && (HasRows(t, e) <==> HasRows(u, e))
    ensures
      var t', u' := MigrateOne(t, c, w), if c.endpoint == e then MigrateOne(u, c, w) else u;
      && (model in Of(t', e) <==> model in Of(u', e))
      && (model in Of(t', e) ==> Of(t', e)[model] == Of(u', e)[model])
  {
    ModelsOf(t, e, model);
    ModelsOf(u, e, model);
    ModelsOf(MigrateOne(t, c, w), e, model);
    ModelsOf(if c.endpoint == e then MigrateOne(u, c, w) else u, e, model);
  }

  /** What becomes of an endpoint depends on its own rows and candidates alone, whatever happens to the others. */
  lemma {:induction false} EndpointsAreIndependent(t: Overrides, cs: seq<Candidate>, w: World, e: Endpoint)
    ensures Of(Migrate(t, cs, w), e) == Of(Migrate(t, CandidatesFor(cs, e), w), e)
  {
    if cs != [] {
      var front, last := cs[..|cs| - 1], cs[|cs| - 1];
      EndpointsAreIndependent(t, front, w, e);
      var mine := CandidatesFor(front, e);
      OneCandidate(Migrate(t, front, w), Migrate(t, mine, w), last, w, e);
      assert (mine + [last])[..|mine|] == mine;
    }
  }

  /** Rows are only ever added, and only to endpoints that had none. */
  lemma {:induction false} ExistingRowsAreUntouched(t: Overrides, cs: seq<Candidate>, w: World)
    ensures forall k | k in t :: k in Migrate(t, cs, w) && Migrate(t, cs, w)[k] == t[k]
    ensures forall e: Endpoint, model: string | HasRows(t, e) && (e, model) in Migrate(t, cs, w) :: (e, model) in t
  {
    if cs != [] {
      var front, last := cs[..|cs| - 1], cs[|cs| - 1];
      ExistingRowsAreUntouched(t, front, w);
      var before := Migrate(t, front, w);
      if HasRows(t, last.endpoint) {
        var k :| k in t && k.0 == last.endpoint;
        assert k in before;
      }
    }
  }

  /** A candidate is settled when it has nothing more to contribute. */
  ghost predicate Settled(t: Overrides, cs: seq<Candidate>, w: World) {
    forall i | 0 <= i < |cs| :: Contribution(t, cs[i], w).None?
  }

  lemma {:induction false} MigrationSettles(t: Overrides, cs: seq<Candidate>, w: World)
    ensures Settled(Migrate(t, cs, w), cs, w)
  {
    if cs != [] {
      var front, last := cs[..|cs| - 1], cs[|cs| - 1];
      MigrationSettles(t, front, w);
      var before := Migrate(t, front, w);
      var after := MigrateOne(before, last, w);
      var model := Contribution(before, last, w);
      assert model.Some? ==> (last.endpoint, model.value) in after;
      forall i | 0 <= i < |cs| ensures Contribution(after, cs[i], w).None? {
        if i < |front| && HasRows(before, front[i].endpoint) {
          var k :| k in before && k.0 == front[i].endpoint;
          assert k in after;
        }
      }
    }
  }

  lemma {:induction false} SettledStays(t: Overrides, cs: seq<Candidate>, w: World)
    requires Settled(t, cs, w)
    ensures Migrate(t, cs, w) == t
  {
    if cs != [] {
      SettledStays(t, cs[..|cs| - 1], w);
    }
  }

  /** Under the same resolver and database, a second run changes nothing, failures of the first included. */
  lemma MigrationIsIdempotent(t: Overrides, cs: seq<Candidate>, w: World)
    ensures Migrate(Migrate(t, cs, w), cs, w) == Migrate(t, cs, w)
  {
    MigrationSettles(t, cs, w);
    SettledStays(Migrate(t, cs, w), cs, w);
  }

  // ---------------------------------------------------------------- what requests and administrators see

  function ResolveDispatchTarget(cri: string, override: Option<string>, hasAny: bool,
                                 legacyArn: Option<string>): string {
    if override.Some? then override.value
    else if hasAny then cri
    else legacyArn.GetOr(cri)
  }

  /** Where a request for `model` goes on an endpoint, given its rows and its legacy column. */
  function Dispatch(rows: map<string, Row>, legacyArn: Option<string>, model: string, cri: string): string {
    ResolveDispatchTarget(cri, if model in rows then Some(rows[model].arn) else None, rows != map[], legacyArn)
  }

  /** The profile an administrator is shown for an endpoint. */
  ghost function ReportedArn(rows: map<string, Row>, legacyArn: Option<string>): Option<string> {
    if |rows| == 1 then
      var model :| model in rows;
      Some(rows[model].arn)
    else if rows == map[] then legacyArn
    else None
  }

  /** A model's own row decides; other rows alone send it to the default profile, and no rows to the legacy one. */
  lemma DispatchMeans(rows: map<string, Row>, legacyArn: Option<string>, model: string, cri: string)
    ensures
      Dispatch(rows, legacyArn, model, cri) ==
        if model in rows then rows[model].arn
        else if |rows| > 0 then cri
        else if legacyArn.Some? then legacyArn.value
        else cri
  {
    if rows != map[] {
      var m :| m in rows;
      assert rows.Keys != {};
      assert |rows| == |rows.Keys| > 0;
    }
  }

  /** What is reported is the profile of a sole row, the legacy one when there is none, and else nothing. */
  lemma ReportMeans(rows: map<string, Row>, legacyArn: Option<string>, model: string)
    ensures |rows| == 0 ==> ReportedArn(rows, legacyArn) == legacyArn
    ensures |rows| == 1 && model in rows ==> ReportedArn(rows, legacyArn) == Some(rows[model].arn)
    ensures |rows| > 1 ==> ReportedArn(rows, legacyArn) == None
  {
    if |rows| == 1 && model in rows {
      assert |rows.Keys - {model}| == 0;
      assert forall m | m in rows :: m == model || m in rows.Keys - {model};
    }
    if |rows| == 0 {
      assert rows.Keys == {};
    }
  }

  /** An endpoint that a run migrated had no rows before, and has exactly the one for the resolved model after. */
  predicate MigratedTo(before: map<string, Row>, after: map<string, Row>, model: string, arn: string) {
    before == map[] && after == map[model := MigratedRow(arn)]
  }

  lemma MigratesToOneRow(t: Overrides, c: Candidate, w: World)
    requires Contribution(t, c, w).Some?
    ensures MigratedTo(Of(t, c.endpoint), Of(MigrateOne(t, c, w), c.endpoint), w.resolve(c.legacyArn).value,
                       c.legacyArn)
  {
    var e, model := c.endpoint, w.resolve(c.legacyArn).value;
    var after := MigrateOne(t, c, w);
    forall m ensures (m in Of(t, e) <==> false) && (m in Of(after, e) <==> m == model) {
      ModelsOf(t, e, m);
      ModelsOf(after, e, m);
    }
    ModelsOf(after, e, model);
  }

  /** The endpoint's rows are the one row that its candidate calls for. */
  predicate MigratedFor(c: Candidate, w: World, e: Endpoint, after: map<string, Row>) {
    && c.endpoint == e && w.resolve(c.legacyArn).Some?
    && after == map[w.resolve(c.legacyArn).value := MigratedRow(c.legacyArn)]
  }

  /** Over a whole run, an endpoint without rows either stays without, or is migrated for one of its candidates. */
  lemma {:induction false} RunMigratesOnceOrNever(t: Overrides, cs: seq<Candidate>, w: World, e: Endpoint)
    requires !HasRows(t, e)
    ensures
      var after := Of(Migrate(t, cs, w), e);
      after == map[] || exists i | 0 <= i < |cs| :: MigratedFor(cs[i], w, e, after)
  {
    NoModelsIffNoRows(t, e);
    if cs != [] {
      var front, last := cs[..|cs| - 1], cs[|cs| - 1];
      RunMigratesOnceOrNever(t, front, w, e);
      var before := Migrate(t, front, w);
      OneCandidate(before, before, last, w, e);
      if last.endpoint == e && Contribution(before, last, w).Some? {
        MigratesToOneRow(before, last, w);
        assert cs[|front|] == last;
      } else {
        assert forall i | 0 <= i < |front| :: cs[i] == front[i];
      }
    }
  }

  /** A candidate that can be migrated: its endpoint can be listed, its model resolved and the row inserted. */
  predicate Able(c: Candidate, w: World, e: Endpoint) {
    && c.endpoint == e && !w.listFails(e) && w.resolve(c.legacyArn).Some?
    && !w.insertFails(e, w.resolve(c.legacyArn).value)
  }

  /** The first of the first `n` candidates that is able. */
  function FirstAble(cs: seq<Candidate>, w: World, e: Endpoint, n: nat): (k: Option<nat>)
    requires n <= |cs|
    ensures k.Some? ==> k.value < n && Able(cs[k.value], w, e)
    ensures forall i: nat | i < n && (k.None? || i < k.value) :: !Able(cs[i], w, e)
  {
    if n == 0 then None
    else
      var earlier := FirstAble(cs, w, e, n - 1);
      if earlier.Some? || !Able(cs[n - 1], w, e) then earlier else Some(n - 1)
  }

  lemma {:induction false} FirstAbleStays(cs: seq<Candidate>, w: World, e: Endpoint, m: nat, n: nat)
    requires n <= m <= |cs|
    ensures FirstAble(cs[..m], w, e, n) == FirstAble(cs, w, e, n)
  {
    if n > 0 {
      FirstAbleStays(cs, w, e, m, n - 1);
    }
  }

  function RowsFor(cs: seq<Candidate>, w: World, k: Option<nat>): map<string, Row>
    requires k.Some? ==> k.value < |cs| && w.resolve(cs[k.value].legacyArn).Some?
  {
    if k.None? then map[] else map[w.resolve(cs[k.value].legacyArn).value := MigratedRow(cs[k.value].legacyArn)]
  }

  /** An endpoint without rows is migrated exactly if one of its candidates is able, and then for the first that is. */
  lemma FirstAbleCandidateIsMigrated(t: Overrides, cs: seq<Candidate>, w: World, e: Endpoint)
    requires !HasRows(t, e)
    ensures
      var k := FirstAble(cs, w, e, |cs|);
      Of(Migrate(t, cs, w), e) ==
        if k.None? then map[]
        else
          var c := cs[k.value];
          map[w.resolve(c.legacyArn).value :=
            Row(c.legacyArn, "auto-migration", Some("migrated from inference_profile_arn column"))]
  {
    RowsAreForTheFirstAble(t, cs, w, e);
  }

  lemma {:induction false} RowsAreForTheFirstAble(t: Overrides, cs: seq<Candidate>, w: World, e: Endpoint)
    requires !HasRows(t, e)
    ensures Of(Migrate(t, cs, w), e) == RowsFor(cs, w, FirstAble(cs, w, e, |cs|))
  {
    if cs == [] {
      NoRowsIffEmpty(t, e);
    } else {
      var front, last := cs[..|cs| - 1], cs[|cs| - 1];
      RowsAreForTheFirstAble(t, front, w, e);
      RowsForNext(cs, w, e);
      NextCandidate(Migrate(t, front, w), last, w, e);
    }
  }

  lemma RowsForNext(cs: seq<Candidate>, w: World, e: Endpoint)
    requires cs != []
    ensures
      var front, last := cs[..|cs| - 1], cs[|cs| - 1];
      var rows := RowsFor(front, w, FirstAble(front, w, e, |front|));
      RowsFor(cs, w, FirstAble(cs, w, e, |cs|)) ==
        if rows == map[] && Able(last, w, e) then map[w.resolve(last.legacyArn).value := MigratedRow(last.legacyArn)]
        else rows
  {
    var n := |cs| - 1;
    FirstAbleStays(cs, w, e, n, n);
    var k := FirstAble(cs, w, e, n);
    if k.Some? {
      assert w.resolve(cs[k.value].legacyArn).value in RowsFor(cs, w, k);
    }
  }

  lemma NoRowsIffEmpty(t: Overrides, e: Endpoint)
    ensures !HasRows(t, e) <==> Of(t, e) == map[]
  {
    NoModelsIffNoRows(t, e);
    if HasRows(t, e) {
      var k :| k in t && k.0 == e;
      ModelsOf(t, e, k.1);
    }
  }

  lemma NextCandidate(t: Overrides, c: Candidate, w: World, e: Endpoint)
    ensures
      Of(MigrateOne(t, c, w), e) ==
        if Of(t, e) == map[] && Able(c, w, e) then map[w.resolve(c.legacyArn).value := MigratedRow(c.legacyArn)]
        else Of(t, e)
  {
    OneCandidate(t, t, c, w, e);
    NoRowsIffEmpty(t, e);
    if c.endpoint == e && Contribution(t, c, w).Some? {
      MigratesToOneRow(t, c, w);
    }
  }

  /** Requests for the resolved model and the reported profile are as before. */
  lemma MigrationKeepsResolvedModel(before: map<string, Row>, after: map<string, Row>, model: string, arn: string,
                                    cri: string)
    requires MigratedTo(before, after, model, arn)
    ensures Dispatch(after, Some(arn), model, cri) == Dispatch(before, Some(arn), model, cri) == arn
    ensures ReportedArn(after, Some(arn)) == ReportedArn(before, Some(arn)) == Some(arn)
  {
    assert model in after;
    assert after.Keys == {model};
    assert |after| == |after.Keys| == 1;
  }

  /** Over a whole run, an endpoint's resolved model and reported profile are never changed, migrated or not. */
  lemma RunKeepsResolvedModel(t: Overrides, cs: seq<Candidate>, w: World, e: Endpoint, arn: string, cri: string)
    requires !HasRows(t, e) && w.resolve(arn).Some?
    requires forall i | 0 <= i < |cs| && cs[i].endpoint == e :: cs[i].legacyArn == arn
    ensures
      var after, model := Of(Migrate(t, cs, w), e), w.resolve(arn).value;
      Dispatch(after, Some(arn), model, cri) == arn && ReportedArn(after, Some(arn)) == Some(arn)
  {
    RunMigratesOnceOrNever(t, cs, w, e);
    var after, model := Of(Migrate(t, cs, w), e), w.resolve(arn).value;
    if after != map[] {
      MigrationKeepsResolvedModel(map[], after, model, arn, cri);
    }
  }

  /** Any other model goes elsewhere from then on: it keeps its target exactly when that already was the profile. */
  lemma OtherModelsKeepTargetIff(before: map<string, Row>, after: map<string, Row>, model: string, arn: string,
                                 other: string, cri: string)
    requires MigratedTo(before, after, model, arn)
    ensures Dispatch(after, Some(arn), other, cri) == Dispatch(before, Some(arn), other, cri) <==>
      other == model || cri == arn
  {
    assert model in after;
  }
}
