/** The notification destination's cycle: draft, test, activate. */
module NotificationConfig {
  import opened Wrappers

  datatype Slot = Active | Draft

  datatype Destination = Destination(kind: string, value: string)

  /** A row; `tested` is the result of the last test recorded on it, if any since its last edit. */
  datatype Row = Row(slot: Slot, destination: Destination, categories: seq<string>, tested: Option<bool>)

  /** A test delivery as the log keeps it. */
  datatype Test = Test(destination: Destination, success: bool)

  datatype State = State(rows: seq<Row>, log: seq<Test>)

  // ---------------------------------------------------------------- the statements on the table

  function Delete(rows: seq<Row>, slot: Slot): seq<Row> {
    if rows == [] then []
    else
      var front, last := Delete(rows[..|rows| - 1], slot), rows[|rows| - 1];
      if last.slot == slot then front else front + [last]
  }

  predicate Occupied(rows: seq<Row>, slot: Slot) {
    exists i | 0 <= i < |rows| :: rows[i].slot == slot
  }

  /** The row of a slot, if there is one. */
  function Get(rows: seq<Row>, slot: Slot): Option<Row> {
    if rows == [] then None
    else if rows[|rows| - 1].slot == slot then Some(rows[|rows| - 1])
    else Get(rows[..|rows| - 1], slot)
  }

  function Edited(r: Row, d: Destination, categories: seq<string>): Row {
    if r.slot.Draft? then Row(Draft, d, categories, None) else r
  }

  /** Saving a draft inserts or overwrites it, and forgets its test result. */
  function Upsert(rows: seq<Row>, d: Destination, categories: seq<string>): seq<Row> {
    if Occupied(rows, Draft) then seq(|rows|, i requires 0 <= i < |rows| => Edited(rows[i], d, categories))
    else rows + [Row(Draft, d, categories, None)]
  }

  function RecordTest(rows: seq<Row>, slot: Slot, success: bool): seq<Row> {
    seq(|rows|, i requires 0 <= i < |rows| =>
      if rows[i].slot == slot then rows[i].(tested := Some(success)) else rows[i])
  }

  function Promote(rows: seq<Row>): seq<Row> {
    var kept := Delete(rows, Active);
    seq(|kept|, i requires 0 <= i < |kept| => if kept[i].slot.Draft? then kept[i].(slot := Active) else kept[i])
  }

  function WithCategories(rows: seq<Row>, categories: seq<string>): seq<Row> {
    seq(|rows|, i requires 0 <= i < |rows| =>
      if rows[i].slot.Active? then rows[i].(categories := categories) else rows[i])
  }

  // ---------------------------------------------------------------- the handlers

  datatype Reply = Done | Rejected | Missing | NotTested

  datatype Move =
    | Save(destination: Destination, categories: seq<string>)
    | TestDraft(delivers: Destination -> bool, recorded: bool)
    | Activate
    | DeleteActive
    | DeleteDraft
    | SetCategories(categories: seq<string>)

  function Step(s: State, m: Move): State {
    match m
    case Save(d, categories) => s.(rows := Upsert(s.rows, d, categories))
    case TestDraft(delivers, recorded) =>
      var draft := Get(s.rows, Draft);
      if draft.None? then s
      else
        var success := delivers(draft.value.destination);
        State(if recorded then RecordTest(s.rows, Draft, success) else s.rows,
              s.log + [Test(draft.value.destination, success)])
    case Activate =>
      var draft := Get(s.rows, Draft);
      if draft.None? || draft.value.tested != Some(true) then s else s.(rows := Promote(s.rows))
    case DeleteActive => s.(rows := Delete(s.rows, Active))
    case DeleteDraft => s.(rows := Delete(s.rows, Draft))
    case SetCategories(categories) => s.(rows := WithCategories(s.rows, categories))
  }

  // ---------------------------------------------------------------- slot by slot

  lemma {:induction false} GetMapped(rows: seq<Row>, f: Row -> Row, slot: Slot)
    requires forall r :: f(r).slot == r.slot
    ensures
      var after := seq(|rows|, i requires 0 <= i < |rows| => f(rows[i]));
      Get(after, slot) == if Get(rows, slot).None? then None else Some(f(Get(rows, slot).value))
  {
    if rows != [] {
      var front := rows[..|rows| - 1];
      GetMapped(front, f, slot);
      var after := seq(|rows|, i requires 0 <= i < |rows| => f(rows[i]));
      assert after[..|rows| - 1] == seq(|front|, i requires 0 <= i < |front| => f(front[i]));
    }
  }

  lemma {:induction false} GetDeleted(rows: seq<Row>, gone: Slot, slot: Slot)
    ensures Get(Delete(rows, gone), slot) == if slot == gone then None else Get(rows, slot)
  {
    if rows != [] {
      var front, last := rows[..|rows| - 1], rows[|rows| - 1];
      GetDeleted(front, gone, slot);
      if last.slot != gone {
        assert (Delete(front, gone) + [last])[..|Delete(front, gone)|] == Delete(front, gone);
      }
    }
  }

  lemma {:induction false} GetPromoted(kept: seq<Row>)
    requires forall i | 0 <= i < |kept| :: kept[i].slot.Draft?
    ensures
      var after := seq(|kept|, i requires 0 <= i < |kept| =>
        if kept[i].slot.Draft? then kept[i].(slot := Active) else kept[i]);
      && Get(after, Draft) == None
      && Get(after, Active) ==
         if Get(kept, Draft).None? then None else Some(Get(kept, Draft).value.(slot := Active))
  {
    if kept != [] {
      var front := kept[..|kept| - 1];
      GetPromoted(front);
      var after := seq(|kept|, i requires 0 <= i < |kept| =>
        if kept[i].slot.Draft? then kept[i].(slot := Active) else kept[i]);
      assert after[..|kept| - 1] == seq(|front|, i requires 0 <= i < |front| =>
        if front[i].slot.Draft? then front[i].(slot := Active) else front[i]);
    }
  }

  lemma {:induction false} DeleteLeavesOthers(rows: seq<Row>, slot: Slot)
    ensures forall i | 0 <= i < |Delete(rows, slot)| :: Delete(rows, slot)[i].slot != slot
  {
    if rows != [] {
      DeleteLeavesOthers(rows[..|rows| - 1], slot);
    }
  }

  /** What each handler makes of the draft, of the active row and of the log. */
  predicate Effect(s: State, m: Move, after: State) {
    var draft, active := Get(s.rows, Draft), Get(s.rows, Active);
    var draft', active' := Get(after.rows, Draft), Get(after.rows, Active);
    match m
    case Save(d, categories) =>
      draft' == Some(Row(Draft, d, categories, None)) && active' == active && after.log == s.log
    case TestDraft(delivers, recorded) =>
      && active' == active
      && (draft.None? ==> draft' == None && after.log == s.log)
      && (draft.Some? ==>
            var d := draft.value.destination;
            && after.log == s.log + [Test(d, delivers(d))]
            && draft' == Some(if recorded then draft.value.(tested := Some(delivers(d))) else draft.value))
    case Activate =>
      && after.log == s.log
      && if draft.Some? && draft.value.tested == Some(true)
         then active' == Some(draft.value.(slot := Active)) && draft' == None
         else active' == active && draft' == draft
    case DeleteActive => active' == None && draft' == draft && after.log == s.log
    case DeleteDraft => draft' == None && active' == active && after.log == s.log
    case SetCategories(categories) =>
      && draft' == draft && after.log == s.log
      && active' == if active.None? then None else Some(active.value.(categories := categories))
  }

  lemma StepHasItsEffect(s: State, m: Move)
    ensures Effect(s, m, Step(s, m))
  {
    GetFindsTheRow(s.rows, Draft);
    GetFindsTheRow(s.rows, Active);
    match m
    case Save(d, categories) =>
      SavedDraft(s.rows, d, categories);
    case TestDraft(delivers, recorded) =>
      if Get(s.rows, Draft).Some? {
        RecordedTest(s.rows, delivers(Get(s.rows, Draft).value.destination));
      }
    case Activate =>
      PromotedDraft(s.rows);
    case DeleteActive =>
      GetDeleted(s.rows, Active, Draft);
      GetDeleted(s.rows, Active, Active);
    case DeleteDraft =>
      GetDeleted(s.rows, Draft, Draft);
      GetDeleted(s.rows, Draft, Active);
    case SetCategories(categories) =>
      Recategorised(s.rows, categories);
  }

  lemma Recategorised(rows: seq<Row>, categories: seq<string>)
    ensures Get(WithCategories(rows, categories), Draft) == Get(rows, Draft)
    ensures
      Get(WithCategories(rows, categories), Active) ==
        if Get(rows, Active).None? then None else Some(Get(rows, Active).value.(categories := categories))
  {
    GetFindsTheRow(rows, Draft);
    GetFindsTheRow(rows, Active);
    var f := (r: Row) => if r.slot.Active? then r.(categories := categories) else r;
    assert WithCategories(rows, categories) == seq(|rows|, i requires 0 <= i < |rows| => f(rows[i]));
    GetMapped(rows, f, Draft);
    GetMapped(rows, f, Active);
  }

  lemma SavedDraft(rows: seq<Row>, d: Destination, categories: seq<string>)
    ensures Get(Upsert(rows, d, categories), Draft) == Some(Row(Draft, d, categories, None))
    ensures Get(Upsert(rows, d, categories), Active) == Get(rows, Active)
  {
    GetFindsTheRow(rows, Draft);
    GetFindsTheRow(rows, Active);
    if Occupied(rows, Draft) {
      var f := (r: Row) => Edited(r, d, categories);
      assert Upsert(rows, d, categories) == seq(|rows|, i requires 0 <= i < |rows| => f(rows[i]));
      GetMapped(rows, f, Draft);
      GetMapped(rows, f, Active);
    } else {
      assert (rows + [Row(Draft, d, categories, None)])[..|rows|] == rows;
    }
  }

  lemma RecordedTest(rows: seq<Row>, success: bool)
    ensures
      Get(RecordTest(rows, Draft, success), Draft) ==
        if Get(rows, Draft).None? then None else Some(Get(rows, Draft).value.(tested := Some(success)))
    ensures Get(RecordTest(rows, Draft, success), Active) == Get(rows, Active)
  {
    GetFindsTheRow(rows, Draft);
    GetFindsTheRow(rows, Active);
    var f := (r: Row) => if r.slot == Draft then r.(tested := Some(success)) else r;
    assert RecordTest(rows, Draft, success) == seq(|rows|, i requires 0 <= i < |rows| => f(rows[i]));
    GetMapped(rows, f, Draft);
    GetMapped(rows, f, Active);
  }

  lemma PromotedDraft(rows: seq<Row>)
    ensures Get(Promote(rows), Draft) == None
    ensures
      Get(Promote(rows), Active) ==
        if Get(rows, Draft).None? then None else Some(Get(rows, Draft).value.(slot := Active))
  {
    DeleteLeavesOthers(rows, Active);
    GetDeleted(rows, Active, Draft);
    GetPromoted(Delete(rows, Active));
  }

  class Store {
    var rows: seq<Row>
    var log: seq<Test>

    constructor ()
      ensures Value() == State([], [])
    {
      rows, log := [], [];
    }

    function Value(): State
      reads this
    {
      State(rows, log)
    }

    method SaveConfig(d: Destination, categories: seq<string>, accepts: (Destination, seq<string>) -> bool)
        returns (reply: Reply)
      modifies this
      ensures reply == if accepts(d, categories) then Done else Rejected
      ensures Value() == if reply.Done? then Step(old(Value()), Save(d, categories)) else old(Value())
    {
      if !accepts(d, categories) {
        return Rejected;
      }
      rows := Upsert(rows, d, categories);
      reply := Done;
    }

    /** The update of the draft's test result may fail unnoticed; `recorded` tells whether it took place. */
    method TestNotification(delivers: Destination -> bool, recorded: bool) returns (reply: Reply, success: bool)
      modifies this
      ensures Value() == Step(old(Value()), TestDraft(delivers, recorded))
      ensures reply == if Get(old(rows), Draft).Some? then Done else Missing
      ensures success <==> Get(old(rows), Draft).Some? && delivers(Get(old(rows), Draft).value.destination)
    {
      var draft := Get(rows, Draft);
      if draft.None? {
        return Missing, false;
      }
      success := delivers(draft.value.destination);
      if recorded {
        rows := RecordTest(rows, Draft, success);
      }
      log := log + [Test(draft.value.destination, success)];
      reply := Done;
    }

    method ActivateNotification() returns (reply: Reply)
      modifies this
      ensures Value() == Step(old(Value()), Activate)
      ensures
        var draft := Get(old(rows), Draft);
        reply == if draft.None? then Missing else if draft.value.tested != Some(true) then NotTested else Done
    {
      var draft := Get(rows, Draft);
      if draft.None? {
        return Missing;
      }
      if draft.value.tested != Some(true) {
        return NotTested;
      }
      var kept := Delete(rows, Active);
      rows := seq(|kept|, i requires 0 <= i < |kept| =>
        if kept[i].slot.Draft? then kept[i].(slot := Active) else kept[i]);
      reply := Done;
    }

    method DeleteConfig() returns (deleted: bool)
      modifies this
      ensures Value() == Step(old(Value()), DeleteActive) && deleted == Occupied(old(rows), Active)
    {
      deleted := Occupied(rows, Active);
      rows := Delete(rows, Active);
    }

    method DiscardDraft() returns (deleted: bool)
      modifies this
      ensures Value() == Step(old(Value()), DeleteDraft) && deleted == Occupied(old(rows), Draft)
    {
      deleted := Occupied(rows, Draft);
      rows := Delete(rows, Draft);
    }

    method UpdateCategories(categories: seq<string>, accepts: seq<string> -> bool) returns (reply: Reply)
      modifies this
      ensures reply == if !accepts(categories) then Rejected else if Occupied(old(rows), Active) then Done else Missing
      ensures reply.Done? ==> Value() == Step(old(Value()), SetCategories(categories))
      ensures !reply.Done? ==> Value() == old(Value())
    {
      if !accepts(categories) {
        return Rejected;
      }
      if !Occupied(rows, Active) {
        return Missing;
      }
      rows := WithCategories(rows, categories);
      reply := Done;
    }
  }

  // ---------------------------------------------------------------- invariants over every run

  predicate OneRowPerSlot(rows: seq<Row>) {
    forall i, j | 0 <= i < j < |rows| :: rows[i].slot != rows[j].slot
  }

  predicate Passed(log: seq<Test>, d: Destination) {
    Test(d, true) in log
  }

  /** Recorded passes were made on the very destination of the row, and an active row records one. */
  predicate Honest(s: State) {
    forall i | 0 <= i < |s.rows| ::
      && (s.rows[i].tested == Some(true) ==> Passed(s.log, s.rows[i].destination))
      && (s.rows[i].slot.Active? ==> s.rows[i].tested == Some(true))
  }

  predicate Inv(s: State) {
    OneRowPerSlot(s.rows) && Honest(s)
  }

  lemma {:induction false} DeleteKeepsTheRest(rows: seq<Row>, slot: Slot)
    ensures forall r :: r in Delete(rows, slot) <==> r in rows && r.slot != slot
    ensures OneRowPerSlot(rows) ==> OneRowPerSlot(Delete(rows, slot))
  {
    if rows != [] {
      var front, last := rows[..|rows| - 1], rows[|rows| - 1];
      DeleteKeepsTheRest(front, slot);
      assert rows == front + [last];
      var kept := Delete(front, slot);
      assert forall i | 0 <= i < |kept| :: kept[i] in kept;
    }
  }

  lemma {:induction false} GetFindsTheRow(rows: seq<Row>, slot: Slot)
    ensures Get(rows, slot).Some? <==> Occupied(rows, slot)
    ensures Get(rows, slot).Some? ==> Get(rows, slot).value in rows && Get(rows, slot).value.slot == slot
    ensures OneRowPerSlot(rows) ==> forall r | r in rows && r.slot == slot :: Get(rows, slot) == Some(r)
  {
    if rows != [] {
      GetFindsTheRow(rows[..|rows| - 1], slot);
      assert rows == rows[..|rows| - 1] + [rows[|rows| - 1]];
    }
  }

  lemma SlotsRepeat(rows: seq<Row>, slot: Slot)
    requires |rows| > 1 && forall i | 0 <= i < |rows| :: rows[i].slot == slot
    ensures !OneRowPerSlot(rows)
  {
    assert rows[0].slot == rows[1].slot;
  }

  /** Promotion keeps the table honest exactly when the draft, if any, has passed a test since its last edit. */
  lemma PromoteIsHonestIff(s: State)
    requires Inv(s)
    ensures Inv(s.(rows := Promote(s.rows))) <==> forall r | r in s.rows && r.slot.Draft? :: r.tested == Some(true)
    ensures OneRowPerSlot(Promote(s.rows))
  {
    var kept := Delete(s.rows, Active);
    DeleteKeepsTheRest(s.rows, Active);
    assert forall i | 0 <= i < |kept| :: kept[i] in kept;
    if |kept| > 1 {
      SlotsRepeat(kept, Draft);
    }
    var after := Promote(s.rows);
    forall i | 0 <= i < |kept| ensures after[i] == kept[i].(slot := Active) && kept[i] in s.rows {
      assert kept[i] in kept;
    }
    if r :| r in s.rows && r.slot.Draft? && r.tested != Some(true) {
      assert r in kept;
      assert after[0] == r.(slot := Active);
    }
  }

  /**
   A test result keeps the table honest exactly when the draft it lands on is still the one that was tested, or
   it was a failure, or that destination had passed before. A single handler at a time makes sure of the first.
   */
  lemma RecordIsHonestIff(s: State, tested: Destination, success: bool)
    requires Inv(s)
    ensures
      Inv(State(RecordTest(s.rows, Draft, success), s.log + [Test(tested, success)]))
      <==> (success ==> forall r | r in s.rows && r.slot.Draft? ::
            r.destination == tested || Passed(s.log, r.destination))
  {
    var after := State(RecordTest(s.rows, Draft, success), s.log + [Test(tested, success)]);
    assert forall d :: Passed(after.log, d) <==> Passed(s.log, d) || (success && d == tested);
    assert forall i | 0 <= i < |s.rows| :: s.rows[i] in s.rows;
    if success {
      forall r | r in s.rows && r.slot.Draft? && Inv(after)
        ensures r.destination == tested || Passed(s.log, r.destination)
      {
        var i :| 0 <= i < |s.rows| && s.rows[i] == r;
        assert after.rows[i] == r.(tested := Some(true));
      }
    }
  }

  lemma StepKeepsInv(s: State, m: Move)
    requires Inv(s)
    ensures Inv(Step(s, m))
  {
    GetFindsTheRow(s.rows, Draft);
    match m
    case Save(d, categories) =>
    case TestDraft(delivers, recorded) =>
      var draft := Get(s.rows, Draft);
      if draft.Some? {
        RecordIsHonestIff(s, draft.value.destination, delivers(draft.value.destination));
      }
    case Activate =>
      PromoteIsHonestIff(s);
    case DeleteActive =>
      DeleteKeepsInv(s, Active);
    case DeleteDraft =>
      DeleteKeepsInv(s, Draft);
    case SetCategories(categories) =>
  }

  lemma DeleteKeepsInv(s: State, slot: Slot)
    requires Inv(s)
    ensures Inv(s.(rows := Delete(s.rows, slot)))
  {
    DeleteKeepsTheRest(s.rows, slot);
    var kept := Delete(s.rows, slot);
    forall i | 0 <= i < |kept| ensures exists j :: 0 <= j < |s.rows| && s.rows[j] == kept[i] {
      assert kept[i] in kept;
    }
  }

  function Run(s: State, run: seq<Move>): State
    decreases |run|
  {
    if run == [] then s else Step(Run(s, run[..|run| - 1]), run[|run| - 1])
  }

  /** After any run there is one row per slot at most, and an active row's destination has passed a test. */
  lemma {:induction false} RunKeepsInv(s: State, run: seq<Move>)
    requires Inv(s)
    ensures Inv(Run(s, run))
    decreases |run|
  {
    if run != [] {
      RunKeepsInv(s, run[..|run| - 1]);
      StepKeepsInv(Run(s, run[..|run| - 1]), run[|run| - 1]);
    }
  }

  lemma ActiveDestinationWasTested(run: seq<Move>, r: Row)
    requires r in Run(State([], []), run).rows && r.slot.Active?
    ensures Passed(Run(State([], []), run).log, r.destination)
    ensures forall q | q in Run(State([], []), run).rows && q.slot.Active? :: q == r
  {
    RunKeepsInv(State([], []), run);
  }

  /** Were a save to fall between a test's delivery and its recording, an untested destination could go active. */
  lemma SaveDuringTestGoesUntested(tested: Destination, saved: Destination)
    requires tested != saved
    ensures
      var drafted := Upsert([], tested, []);
      var edited := Upsert(drafted, saved, []);
      var late := State(RecordTest(edited, Draft, true), [Test(tested, true)]);
      var end := Step(late, Activate);
      Get(end.rows, Active) == Some(Row(Active, saved, [], Some(true))) && !Passed(end.log, saved)
  {
    var drafted, edited := [Row(Draft, tested, [], None)], [Row(Draft, saved, [], None)];
    assert Upsert([], tested, []) == drafted;
    assert drafted[0].slot == Draft;
    assert Upsert(drafted, saved, []) == edited;
    assert RecordTest(edited, Draft, true) == [Row(Draft, saved, [], Some(true))];
    LoneDraftGoesActive(Row(Draft, saved, [], Some(true)), [Test(tested, true)]);
  }

  lemma LoneDraftGoesActive(r: Row, log: seq<Test>)
    requires r.slot.Draft? && r.tested == Some(true)
    ensures Get(Step(State([r], log), Activate).rows, Active) == Some(r.(slot := Active))
    ensures Step(State([r], log), Activate).log == log
  {
    var rows := [r];
    assert rows[..0] == [] && Delete(rows, Active) == rows;
    assert Promote(rows) == [r.(slot := Active)];
  }
}
