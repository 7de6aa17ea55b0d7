/**
 The cache-version protocol as a transition system: any number of writers, replicas and admin handlers
 interleave one database statement (or one lock acquisition) at a time.

 A writer commits a row; most writers then bump the counter in a second statement, but those of user rows never do.
 A replica's poll loop reads the counter, records it, reads the keys, reads the e-mails and only then swaps its map.
 */
module CacheCoherence {
  import opened Wrappers
  import opened KeyStore

  type ReplicaId = nat
  type HandlerId = nat

  datatype Write =
    | PutKey(hash: Hash, row: KeyRow)
    | DropKey(hash: Hash)
    | PutUser(id: Uuid, user: User)
    | DropUser(id: Uuid)
    | Unrelated

  /** Where the poll loop of a replica stands; `rowsAt` and `emailsAt` count the writes a finished query saw. */
  datatype Poll =
    | Booting(rowsAt: nat)
    | Booted
    | Idle
    | Polled(seen: nat)
    | Recorded
    | RowsRead(rowsAt: nat)
    | Loaded(rowsAt: nat, emailsAt: nat)

  /**
   A reload in flight inside an admin handler; `late` once the poll loop has recorded a version after its first query.
   */
  datatype AdminLoad = AdminLoad(rowsAt: nat, emailsAt: Option<nat>, late: bool)

  /**
   `recorded` and `cache` are the replica's state. `synced`, `rowsAt` and `emailsAt` only observe it: the map is
   the work of a load that ended after the last recorded version was read, and of the writes that load saw.
   */
  datatype Replica = Replica(recorded: nat, cache: map<Hash, CachedKey>, poll: Poll, admins: map<HandlerId, AdminLoad>,
                             synced: bool, rowsAt: nat, emailsAt: nat)

  /**
   `bumps` gives, for each write that has bumped, the counter value its bump produced; `moments` gives, for each value a
   bump produced, how many writes were committed by then.
   */
  datatype System = System(base: Tables, log: seq<Write>, version: nat, bumps: map<nat, nat>, moments: map<nat, nat>,
                           replicas: map<ReplicaId, Replica>)

  /** One statement of a replica's own startup, poll loop or admin handlers. */
  datatype Move =
    | StartSwap
    | StartVersion(answered: bool)
    | PollRead
    | PollRecord
    | PollRows
    | PollEmails
    | PollFail
    | PollSwap
    | AdminRows(a: HandlerId)
    | AdminEmails(a: HandlerId)
    | AdminSwap(a: HandlerId)
    | AdminInsert(hash: Hash, cached: CachedKey)

  datatype Step =
    | Commit(w: Write)
    | Bump(i: nat)
    | Start(r: ReplicaId)
    | Own(r: ReplicaId, move: Move)

  predicate UserWrite(w: Write) {
    w.PutUser? || w.DropUser?
  }

  function Apply(w: Write, t: Tables): Tables {
    match w
    case PutKey(h, row) => t.(keys := t.keys[h := row])
    case DropKey(h) => t.(keys := t.keys - {h})
    case PutUser(id, user) => t.(users := t.users[id := user])
    case DropUser(id) => t.(users := t.users - {id})
    case Unrelated => t
  }

  /** The tables after the first `n` committed writes. */
  function TablesAt(s: System, n: nat): Tables
    requires n <= |s.log|
  {
    if n == 0 then s.base else Apply(s.log[n - 1], TablesAt(s, n - 1))
  }

  function Current(s: System): Tables {
    TablesAt(s, |s.log|)
  }

  function LoadedView(s: System, rowsAt: nat, emailsAt: nat): map<Hash, CachedKey>
    requires rowsAt <= |s.log| && emailsAt <= |s.log|
  {
    View(TablesAt(s, rowsAt), TablesAt(s, emailsAt))
  }

  // ---------------------------------------------------------------- transitions

  predicate Serving(p: Replica) {
    !p.poll.Booting? && !p.poll.Booted?
  }

  predicate MoveEnabled(s: System, p: Replica, move: Move) {
    match move
    case StartSwap => p.poll.Booting? && p.poll.rowsAt <= |s.log|
    case StartVersion(_) => p.poll.Booted?
    case PollRead => p.poll.Idle?
    case PollRecord => p.poll.Polled?
    case PollRows => p.poll.Recorded?
    case PollEmails => p.poll.RowsRead?
    case PollFail => p.poll.Recorded? || p.poll.RowsRead?
    case PollSwap => p.poll.Loaded? && p.poll.rowsAt <= |s.log| && p.poll.emailsAt <= |s.log|
    case AdminRows(a) => Serving(p) && a !in p.admins
    case AdminEmails(a) => a in p.admins && p.admins[a].emailsAt.None?
    case AdminSwap(a) =>
      a in p.admins && p.admins[a].rowsAt <= |s.log| && p.admins[a].emailsAt.Some?
        && p.admins[a].emailsAt.value <= |s.log|
    case AdminInsert(_, _) => Serving(p)
  }

  predicate Enabled(s: System, step: Step) {
    match step
    case Commit(_) => true
    case Bump(i) => i < |s.log| && i !in s.bumps && !UserWrite(s.log[i])
    case Start(r) => r !in s.replicas
    case Own(r, move) => r in s.replicas && MoveEnabled(s, s.replicas[r], move)
  }

  function Install(s: System, p: Replica, rowsAt: nat, emailsAt: nat, synced: bool): Replica
    requires rowsAt <= |s.log| && emailsAt <= |s.log|
  {
    p.(cache := LoadedView(s, rowsAt, emailsAt), rowsAt := rowsAt, emailsAt := emailsAt, synced := synced)
  }

  function MarkLate(admins: map<HandlerId, AdminLoad>): map<HandlerId, AdminLoad> {
    map a | a in admins :: admins[a].(late := true)
  }

  /** What a step of its own startup, poll loop or admin handlers does to a replica. */
  function MoveReplica(s: System, p: Replica, move: Move): Replica
    requires MoveEnabled(s, p, move)
  {
    match move
    case StartSwap => Install(s, p, p.poll.rowsAt, |s.log|, false).(poll := Booted)
    case StartVersion(answered) =>
      // the keys were loaded first: only a load behind which no bump came is known to be up to date
      p.(recorded := if answered then s.version else 0, poll := Idle,
         synced := !answered || forall v | v in s.moments :: s.moments[v] <= p.rowsAt)
    case PollRead => if s.version > p.recorded then p.(poll := Polled(s.version)) else p
    case PollRecord => p.(recorded := p.poll.seen, poll := Recorded, synced := false, admins := MarkLate(p.admins))
    case PollRows => p.(poll := RowsRead(|s.log|))
    case PollEmails => p.(poll := Loaded(p.poll.rowsAt, |s.log|))
    case PollFail => p.(poll := Idle)
    case PollSwap => Install(s, p, p.poll.rowsAt, p.poll.emailsAt, true).(poll := Idle)
    case AdminRows(a) => p.(admins := p.admins[a := AdminLoad(|s.log|, None, false)])
    case AdminEmails(a) => p.(admins := p.admins[a := p.admins[a].(emailsAt := Some(|s.log|))])
    case AdminSwap(a) =>
      var load := p.admins[a];
      Install(s, p, load.rowsAt, load.emailsAt.value, !load.late).(admins := p.admins - {a})
    case AdminInsert(h, cached) => p.(cache := p.cache[h := cached], synced := false)
  }

  function Do(s: System, step: Step): System
    requires Enabled(s, step)
  {
    match step
    case Commit(w) => s.(log := s.log + [w])
    case Bump(i) =>
      var v := s.version + 1;
      s.(version := v, bumps := s.bumps[i := v], moments := s.moments[v := |s.log|])
    case Start(r) => s.(replicas := s.replicas[r := Replica(0, map[], Booting(|s.log|), map[], false, 0, 0)])
    case Own(r, move) => s.(replicas := s.replicas[r := MoveReplica(s, s.replicas[r], move)])
  }

  predicate ValidRun(s: System, run: seq<Step>)
    decreases |run|
  {
    run == [] || (Enabled(s, run[0]) && ValidRun(Do(s, run[0]), run[1..]))
  }

  function Final(s: System, run: seq<Step>): System
    requires ValidRun(s, run)
    decreases |run|
  {
    if run == [] then s else Final(Do(s, run[0]), run[1..])
  }

  predicate Init(s: System) {
    s.log == [] && s.bumps == map[] && s.moments == map[] && s.replicas == map[]
  }

  // ---------------------------------------------------------------- invariant

  /**
   The first `n` writes include every write committed, by whomever, before a bump that gave a number of at most `v`.
   */
  predicate Covers(s: System, n: nat, v: nat) {
    forall w | w in s.moments && w <= v :: s.moments[w] <= n
  }

  predicate AdminInv(s: System, p: Replica) {
    forall a | a in p.admins ::
      var load := p.admins[a];
      && load.rowsAt <= |s.log|
      && (load.emailsAt.Some? ==> load.rowsAt <= load.emailsAt.value <= |s.log|)
      && (!load.late ==> Covers(s, load.rowsAt, p.recorded))
  }

  predicate PollInv(s: System, p: Replica) {
    match p.poll
    case Booting(n) => p.recorded == 0 && n <= |s.log| && p.admins == map[] && !p.synced
    case Booted =>
      && p.recorded == 0 && p.admins == map[] && !p.synced && p.rowsAt <= p.emailsAt <= |s.log|
      && p.cache == LoadedView(s, p.rowsAt, p.emailsAt)
    case Idle => true
    case Polled(v) => v <= s.version
    case Recorded => true
    case RowsRead(n) => n <= |s.log| && Covers(s, n, p.recorded)
    case Loaded(n, m) => n <= m <= |s.log| && Covers(s, n, p.recorded)
  }

  predicate SyncInv(s: System, p: Replica) {
    p.synced ==>
      && p.rowsAt <= p.emailsAt <= |s.log|
      && Covers(s, p.rowsAt, p.recorded)
      && p.cache == LoadedView(s, p.rowsAt, p.emailsAt)
  }

  predicate ReplicaInv(s: System, p: Replica) {
    p.recorded <= s.version && AdminInv(s, p) && PollInv(s, p) && SyncInv(s, p)
  }

  /** How many writes were committed by the last bump. */
  function LastMoment(s: System): nat {
    if s.version in s.moments then s.moments[s.version] else 0
  }

  predicate MomentsInv(s: System) {
    forall v | v in s.moments :: 1 <= v <= s.version && s.moments[v] <= LastMoment(s) <= |s.log|
  }

  predicate BumpsInv(s: System) {
    forall i | i in s.bumps :: s.bumps[i] in s.moments && i < s.moments[s.bumps[i]]
  }

  predicate Inv(s: System) {
    && MomentsInv(s) && BumpsInv(s)
    && (forall r | r in s.replicas :: ReplicaInv(s, s.replicas[r]))
  }

  lemma {:induction false} HistoryIsStable(s: System, s': System, n: nat)
    requires s.base == s'.base && s.log <= s'.log && n <= |s.log|
    ensures TablesAt(s, n) == TablesAt(s', n)
  {
    if n > 0 {
      HistoryIsStable(s, s', n - 1);
      assert s.log[n - 1] == s'.log[n - 1];
    }
  }

  lemma ViewIsStable(s: System, s': System, p: Replica)
    requires s.base == s'.base && s.log <= s'.log && p.rowsAt <= |s.log| && p.emailsAt <= |s.log|
    ensures LoadedView(s, p.rowsAt, p.emailsAt) == LoadedView(s', p.rowsAt, p.emailsAt)
  {
    HistoryIsStable(s, s', p.rowsAt);
    HistoryIsStable(s, s', p.emailsAt);
  }

  /** A commit or a bump leaves every replica's invariant standing: new bump numbers exceed all recorded versions. */
  lemma WriterStepKeepsReplica(s: System, step: Step, p: Replica)
    requires Inv(s) && (step.Commit? || step.Bump?) && Enabled(s, step) && ReplicaInv(s, p)
    ensures ReplicaInv(Do(s, step), p)
  {
    var s' := Do(s, step);
    forall n: nat, v: nat | v <= s.version && Covers(s, n, v)
      ensures Covers(s', n, v)
    {}
    if p.rowsAt <= |s.log| && p.emailsAt <= |s.log| {
      ViewIsStable(s, s', p);
    }
  }

  lemma MoveKeepsReplica(s: System, p: Replica, move: Move)
    requires Inv(s) && ReplicaInv(s, p) && MoveEnabled(s, p, move)
    ensures ReplicaInv(s, MoveReplica(s, p, move))
  {
    MoveKeepsAdmins(s, p, move);
    MoveKeepsPoll(s, p, move);
    MoveKeepsSync(s, p, move);
  }

  lemma MoveKeepsAdmins(s: System, p: Replica, move: Move)
    requires MomentsInv(s) && ReplicaInv(s, p) && MoveEnabled(s, p, move)
    ensures MoveReplica(s, p, move).recorded <= s.version && AdminInv(s, MoveReplica(s, p, move))
  {}

  lemma MoveKeepsPoll(s: System, p: Replica, move: Move)
    requires MomentsInv(s) && ReplicaInv(s, p) && MoveEnabled(s, p, move)
    ensures PollInv(s, MoveReplica(s, p, move))
  {}

  lemma MoveKeepsSync(s: System, p: Replica, move: Move)
    requires MomentsInv(s) && ReplicaInv(s, p) && MoveEnabled(s, p, move)
    ensures SyncInv(s, MoveReplica(s, p, move))
  {}

  lemma StepKeepsCounting(s: System, step: Step)
    requires MomentsInv(s) && BumpsInv(s) && Enabled(s, step)
    ensures MomentsInv(Do(s, step)) && BumpsInv(Do(s, step))
  {}

  lemma StepKeepsInv(s: System, step: Step)
    requires Inv(s) && Enabled(s, step)
    ensures Inv(Do(s, step))
  {
    var s' := Do(s, step);
    StepKeepsCounting(s, step);
    forall r | r in s'.replicas
      ensures ReplicaInv(s', s'.replicas[r])
    {
      match step
      case Commit(_) => WriterStepKeepsReplica(s, step, s.replicas[r]);
      case Bump(_) => WriterStepKeepsReplica(s, step, s.replicas[r]);
      case Start(q) =>
        if r != q {
          SameDatabase(s, s', s.replicas[r]);
        }
      case Own(q, move) =>
        if r == q {
          MoveKeepsReplica(s, s.replicas[r], move);
        }
        SameDatabase(s, s', s'.replicas[r]);
    }
  }

  /** The invariant of a replica reads the database only, not the other replicas. */
  lemma SameDatabase(s: System, s': System, p: Replica)
    requires s.base == s'.base && s.log == s'.log && s.version == s'.version && s.moments == s'.moments
    requires ReplicaInv(s, p)
    ensures ReplicaInv(s', p)
  {
    forall n: nat, v: nat
      ensures Covers(s, n, v) == Covers(s', n, v)
    {}
    if p.rowsAt <= |s.log| && p.emailsAt <= |s.log| {
      ViewIsStable(s, s', p);
    }
  }

  lemma {:induction false} RunKeepsInv(s: System, run: seq<Step>)
    requires Inv(s) && ValidRun(s, run)
    ensures Inv(Final(s, run))
    decreases |run|
  {
    if run != [] {
      StepKeepsInv(s, run[0]);
      RunKeepsInv(Do(s, run[0]), run[1..]);
    }
  }

  // ---------------------------------------------------------------- coherence

  /** Nothing at all was committed since the last bump. */
  predicate BumpedSinceLastWrite(s: System) {
    |s.log| == LastMoment(s)
  }

  /** Only user rows were written since the last bump. */
  predicate OnlyUsersSinceBump(s: System) {
    forall i | LastMoment(s) <= i < |s.log| :: UserWrite(s.log[i])
  }

  /** No writer stands between its write and its bump; user writes have no bump to come. */
  predicate NoWriterPending(s: System) {
    forall i | 0 <= i < |s.log| && !UserWrite(s.log[i]) :: i in s.bumps
  }

  /**
   Once every writer has bumped, only user writes can have come since the last bump. The converse does not hold: see
   `NextBumpMakesUp`.
   */
  lemma NoWriterPendingLeavesUsers(s: System, run: seq<Step>)
    requires Init(s) && ValidRun(s, run) && NoWriterPending(Final(s, run))
    ensures OnlyUsersSinceBump(Final(s, run))
  {
    RunKeepsInv(s, run);
  }

  /**
   In every run, a synced replica serves the view of two moments of the write history, and neither misses a write that
   was committed before a bump whose number is at most the recorded version. So when the recorded version equals the
   counter, it serves the current view if nothing was committed since the last bump, whether or not each write had a
   bump of its own; and if only user rows were written since, all that it can have missed are user writes.
   */
  lemma Coherence(s: System, run: seq<Step>, r: ReplicaId)
    requires Init(s) && ValidRun(s, run) && r in Final(s, run).replicas && Final(s, run).replicas[r].synced
    ensures
      var t := Final(s, run);
      var p := t.replicas[r];
      && p.recorded <= t.version
      && p.rowsAt <= p.emailsAt <= |t.log|
      && p.cache == LoadedView(t, p.rowsAt, p.emailsAt)
      && (forall v | v in t.moments && v <= p.recorded :: t.moments[v] <= p.rowsAt)
      && (forall i | i in t.bumps && t.bumps[i] <= p.recorded :: i < p.rowsAt)
      && (BumpedSinceLastWrite(t) && p.recorded == t.version ==> p.cache == View(Current(t), Current(t)))
      && (OnlyUsersSinceBump(t) && p.recorded == t.version ==>
          forall i | p.rowsAt <= i < |t.log| :: UserWrite(t.log[i]))
  {
    RunKeepsInv(s, run);
    assert ReplicaInv(Final(s, run), Final(s, run).replicas[r]);
  }

  /** In terms of the rows themselves: which keys a synced replica accepts, and what it knows of each. */
  lemma SyncedReplicaServes(s: System, run: seq<Step>, r: ReplicaId)
    requires Init(s) && ValidRun(s, run) && r in Final(s, run).replicas && Final(s, run).replicas[r].synced
    ensures
      var t := Final(s, run);
      var p := t.replicas[r];
      && p.rowsAt <= p.emailsAt <= |t.log|
      && Serves(p.cache, TablesAt(t, p.rowsAt), TablesAt(t, p.emailsAt))
      && (BumpedSinceLastWrite(t) && p.recorded == t.version ==> Serves(p.cache, Current(t), Current(t)))
  {
    Coherence(s, run, r);
    var t := Final(s, run);
    ViewServes(TablesAt(t, t.replicas[r].rowsAt), TablesAt(t, t.replicas[r].emailsAt));
    ViewServes(Current(t), Current(t));
  }

  lemma {:induction false} UserWritesKeepKeys(s: System, n: nat, m: nat)
    requires n <= m <= |s.log| && forall i | n <= i < m :: UserWrite(s.log[i])
    ensures TablesAt(s, n).keys == TablesAt(s, m).keys
    decreases m
  {
    if n < m {
      UserWritesKeepKeys(s, n, m - 1);
    }
  }

  function UserOf(users: map<Uuid, User>, id: Uuid): Option<string> {
    if id in users && users[id].active then Some(users[id].email) else None
  }

  function EmailIn(users: map<Uuid, User>, id: Uuid): Option<string> {
    if id in users then Some(users[id].email) else None
  }

  /** As seen when the keys were read, when the e-mails were read and now, a user looks the same to this key. */
  predicate OwnerUnchanged(row: KeyRow, atRows: map<Uuid, User>, atEmails: map<Uuid, User>, now: map<Uuid, User>) {
    row.isActive && row.userId.Some? ==>
      var id := row.userId.value;
      && (UserOf(atRows, id).Some? <==> UserOf(now, id).Some?)
      && (UserOf(now, id).Some? ==> EmailIn(atEmails, id) == EmailIn(now, id))
  }

  /**
   User writes are the one thing the counter does not announce: when only user rows were written since the last bump, a
   synced replica at the current version has every key as it is now, and serves the current view if and only if the
   owner of each active key looked the same when the replica loaded as it does now.
   */
  lemma CurrentIffOwnersUnchanged(s: System, run: seq<Step>, r: ReplicaId)
    requires Init(s) && ValidRun(s, run) && r in Final(s, run).replicas && Final(s, run).replicas[r].synced
    requires OnlyUsersSinceBump(Final(s, run)) && Final(s, run).replicas[r].recorded == Final(s, run).version
    ensures
      var t := Final(s, run);
      var p := t.replicas[r];
      && p.rowsAt <= |t.log| && p.emailsAt <= |t.log| && TablesAt(t, p.rowsAt).keys == Current(t).keys
      && (p.cache == View(Current(t), Current(t)) <==>
          forall h | h in Current(t).keys ::
            OwnerUnchanged(Current(t).keys[h], TablesAt(t, p.rowsAt).users, TablesAt(t, p.emailsAt).users,
                           Current(t).users))
  {
    Coherence(s, run, r);
    var t := Final(s, run);
    var p := t.replicas[r];
    UserWritesKeepKeys(t, p.rowsAt, |t.log|);
    ViewsAgreeIff(TablesAt(t, p.rowsAt), TablesAt(t, p.emailsAt), Current(t));
  }

  lemma ViewsAgreeIff(a: Tables, b: Tables, now: Tables)
    requires a.keys == now.keys
    ensures
      View(a, b) == View(now, now) <==>
      forall h | h in now.keys :: OwnerUnchanged(now.keys[h], a.users, b.users, now.users)
  {
    var old', new' := View(a, b), View(now, now);
    forall h | h in now.keys
      ensures OwnerUnchanged(now.keys[h], a.users, b.users, now.users) <==>
              (h in old' <==> h in new') && (h in old' && h in new' ==> old'[h] == new'[h])
    {
      EntryAgreesIff(a, b, now, h);
    }
    if forall h | h in now.keys :: OwnerUnchanged(now.keys[h], a.users, b.users, now.users) {
      assert old'.Keys == new'.Keys;
    }
  }

  lemma EntryAgreesIff(a: Tables, b: Tables, now: Tables, h: Hash)
    requires a.keys == now.keys && h in now.keys
    ensures
      OwnerUnchanged(now.keys[h], a.users, b.users, now.users) <==>
      && (h in View(a, b) <==> h in View(now, now))
      && (h in View(a, b) && h in View(now, now) ==> View(a, b)[h] == View(now, now)[h])
  {}

  /** Moves after which a replica's map may lag behind its recorded version. */
  predicate Unsafe(p: Replica, move: Move) {
    || move.PollFail?
    || move.AdminInsert?
    || (move.AdminSwap? && move.a in p.admins && p.admins[move.a].late)
  }

  predicate CleanRun(s: System, run: seq<Step>, r: ReplicaId)
    requires ValidRun(s, run)
    decreases |run|
  {
    run == [] ||
    (&& (run[0].Own? && run[0].r == r ==> !Unsafe(s.replicas[r], run[0].move))
     && CleanRun(Do(s, run[0]), run[1..], r))
  }

  predicate SyncedOrReloading(s: System, r: ReplicaId) {
    r in s.replicas && Serving(s.replicas[r]) &&
    (s.replicas[r].synced || s.replicas[r].poll.Recorded? || s.replicas[r].poll.RowsRead? || s.replicas[r].poll.Loaded?)
  }

  lemma {:induction false} CleanRunKeepsSync(s: System, run: seq<Step>, r: ReplicaId)
    requires ValidRun(s, run) && CleanRun(s, run, r) && SyncedOrReloading(s, r)
    ensures SyncedOrReloading(Final(s, run), r)
    decreases |run|
  {
    if run != [] {
      CleanRunKeepsSync(Do(s, run[0]), run[1..], r);
    }
  }

  /**
   After one completed reload, a replica whose later reloads all succeed is coherent whenever it is not mid-reload.
   */
  lemma CoherentAfterFirstReload(s: System, before: seq<Step>, after: seq<Step>, r: ReplicaId)
    requires Init(s) && ValidRun(s, before) && Enabled(Final(s, before), Own(r, PollSwap))
    requires
      var loaded := Do(Final(s, before), Own(r, PollSwap));
      && ValidRun(loaded, after) && CleanRun(loaded, after, r)
      && r in Final(loaded, after).replicas && Final(loaded, after).replicas[r].poll.Idle?
    ensures
      var t := Final(Do(Final(s, before), Own(r, PollSwap)), after);
      var p := t.replicas[r];
      && p.synced && (BumpedSinceLastWrite(t) && p.recorded == t.version ==> p.cache == View(Current(t), Current(t)))
      && (OnlyUsersSinceBump(t) && p.recorded == t.version ==>
          forall i | p.rowsAt <= i < |t.log| :: UserWrite(t.log[i]))
  {
    var loaded := Do(Final(s, before), Own(r, PollSwap));
    CleanRunKeepsSync(loaded, after, r);
    ChainIsRun([Final(s, before), loaded], [Own(r, PollSwap)]);
    RunConcat(s, before, [Own(r, PollSwap)]);
    RunConcat(s, before + [Own(r, PollSwap)], after);
    Coherence(s, before + [Own(r, PollSwap)] + after, r);
  }

  lemma {:induction false} RunConcat(s: System, a: seq<Step>, b: seq<Step>)
    requires ValidRun(s, a) && ValidRun(Final(s, a), b)
    ensures ValidRun(s, a + b) && Final(s, a + b) == Final(Final(s, a), b)
    decreases |a|
  {
    if a == [] {
      assert a + b == b;
    } else {
      RunConcat(Do(s, a[0]), a[1..], b);
      assert (a + b)[1..] == a[1..] + b;
    }
  }

  lemma {:induction false} ChainIsRun(states: seq<System>, run: seq<Step>)
    requires |states| == |run| + 1
    requires forall i | 0 <= i < |run| :: Enabled(states[i], run[i]) && states[i + 1] == Do(states[i], run[i])
    ensures ValidRun(states[0], run) && Final(states[0], run) == states[|run|]
    decreases |run|
  {
    if run != [] {
      ChainIsRun(states[1..], run[1..]);
    }
  }

  // ---------------------------------------------------------------- one uninterrupted tick

  /** What one turn of the poll loop makes of the recorded version and the map, given the database's three answers. */
  function Tick(recorded: nat, cache: map<Hash, CachedKey>, version: Option<nat>,
                rows: Option<seq<(Hash, KeyRow)>>, emails: Option<map<Uuid, string>>): (nat, map<Hash, CachedKey>) {
    if version.None? || version.value <= recorded then (recorded, cache)
    else if rows.None? || emails.None? then (version.value, cache)
    else (version.value, Refill(rows.value, emails.value))
  }

  /** The poll loop's own state: `GatewayState::cache_version` and the shared key cache. */
  class PollLoop {
    var cacheVersion: nat
    const keyCache: KeyCache

    constructor (version: nat, cache: KeyCache)
      ensures cacheVersion == version && keyCache == cache
    {
      cacheVersion, keyCache := version, cache;
    }

    method PollOnce(version: Option<nat>, rows: Option<seq<(Hash, KeyRow)>>, emails: Option<map<Uuid, string>>)
      modifies this, keyCache
      ensures (cacheVersion, keyCache.inner) == Tick(old(cacheVersion), old(keyCache.inner), version, rows, emails)
    {
      if version.None? {
        return;
      }
      if version.value > cacheVersion {
        cacheVersion := version.value;
        var _ := keyCache.LoadFromDb(rows, emails);
      }
    }
  }

  function TickRun(r: ReplicaId): seq<Step> {
    [Own(r, PollRead), Own(r, PollRecord), Own(r, PollRows), Own(r, PollEmails), Own(r, PollSwap)]
  }

  function With(s: System, r: ReplicaId, p: Replica): System {
    s.(replicas := s.replicas[r := p])
  }

  lemma DoOwn(s: System, r: ReplicaId, p: Replica, move: Move)
    requires MoveEnabled(With(s, r, p), p, move)
    ensures Enabled(With(s, r, p), Own(r, move))
    ensures Do(With(s, r, p), Own(r, move)) == With(s, r, MoveReplica(With(s, r, p), p, move))
  {
    var q := MoveReplica(With(s, r, p), p, move);
    assert s.replicas[r := p][r := q] == s.replicas[r := q];
  }

  function AfterTick(s: System, p: Replica): Replica {
    Install(s, p.(recorded := s.version, admins := MarkLate(p.admins)), |s.log|, |s.log|, true)
  }

  lemma TickIsRun(s: System, r: ReplicaId)
    requires r in s.replicas && s.replicas[r].poll.Idle? && s.replicas[r].recorded < s.version
    ensures ValidRun(s, TickRun(r)) && Final(s, TickRun(r)) == With(s, r, AfterTick(s, s.replicas[r]))
  {
    var p := s.replicas[r];
    assert s == With(s, r, p);
    var p2 := p.(recorded := s.version, poll := Recorded, synced := false, admins := MarkLate(p.admins));
    TickRecords(s, r, p, p2);
    TickReloads(s, r, p2);
    RunConcat(s, TickRun(r)[..2], TickRun(r)[2..]);
    assert TickRun(r)[..2] + TickRun(r)[2..] == TickRun(r);
  }

  lemma TickRecords(s: System, r: ReplicaId, p: Replica, q: Replica)
    requires p.poll.Idle? && p.recorded < s.version
    requires q == p.(recorded := s.version, poll := Recorded, synced := false, admins := MarkLate(p.admins))
    ensures ValidRun(With(s, r, p), TickRun(r)[..2]) && Final(With(s, r, p), TickRun(r)[..2]) == With(s, r, q)
  {
    var p1 := p.(poll := Polled(s.version));
    DoOwn(s, r, p, PollRead);
    DoOwn(s, r, p1, PollRecord);
    ChainIsRun([With(s, r, p), With(s, r, p1), With(s, r, q)], TickRun(r)[..2]);
  }

  lemma TickReloads(s: System, r: ReplicaId, p: Replica)
    requires p.poll.Recorded?
    ensures ValidRun(With(s, r, p), TickRun(r)[2..])
    ensures Final(With(s, r, p), TickRun(r)[2..]) == With(s, r, Install(s, p, |s.log|, |s.log|, true).(poll := Idle))
  {
    var p3 := p.(poll := RowsRead(|s.log|));
    var p4 := p.(poll := Loaded(|s.log|, |s.log|));
    var p5 := Install(s, p4, |s.log|, |s.log|, true).(poll := Idle);
    DoOwn(s, r, p, PollRows);
    DoOwn(s, r, p3, PollEmails);
    DoOwn(s, r, p4, PollSwap);
    HistoryIsStable(s, With(s, r, p4), |s.log|);
    ChainIsRun([With(s, r, p), With(s, r, p3), With(s, r, p4), With(s, r, p5)], TickRun(r)[2..]);
  }

  /**
   A turn of the loop that nothing interrupts is five protocol steps; whenever the counter has moved it leaves the
   replica serving exactly the view of the tables as they stand.
   */
  lemma TickConverges(s: System, r: ReplicaId, rows: seq<(Hash, KeyRow)>, emails: map<Uuid, string>)
    requires r in s.replicas && s.replicas[r].poll.Idle? && s.replicas[r].recorded < s.version
    requires AnswersKeys(rows, Current(s)) && AnswersEmails(emails, rows, Current(s))
    ensures ValidRun(s, TickRun(r)) && r in Final(s, TickRun(r)).replicas
    ensures
      var p, q := s.replicas[r], Final(s, TickRun(r)).replicas[r];
      && q.poll.Idle? && q.synced
      && (q.recorded, q.cache) == Tick(p.recorded, p.cache, Some(s.version), Some(rows), Some(emails))
      && q.recorded == s.version && q.cache == View(Current(s), Current(s)) && Serves(q.cache, Current(s), Current(s))
  {
    RefillIsView(rows, emails, Current(s), Current(s));
    TickIsRun(s, r);
  }

  /** A turn whose first or second query fails: the version counts as seen, and the map stays what it was. */
  function FailedTickRun(r: ReplicaId, keysRead: bool): seq<Step> {
    if keysRead then [Own(r, PollRead), Own(r, PollRecord), Own(r, PollRows), Own(r, PollFail)]
    else [Own(r, PollRead), Own(r, PollRecord), Own(r, PollFail)]
  }

  lemma FailedTickIsRun(s: System, r: ReplicaId, rows: Option<seq<(Hash, KeyRow)>>, emails: Option<map<Uuid, string>>)
    requires r in s.replicas && s.replicas[r].poll.Idle? && s.replicas[r].recorded < s.version
    requires rows.None? || emails.None?
    ensures ValidRun(s, FailedTickRun(r, rows.Some?)) && r in Final(s, FailedTickRun(r, rows.Some?)).replicas
    ensures
      var p, q := s.replicas[r], Final(s, FailedTickRun(r, rows.Some?)).replicas[r];
      && q.poll.Idle? && !q.synced
      && (q.recorded, q.cache) == Tick(p.recorded, p.cache, Some(s.version), rows, emails) == (s.version, p.cache)
  {
    var p := s.replicas[r];
    assert s == With(s, r, p);
    var q := p.(recorded := s.version, poll := Recorded, synced := false, admins := MarkLate(p.admins));
    var run := FailedTickRun(r, rows.Some?);
    assert run[..2] == TickRun(r)[..2] && run == run[..2] + run[2..];
    TickRecords(s, r, p, q);
    TickFails(s, r, q, rows.Some?);
    RunConcat(s, run[..2], run[2..]);
  }

  lemma TickFails(s: System, r: ReplicaId, p: Replica, keysRead: bool)
    requires p.poll.Recorded?
    ensures
      var run := FailedTickRun(r, keysRead)[2..];
      ValidRun(With(s, r, p), run) && Final(With(s, r, p), run) == With(s, r, p.(poll := Idle))
  {
    var run := FailedTickRun(r, keysRead)[2..];
    var p1, p2 := p.(poll := RowsRead(|s.log|)), p.(poll := Idle);
    if keysRead {
      DoOwn(s, r, p, PollRows);
      DoOwn(s, r, p1, PollFail);
      ChainIsRun([With(s, r, p), With(s, r, p1), With(s, r, p2)], run);
    } else {
      DoOwn(s, r, p, PollFail);
      ChainIsRun([With(s, r, p), With(s, r, p2)], run);
    }
  }

  /** A turn that finds no newer version reads the counter and changes nothing. */
  lemma QuietTickIsRun(s: System, r: ReplicaId, rows: Option<seq<(Hash, KeyRow)>>, emails: Option<map<Uuid, string>>)
    requires r in s.replicas && s.replicas[r].poll.Idle? && s.replicas[r].recorded >= s.version
    ensures ValidRun(s, [Own(r, PollRead)]) && Final(s, [Own(r, PollRead)]) == s
    ensures
      var p := s.replicas[r];
      Tick(p.recorded, p.cache, Some(s.version), rows, emails) == (p.recorded, p.cache)
      == Tick(p.recorded, p.cache, None, rows, emails)
  {
    DoOwn(s, r, s.replicas[r], PollRead);
    assert s == With(s, r, s.replicas[r]);
    ChainIsRun([s, s], [Own(r, PollRead)]);
  }

  /** A startup that nothing interrupts ends up serving the tables; it records the counter, or zero if that fails. */
  lemma StartIsRun(s: System, r: ReplicaId, answered: bool)
    requires r !in s.replicas
    ensures
      var run := [Start(r), Own(r, StartSwap), Own(r, StartVersion(answered))];
      && ValidRun(s, run) && r in Final(s, run).replicas
      && var p := Final(s, run).replicas[r];
         && p.poll.Idle? && p.recorded == (if answered then s.version else 0)
         && Serves(p.cache, Current(s), Current(s))
  {
    var p1 := Replica(0, map[], Booting(|s.log|), map[], false, 0, 0);
    var s1 := With(s, r, p1);
    var p2 := MoveReplica(s1, p1, StartSwap);
    DoOwn(s, r, p1, StartSwap);
    DoOwn(s, r, p2, StartVersion(answered));
    var p3 := MoveReplica(With(s, r, p2), p2, StartVersion(answered));
    ChainIsRun([s, s1, With(s, r, p2), With(s, r, p3)], [Start(r), Own(r, StartSwap), Own(r, StartVersion(answered))]);
    HistoryIsStable(s, s1, |s.log|);
    ViewServes(Current(s), Current(s));
  }

  /** So does an admin handler's reload that nothing interrupts, and it leaves the recorded version alone. */
  lemma AdminReloadIsRun(s: System, r: ReplicaId, a: HandlerId)
    requires r in s.replicas && Serving(s.replicas[r]) && a !in s.replicas[r].admins
    ensures
      var run := [Own(r, AdminRows(a)), Own(r, AdminEmails(a)), Own(r, AdminSwap(a))];
      && ValidRun(s, run) && r in Final(s, run).replicas
      && var p := Final(s, run).replicas[r];
         && p.recorded == s.replicas[r].recorded && p.poll == s.replicas[r].poll
         && Serves(p.cache, Current(s), Current(s))
  {
    var p := s.replicas[r];
    assert s == With(s, r, p);
    var p1 := p.(admins := p.admins[a := AdminLoad(|s.log|, None, false)]);
    var p2 := p.(admins := p.admins[a := AdminLoad(|s.log|, Some(|s.log|), false)]);
    assert p2.admins == p1.admins[a := p1.admins[a].(emailsAt := Some(|s.log|))];
    DoOwn(s, r, p, AdminRows(a));
    DoOwn(s, r, p1, AdminEmails(a));
    DoOwn(s, r, p2, AdminSwap(a));
    var p3 := MoveReplica(With(s, r, p2), p2, AdminSwap(a));
    ChainIsRun([s, With(s, r, p1), With(s, r, p2), With(s, r, p3)],
               [Own(r, AdminRows(a)), Own(r, AdminEmails(a)), Own(r, AdminSwap(a))]);
    HistoryIsStable(s, With(s, r, p2), |s.log|);
    ViewServes(Current(s), Current(s));
  }

  /** What a write makes of the tables, row by row. */
  ghost predicate Writes(w: Write, t: Tables, after: Tables) {
    && (w.PutKey? || w.DropKey? || after.keys == t.keys) && (w.PutUser? || w.DropUser? || after.users == t.users)
    && (w.PutKey? || w.DropKey? ==>
          && (w.hash in after.keys <==> w.PutKey?) && (w.PutKey? ==> after.keys[w.hash] == w.row)
          && forall h | h != w.hash ::
            (h in after.keys <==> h in t.keys) && (h in t.keys ==> after.keys[h] == t.keys[h]))
    && (w.PutUser? || w.DropUser? ==>
          && (w.id in after.users <==> w.PutUser?) && (w.PutUser? ==> after.users[w.id] == w.user)
          && forall id | id != w.id ::
            (id in after.users <==> id in t.users) && (id in t.users ==> after.users[id] == t.users[id]))
  }

  lemma ApplyWrites(w: Write, t: Tables)
    ensures Writes(w, t, Apply(w, t))
  {}

  /**
   Once a write is followed by a bump, its own or another's, the next turn of any replica that is not reloading serves
   the tables with that write made: a created key is accepted, a deleted one is not, a user's change shows.
   */
  lemma AnnouncedWriteIsServed(s: System, w: Write, i: nat, r: ReplicaId) returns (after: Tables)
    requires r in s.replicas && s.replicas[r].poll.Idle? && s.replicas[r].recorded <= s.version
    requires Enabled(Do(s, Commit(w)), Bump(i))
    ensures Writes(w, Current(s), after)
    ensures ValidRun(s, [Commit(w), Bump(i)] + TickRun(r)) && r in Final(s, [Commit(w), Bump(i)] + TickRun(r)).replicas
    ensures Serves(Final(s, [Commit(w), Bump(i)] + TickRun(r)).replicas[r].cache, after, after)
  {
    var s1 := Do(s, Commit(w));
    var s2 := Do(s1, Bump(i));
    ChainIsRun([s, s1, s2], [Commit(w), Bump(i)]);
    TickIsRun(s2, r);
    RunConcat(s, [Commit(w), Bump(i)], TickRun(r));
    after := Current(s2);
    HistoryIsStable(s, s2, |s.log|);
    assert after == Apply(w, Current(s));
    ApplyWrites(w, Current(s));
    ViewServes(after, after);
  }

  /** Steps that can disturb an idle replica whose recorded version equals the counter. */
  predicate Disturbs(step: Step, r: ReplicaId) {
    step.Bump? || (step.Own? && step.r == r && !step.move.PollRead?)
  }

  /**
   Nothing but a later bump or an admin handler repairs a map the poll loop failed to reload: the loop itself stays put.
   */
  lemma {:induction false} StaleUntilNextBump(s: System, run: seq<Step>, r: ReplicaId)
    requires ValidRun(s, run) && r in s.replicas && s.replicas[r].poll.Idle? && s.replicas[r].recorded == s.version
    requires forall i | 0 <= i < |run| :: !Disturbs(run[i], r)
    ensures r in Final(s, run).replicas && Final(s, run).replicas[r] == s.replicas[r]
    decreases |run|
  {
    if run != [] {
      assert !Disturbs(run[0], r);
      StaleUntilNextBump(Do(s, run[0]), run[1..], r);
    }
  }

  // ---------------------------------------------------------------- the boundaries are real

  /** Idle, up to date by its own counter, no writer pending, and still serving something else than the current view. */
  predicate Lagging(s: System, r: ReplicaId) {
    && NoWriterPending(s) && r in s.replicas && s.replicas[r].poll.Idle? && s.replicas[r].recorded == s.version
    && s.replicas[r].cache != View(Current(s), Current(s))
  }

  /** Lagging although the last write was announced by a bump. */
  predicate Stale(s: System, r: ReplicaId) {
    Lagging(s, r) && BumpedSinceLastWrite(s)
  }

  const KEY: KeyRow := KeyRow(1, None, None, None, None, true)
  const ONE_KEY: Tables := Tables(map["k" := KEY], map[])
  const CACHED: CachedKey := CachedKey(1, None, None, None, None, None)

  const STARTED: System := System(ONE_KEY, [], 0, map[], map[],
                                  map[0 := Replica(0, map["k" := CACHED], Idle, map[], true, 0, 0)])

  /** A database holding the single key "k", no write yet, and one replica that has just started. */
  lemma Started() returns (s: System, run: seq<Step>, t: System)
    ensures Init(s) && ValidRun(s, run) && Final(s, run) == t
    ensures t == STARTED
  {
    s := System(ONE_KEY, [], 0, map[], map[], map[]);
    run := [Start(0), Own(0, StartSwap), Own(0, StartVersion(true))];
    var s1 := Do(s, run[0]);
    var s2 := Do(s1, run[1]);
    assert View(ONE_KEY, ONE_KEY) == map["k" := CACHED];
    t := Do(s2, run[2]);
    ChainIsRun([s, s1, s2, t], run);
  }

  const BOOTED: Replica := Replica(0, map["k" := CACHED], Booted, map[], false, 0, 0)

  lemma KeysLoaded() returns (s: System, run: seq<Step>, t: System)
    ensures Init(s) && ValidRun(s, run) && Final(s, run) == t
    ensures t == System(ONE_KEY, [], 0, map[], map[], map[0 := BOOTED])
  {
    s := System(ONE_KEY, [], 0, map[], map[], map[]);
    run := [Start(0), Own(0, StartSwap)];
    var s1 := Do(s, run[0]);
    assert View(ONE_KEY, ONE_KEY) == map["k" := CACHED];
    t := Do(s1, run[1]);
    ChainIsRun([s, s1, t], run);
  }

  lemma StartupRaceTail(t: System, tail: seq<Step>) returns (v: System)
    requires t == System(ONE_KEY, [], 0, map[], map[], map[0 := BOOTED])
    requires tail == [Commit(DropKey("k")), Bump(0), Own(0, StartVersion(true))]
    ensures ValidRun(t, tail) && Final(t, tail) == v
    ensures KeyDropped(v) && 0 in v.replicas
    ensures v.replicas[0].poll.Idle? && v.replicas[0].recorded == 1 && v.replicas[0].cache == map["k" := CACHED]
  {
    var s1 := Do(t, tail[0]);
    var s2 := Do(s1, tail[1]);
    v := Do(s2, tail[2]);
    ChainIsRun([t, s1, s2, v], tail);
  }

  /** Startup loads the keys before it reads the version, so a write that commits and bumps in between is lost. */
  lemma StartupRaceIsStale() returns (s: System, run: seq<Step>)
    ensures Init(s) && ValidRun(s, run) && Stale(Final(s, run), 0)
  {
    var head, t;
    s, head, t := KeysLoaded();
    var tail := [Commit(DropKey("k")), Bump(0), Own(0, StartVersion(true))];
    var v := StartupRaceTail(t, tail);
    RunConcat(s, head, tail);
    run := head + tail;
    ServingDroppedIsStale(v, 0);
  }

  const OWNED: KeyRow := KeyRow(1, None, Some(5), None, None, true)
  const OWNED_KEY: Tables := Tables(map["k" := OWNED], map[5 := User("u", true)])

  lemma ServingDeactivatedLags(s: System, r: ReplicaId)
    requires s.base == OWNED_KEY && s.log == [PutUser(5, User("u", false))] && s.version == 0
    requires r in s.replicas && s.replicas[r].poll.Idle? && s.replicas[r].recorded == 0 && "k" in s.replicas[r].cache
    ensures Lagging(s, r)
  {
    assert TablesAt(s, 0) == OWNED_KEY;
    assert Current(s) == Apply(PutUser(5, User("u", false)), OWNED_KEY);
    assert !Active(OWNED, Current(s).users) && Current(s).keys["k"] == OWNED;
    assert "k" !in View(Current(s), Current(s));
  }

  /**
   Deactivating a user writes a row and bumps nothing, so the counter stands still and no replica reloads: one that is
   synced, idle and up to date by its own counter serves the user's key on, with no writer left to bump.
   */
  lemma UserWriteGoesUnnoticed() returns (s: System, run: seq<Step>)
    ensures Init(s) && ValidRun(s, run) && Lagging(Final(s, run), 0) && Final(s, run).replicas[0].synced
  {
    s := System(OWNED_KEY, [], 0, map[], map[], map[]);
    run := [Start(0), Own(0, StartSwap), Own(0, StartVersion(true)), Commit(PutUser(5, User("u", false)))];
    var s1 := Do(s, run[0]);
    var s2 := Do(s1, run[1]);
    assert "k" in s2.replicas[0].cache;
    var s3 := Do(s2, run[2]);
    var s4 := Do(s3, run[3]);
    ChainIsRun([s, s1, s2, s3, s4], run);
    ServingDeactivatedLags(s4, 0);
  }

  /** The run of a key's deletion, as the database sees it. */
  predicate KeyDropped(s: System) {
    s.base == ONE_KEY && s.log == [DropKey("k")] && s.version == 1 && s.bumps == map[0 := 1] && s.moments == map[1 := 1]
  }

  /** To have served "k" at the current version is to have missed its deletion. */
  lemma ServingDroppedIsStale(s: System, r: ReplicaId)
    requires KeyDropped(s) && r in s.replicas && s.replicas[r].poll.Idle? && s.replicas[r].recorded == 1
    requires "k" in s.replicas[r].cache
    ensures Stale(s, r)
  {
    assert "k" !in View(Current(s), Current(s));
  }

  /** A writer whose own bump never comes is pending for good, yet the next writer's bump announces its write. */
  lemma NextBumpMakesUp() returns (s: System, run: seq<Step>)
    ensures Init(s) && ValidRun(s, run) && !NoWriterPending(Final(s, run))
    ensures BumpedSinceLastWrite(Final(s, run)) && OnlyUsersSinceBump(Final(s, run))
  {
    s := System(ONE_KEY, [], 0, map[], map[], map[]);
    run := [Commit(PutKey("n", KEY)), Commit(Unrelated), Bump(1)];
    var s1 := Do(s, run[0]);
    var s2 := Do(s1, run[1]);
    var s3 := Do(s2, run[2]);
    ChainIsRun([s, s1, s2, s3], run);
    assert !UserWrite(s3.log[0]) && 0 !in s3.bumps;
  }

  lemma DropRun() returns (t: System)
    ensures ValidRun(STARTED, [Commit(DropKey("k")), Bump(0)]) && Final(STARTED, [Commit(DropKey("k")), Bump(0)]) == t
    ensures KeyDropped(t) && t.replicas == STARTED.replicas
  {
    var run := [Commit(DropKey("k")), Bump(0)];
    var s1 := Do(STARTED, run[0]);
    t := Do(s1, run[1]);
    ChainIsRun([STARTED, s1, t], run);
  }

  lemma FailedReloadTail(t: System, tail: seq<Step>) returns (v: System)
    requires KeyDropped(t) && t.replicas == STARTED.replicas
    requires tail == [Own(0, PollRead), Own(0, PollRecord), Own(0, PollFail)]
    ensures ValidRun(t, tail) && Final(t, tail) == v
    ensures KeyDropped(v) && 0 in v.replicas
    ensures v.replicas[0].poll.Idle? && v.replicas[0].recorded == 1 && v.replicas[0].cache == map["k" := CACHED]
  {
    var s1 := Do(t, tail[0]);
    var s2 := Do(s1, tail[1]);
    v := Do(s2, tail[2]);
    ChainIsRun([t, s1, s2, v], tail);
  }

  /** The version is recorded before the reload, so a reload that fails is not tried again. */
  lemma FailedReloadIsStale() returns (s: System, run: seq<Step>)
    ensures Init(s) && ValidRun(s, run) && Stale(Final(s, run), 0)
  {
    var start, started;
    s, start, started := Started();
    var drop := [Commit(DropKey("k")), Bump(0)];
    var t := DropRun();
    RunConcat(s, start, drop);
    var tail := [Own(0, PollRead), Own(0, PollRecord), Own(0, PollFail)];
    var v := FailedReloadTail(t, tail);
    RunConcat(s, start + drop, tail);
    run := start + drop + tail;
    ServingDroppedIsStale(v, 0);
  }

  /** Any run from the started state with one uninterrupted tick in its middle is a run from the initial state. */
  lemma AroundTick(head: seq<Step>, tail: seq<Step>, u: System, v: System) returns (s: System, run: seq<Step>)
    requires ValidRun(STARTED, head) && Final(STARTED, head) == u
    requires 0 in u.replicas && u.replicas[0].poll.Idle? && u.replicas[0].recorded < u.version
    requires var w := With(u, 0, AfterTick(u, u.replicas[0])); ValidRun(w, tail) && Final(w, tail) == v
    ensures Init(s) && ValidRun(s, run) && Final(s, run) == v
  {
    var start, t';
    s, start, t' := Started();
    RunConcat(s, start, head);
    TickIsRun(u, 0);
    RunConcat(s, start + head, TickRun(0));
    RunConcat(s, start + head + TickRun(0), tail);
    run := start + head + TickRun(0) + tail;
  }

  lemma LateAdminHead(head: seq<Step>, u: System)
    requires head == [Own(0, AdminRows(7)), Commit(DropKey("k")), Bump(0)]
    requires u == System(ONE_KEY, [DropKey("k")], 1, map[0 := 1], map[1 := 1],
                         map[0 := Replica(0, map["k" := CACHED], Idle, map[7 := AdminLoad(0, None, false)],
                                          true, 0, 0)])
    ensures ValidRun(STARTED, head) && Final(STARTED, head) == u
  {
    var s1 := Do(STARTED, head[0]);
    var s2 := Do(s1, head[1]);
    var s3 := Do(s2, head[2]);
    ChainIsRun([STARTED, s1, s2, s3], head);
  }

  lemma LateAdminTail(tail: seq<Step>, w: System) returns (v: System)
    requires tail == [Own(0, AdminEmails(7)), Own(0, AdminSwap(7))]
    requires KeyDropped(w) && 0 in w.replicas
    requires w.replicas[0].poll.Idle? && w.replicas[0].recorded == 1
      && w.replicas[0].admins == map[7 := AdminLoad(0, None, true)]
    ensures ValidRun(w, tail) && Final(w, tail) == v && Stale(v, 0)
  {
    var s1 := Do(w, tail[0]);
    assert TablesAt(s1, 0) == ONE_KEY && "k" in View(ONE_KEY, TablesAt(s1, 1));
    v := Do(s1, tail[1]);
    ChainIsRun([w, s1, v], tail);
    ServingDroppedIsStale(v, 0);
  }

  /** An admin handler's reload that straddles a completed poll reload puts an older snapshot back. */
  lemma LateAdminReloadIsStale() returns (s: System, run: seq<Step>)
    ensures Init(s) && ValidRun(s, run) && Stale(Final(s, run), 0)
  {
    var head := [Own(0, AdminRows(7)), Commit(DropKey("k")), Bump(0)];
    var u := System(ONE_KEY, [DropKey("k")], 1, map[0 := 1], map[1 := 1],
                    map[0 := Replica(0, map["k" := CACHED], Idle, map[7 := AdminLoad(0, None, false)], true, 0, 0)]);
    LateAdminHead(head, u);
    var tail := [Own(0, AdminEmails(7)), Own(0, AdminSwap(7))];
    var v := LateAdminTail(tail, With(u, 0, AfterTick(u, u.replicas[0])));
    s, run := AroundTick(head, tail, u, v);
  }

  lemma AdminInsertHead(head: seq<Step>, u: System)
    requires head == [Commit(PutKey("n", KEY)), Bump(0), Commit(DropKey("n")), Bump(1)]
    requires u == System(ONE_KEY, [PutKey("n", KEY), DropKey("n")], 2, map[0 := 1, 1 := 2], map[1 := 1, 2 := 2],
                         STARTED.replicas)
    ensures ValidRun(STARTED, head) && Final(STARTED, head) == u
  {
    var s1 := Do(STARTED, head[0]);
    var s2 := Do(s1, head[1]);
    var s3 := Do(s2, head[2]);
    var s4 := Do(s3, head[3]);
    ChainIsRun([STARTED, s1, s2, s3, s4], head);
  }

  /** The direct insert after a key is created can resurrect a key that was revoked meanwhile. */
  lemma AdminInsertIsStale() returns (s: System, run: seq<Step>)
    ensures Init(s) && ValidRun(s, run) && Stale(Final(s, run), 0)
  {
    var head := [Commit(PutKey("n", KEY)), Bump(0), Commit(DropKey("n")), Bump(1)];
    var u := System(ONE_KEY, [PutKey("n", KEY), DropKey("n")], 2, map[0 := 1, 1 := 2], map[1 := 1, 2 := 2],
                    STARTED.replicas);
    AdminInsertHead(head, u);
    var w := With(u, 0, AfterTick(u, u.replicas[0]));
    var tail := [Own(0, AdminInsert("n", CACHED))];
    var v := Do(w, tail[0]);
    assert "n" in v.replicas[0].cache && "n" !in View(Current(v), Current(v));
    ChainIsRun([w, v], tail);
    s, run := AroundTick(head, tail, u, v);
  }
}
