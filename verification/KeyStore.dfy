/** The virtual-key tables, the view the gateway serves from them, and the in-memory cache of that view. */
module KeyStore {
  import opened Wrappers

  type Uuid = nat
  type Hash = string

  datatype KeyRow = KeyRow(id: Uuid, name: Option<string>, userId: Option<Uuid>, teamId: Option<Uuid>,
                           rpm: Option<int>, isActive: bool)
  datatype User = User(email: string, active: bool)
  datatype CachedKey = CachedKey(id: Uuid, name: Option<string>, userId: Option<Uuid>, userEmail: Option<string>,
                                 teamId: Option<Uuid>, rpm: Option<int>)

  /** `key_hash` is UNIQUE, so the key table is a map from it. */
  datatype Tables = Tables(keys: map<Hash, KeyRow>, users: map<Uuid, User>)

  /** The WHERE clause of the active-key query; a dangling user id joins to NULL and is not active. */
  predicate Active(row: KeyRow, users: map<Uuid, User>) {
    row.isActive && (row.userId.None? || (row.userId.value in users && users[row.userId.value].active))
  }

  function ToCached(row: KeyRow, emails: map<Uuid, string>): CachedKey {
    CachedKey(row.id, row.name, row.userId,
              if row.userId.Some? && row.userId.value in emails then Some(emails[row.userId.value]) else None,
              row.teamId, row.rpm)
  }

  function EmailsOf(users: map<Uuid, User>): map<Uuid, string> {
    map id | id in users :: users[id].email
  }

  /** What a load leaves in memory when the keys are read from `t` and the e-mails from the later tables `t'`. */
  function View(t: Tables, t': Tables): map<Hash, CachedKey> {
    map h | h in t.keys && Active(t.keys[h], t.users) :: ToCached(t.keys[h], EmailsOf(t'.users))
  }

  /** The cached entry of a key, field by field: the row's own values, and the e-mail of its owner if there is one. */
  predicate Mirrors(e: CachedKey, row: KeyRow, users: map<Uuid, User>) {
    && e.id == row.id && e.name == row.name && e.userId == row.userId && e.teamId == row.teamId && e.rpm == row.rpm
    && (e.userEmail.Some? <==> row.userId.Some? && row.userId.value in users)
    && (e.userEmail.Some? ==> e.userEmail.value == users[row.userId.value].email)
  }

  /**
   A map serves the keys of `t` with the e-mails of `t'`: those keys that are active and have no owner or an active one,
   and for each an entry that mirrors its row.
   */
  predicate Serves(cache: map<Hash, CachedKey>, t: Tables, t': Tables) {
    && (forall h | h in cache :: h in t.keys && Mirrors(cache[h], t.keys[h], t'.users))
    && (forall h | h in t.keys ::
        h in cache <==>
          && t.keys[h].isActive
          && (t.keys[h].userId.Some? ==>
                t.keys[h].userId.value in t.users && t.users[t.keys[h].userId.value].active))
  }

  lemma ViewServes(t: Tables, t': Tables)
    ensures Serves(View(t, t'), t, t')
  {}

  /** No other map serves the same. */
  lemma ServesDetermines(a: map<Hash, CachedKey>, b: map<Hash, CachedKey>, t: Tables, t': Tables)
    requires Serves(a, t, t') && Serves(b, t, t')
    ensures a == b
  {
    forall h ensures (h in a <==> h in b) && (h in a && h in b ==> a[h] == b[h]) {}
    assert a.Keys == b.Keys;
  }

  /** `rows` is a possible answer, in any order, of the active-key query on `t`. */
  ghost predicate AnswersKeys(rows: seq<(Hash, KeyRow)>, t: Tables) {
    && (forall i | 0 <= i < |rows| ::
        rows[i].0 in t.keys && rows[i].1 == t.keys[rows[i].0] && Active(rows[i].1, t.users))
    && (forall h | h in t.keys && Active(t.keys[h], t.users) :: exists i :: 0 <= i < |rows| && rows[i].0 == h)
  }

  /** `emails` is the answer of the e-mail query for the users named in `rows`. */
  ghost predicate AnswersEmails(emails: map<Uuid, string>, rows: seq<(Hash, KeyRow)>, t: Tables) {
    && (forall id | id in emails :: id in t.users && emails[id] == t.users[id].email)
    && (forall i | 0 <= i < |rows| && rows[i].1.userId.Some? && rows[i].1.userId.value in t.users ::
          rows[i].1.userId.value in emails)
  }

  function Refill(rows: seq<(Hash, KeyRow)>, emails: map<Uuid, string>): map<Hash, CachedKey> {
    if rows == [] then map[]
    else
      var last := rows[|rows| - 1];
      Refill(rows[..|rows| - 1], emails)[last.0 := ToCached(last.1, emails)]
  }

  lemma {:induction false} RefillEntries(rows: seq<(Hash, KeyRow)>, emails: map<Uuid, string>, t: Tables)
    requires forall i | 0 <= i < |rows| :: rows[i].0 in t.keys && rows[i].1 == t.keys[rows[i].0]
    ensures forall h :: h in Refill(rows, emails) <==> exists i :: 0 <= i < |rows| && rows[i].0 == h
    ensures forall h | h in Refill(rows, emails) ::
      h in t.keys && Refill(rows, emails)[h] == ToCached(t.keys[h], emails)
  {
    if rows != [] {
      var front, last := rows[..|rows| - 1], rows[|rows| - 1];
      RefillEntries(front, emails, t);
      forall h
        ensures h in Refill(rows, emails) <==> exists i :: 0 <= i < |rows| && rows[i].0 == h
      {
        if exists i :: 0 <= i < |rows| && rows[i].0 == h {
          var i :| 0 <= i < |rows| && rows[i].0 == h;
          assert i < |front| ==> front[i].0 == h;
        }
        if h in Refill(front, emails) {
          var i :| 0 <= i < |front| && front[i].0 == h;
          assert rows[i].0 == h;
        }
        assert rows[|rows| - 1].0 == last.0;
      }
    }
  }

  /** Whatever order the database answers in, a load installs exactly the view. */
  lemma RefillIsView(rows: seq<(Hash, KeyRow)>, emails: map<Uuid, string>, t: Tables, t': Tables)
    requires AnswersKeys(rows, t) && AnswersEmails(emails, rows, t')
    ensures Refill(rows, emails) == View(t, t') && Serves(Refill(rows, emails), t, t')
  {
    ViewServes(t, t');
    var r, v := Refill(rows, emails), View(t, t');
    forall h
      ensures (h in r <==> h in v) && (h in r ==> r[h] == v[h])
    {
      RefillEntryIsView(rows, emails, t, t', h);
    }
    assert r.Keys == v.Keys;
  }

  lemma RefillEntryIsView(rows: seq<(Hash, KeyRow)>, emails: map<Uuid, string>, t: Tables, t': Tables, h: Hash)
    requires AnswersKeys(rows, t) && AnswersEmails(emails, rows, t')
    ensures h in Refill(rows, emails) <==> h in View(t, t')
    ensures h in Refill(rows, emails) ==> Refill(rows, emails)[h] == View(t, t')[h]
  {
    RefillEntries(rows, emails, t);
    if h in Refill(rows, emails) {
      var i :| 0 <= i < |rows| && rows[i].0 == h;
      assert rows[i].1 == t.keys[h];
    }
  }

  /** The shared map of `auth::KeyCache`. */
  class KeyCache {
    var inner: map<Hash, CachedKey>

    constructor ()
      ensures inner == map[]
    {
      inner := map[];
    }

    /** Both queries run before the map is touched, so a failing query leaves it as it was. */
    method LoadFromDb(rows: Option<seq<(Hash, KeyRow)>>, emails: Option<map<Uuid, string>>) returns (r: Result<nat, ()>)
      modifies this
      ensures r.Ok? <==> rows.Some? && emails.Some?
      ensures r.Ok? ==> r.value == |rows.value| && inner == Refill(rows.value, emails.value)
      ensures r.Err? ==> inner == old(inner)
      ensures r.Ok? ==> forall t, t' | AnswersKeys(rows.value, t) && AnswersEmails(emails.value, rows.value, t') ::
        Serves(inner, t, t')
    {
      if rows.None? || emails.None? {
        return Err(());
      }
      inner := map[];
      for i := 0 to |rows.value|
        invariant inner == Refill(rows.value[..i], emails.value)
      {
        var row := rows.value[i];
        inner := inner[row.0 := ToCached(row.1, emails.value)];
        assert rows.value[..i + 1][..i] == rows.value[..i];
      }
      assert rows.value[..|rows.value|] == rows.value;
      r := Ok(|rows.value|);
      forall t, t' | AnswersKeys(rows.value, t) && AnswersEmails(emails.value, rows.value, t')
        ensures Serves(Refill(rows.value, emails.value), t, t')
      {
        RefillIsView(rows.value, emails.value, t, t');
      }
    }

    method Insert(hash: Hash, cached: CachedKey)
      modifies this
      ensures inner == old(inner)[hash := cached]
    {
      inner := inner[hash := cached];
    }
  }
}
