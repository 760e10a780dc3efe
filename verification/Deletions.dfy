/** Deletions in the repository's schema: which ones the database refuses, what goes with the deleted rows, and what
    stays. */
module Deletions {
  import opened Wrappers
  import opened Records
  import opened Store
  import opened Runs
  import opened Soundness
  import opened Effects
  import opened Outcomes
  import opened Repository

  // ---- the actions of the foreign keys ----

  /** The foreign keys that refuse the deletion of the row that they name. */
  ghost predicate Holds(r: Reference) {
    || r == Reference("api_keys", "user_api_keys", "users", NoAction)
    || r == Reference("departments", "user_departments", "users", NoAction)
    || r == Reference("members", "user_members", "users", NoAction)
    || r == Reference("user_identities", "user_identities", "users", NoAction)
    || r == Reference("user_subscriptions", "user_subscriptions", "users", NoAction)
    || r == Reference("user_subscriptions", "group_subscriptions", "groups", NoAction)
  }

  const HOLDING := [4, 8, 10, 16, 17, 18]

  lemma HoldingFirst()
    ensures REFERENCES[4] == Reference("api_keys", "user_api_keys", "users", NoAction)
    ensures REFERENCES[8] == Reference("departments", "user_departments", "users", NoAction)
    ensures REFERENCES[10] == Reference("members", "user_members", "users", NoAction)
  {
  }

  lemma HoldingLast()
    ensures REFERENCES[16] == Reference("user_identities", "user_identities", "users", NoAction)
    ensures REFERENCES[17] == Reference("user_subscriptions", "group_subscriptions", "groups", NoAction)
    ensures REFERENCES[18] == Reference("user_subscriptions", "user_subscriptions", "users", NoAction)
  {
  }

  lemma Actions(k: nat)
    requires k < |REFERENCES|
    ensures REFERENCES[k].onDelete == if k == 5 then Cascade else if k in HOLDING then NoAction else SetNull
  {
  }

  lemma HoldingAt(r: Reference)
    ensures |REFERENCES| == 19
    ensures Holds(r) <==> r == REFERENCES[4] || r == REFERENCES[8] || r == REFERENCES[10] || r == REFERENCES[16]
                          || r == REFERENCES[17] || r == REFERENCES[18]
  {
    assert |REFERENCES| == 19;
    hide REFERENCES;
    HoldingFirst();
    HoldingLast();
  }

  lemma HoldingIs(r: Reference)
    ensures r in REFERENCES && r.onDelete.NoAction? <==> Holds(r)
  {
    hide REFERENCES, Holds;
    HoldingAt(r);
    forall k | 0 <= k < 19 ensures REFERENCES[k].onDelete.NoAction? <==> k in HOLDING {
      Actions(k);
    }
    if r in REFERENCES {
      var k :| 0 <= k < |REFERENCES| && REFERENCES[k] == r;
    }
  }

  lemma CascadeIs(r: Reference)
    ensures r in REFERENCES && r.onDelete.Cascade? <==>
        r == Reference("account_events", "account_events", "accounts", Cascade)
  {
    EventsReference();
    if r in REFERENCES {
      var k :| 0 <= k < |REFERENCES| && REFERENCES[k] == r;
      Actions(k);
    }
  }

  lemma NotNullFirst(k: nat)
    requires k < 10
    ensures (REFERENCES[k].table, REFERENCES[k].column) in NOT_NULL <==> k in {4, 5, 8}
  {
  }

  lemma NotNullLast(k: nat)
    requires 10 <= k < 19
    ensures (REFERENCES[k].table, REFERENCES[k].column) in NOT_NULL <==> k in {10, 16, 17, 18}
  {
  }

  /** A foreign key is set to NULL when the row that it names is deleted, exactly if it may be NULL. */
  lemma NullableIs(r: Reference)
    requires r in REFERENCES
    ensures (r.table, r.column) in NOT_NULL <==> !r.onDelete.SetNull?
  {
    assert |REFERENCES| == 19;
    hide REFERENCES, NOT_NULL;
    var k :| 0 <= k < |REFERENCES| && REFERENCES[k] == r;
    Actions(k);
    if k < 10 {
      NotNullFirst(k);
    } else {
      NotNullLast(k);
    }
  }

  lemma NoneToEvents(k: nat)
    requires k < |REFERENCES|
    ensures REFERENCES[k].target != "account_events"
  {
  }

  lemma OneLevelOK(d: Defaults)
    ensures OneLevel(SchemaOf(d))
  {
    hide REFERENCES, RulesOf;
    forall r, q | r in REFERENCES && q in REFERENCES && r.onDelete.Cascade? ensures q.target != r.table {
      CascadeIs(r);
      var k :| 0 <= k < |REFERENCES| && REFERENCES[k] == q;
      NoneToEvents(k);
    }
  }

  // ---- which deletions are refused ----

  /** Some row of the table names one of the ids. */
  ghost predicate Names(s: State, table: string, column: string, ids: set<int>) {
    exists row <- RowsIn(s, table) :: CellAt(row, column).Int? && CellAt(row, column).i in ids
  }

  /** Some row would be left without the user or group that it requires. */
  ghost predicate Held(s: State, entity: string, ids: set<int>) {
    || (entity == "users" && HeldUsers(s, ids))
    || (entity == "groups" && Names(s, "user_subscriptions", "group_subscriptions", ids))
  }

  ghost predicate HeldUsers(s: State, ids: set<int>) {
    || Names(s, "api_keys", "user_api_keys", ids)
    || Names(s, "departments", "user_departments", ids)
    || Names(s, "members", "user_members", ids)
    || Names(s, "user_identities", "user_identities", ids)
    || Names(s, "user_subscriptions", "user_subscriptions", ids)
  }

  ghost predicate HeldBy(s: State, r: Reference, entity: string, ids: set<int>) {
    r.target == entity && Names(s, r.table, r.column, ids)
  }

  lemma HeldIs(s: State, entity: string, ids: set<int>)
    ensures Held(s, entity, ids) <==> exists r :: Holds(r) && HeldBy(s, r, entity, ids)
  {
    hide Names;
    assert Holds(Reference("api_keys", "user_api_keys", "users", NoAction));
    assert Holds(Reference("departments", "user_departments", "users", NoAction));
    assert Holds(Reference("members", "user_members", "users", NoAction));
    assert Holds(Reference("user_identities", "user_identities", "users", NoAction));
    assert Holds(Reference("user_subscriptions", "user_subscriptions", "users", NoAction));
    assert Holds(Reference("user_subscriptions", "group_subscriptions", "groups", NoAction));
  }

  /** Nothing but events falls. */
  lemma OnlyEventsFall(d: Defaults, target: string, ids: set<int>, table: string, row: Row)
    ensures Falls(SchemaOf(d).references, target, ids, table, row) <==>
              && target == "accounts" && table == "account_events"
              && CellAt(row, "account_events").Int? && CellAt(row, "account_events").i in ids
  {
    hide REFERENCES, RulesOf;
    var events := Reference("account_events", "account_events", "accounts", Cascade);
    CascadeIs(events);
    forall r | r in REFERENCES && r.onDelete.Cascade? ensures r == events {
      CascadeIs(r);
    }
  }

  lemma StrandsIs(d: Defaults, s: State, op: Op, r: Reference)
    requires op.Delete?
    ensures Holds(r) && HeldBy(s, r, op.entity, Doomed(s, op)) <==>
              r in SchemaOf(d).references
              && exists row <- RowsIn(s, r.table) :: Strands(SchemaOf(d), s, op, r, row)
  {
    hide REFERENCES, RulesOf, Falls, Doomed;
    HoldingIs(r);
    forall row ensures Falls(SchemaOf(d).references, op.entity, Doomed(s, op), r.table, row) ==>
        r.table == "account_events" {
      OnlyEventsFall(d, op.entity, Doomed(s, op), r.table, row);
    }
  }

  /** A deletion from a sound database is refused exactly if the database has a reason of its own, if an API key, a
      department, a member, an identity or a subscription names a deleted user, or if a subscription names a deleted
      group. */
  lemma DeletionSucceeds(d: Defaults, s: State, op: Op)
    requires op.Delete? && op.entity in TABLES && Sound(SchemaOf(d), s)
    ensures op.entity in SchemaOf(d).rules
    ensures Step(SchemaOf(d), s, op).1 == None <==> op.refusal == None && !Held(s, op.entity, Doomed(s, op))
  {
    hide REFERENCES, RulesOf, TableOK, Sound, SchemaOK, OneLevel, Holds, Held, HeldBy, Strands, Step, Doomed;
    TablesOK(d);
    RepositoryOK(d);
    OneLevelOK(d);
    DeleteSucceeds(SchemaOf(d), s, op);
    HeldIs(s, op.entity, Doomed(s, op));
    forall r
      ensures r in SchemaOf(d).references && (exists row <- RowsIn(s, r.table) :: Strands(SchemaOf(d), s, op, r, row))
         <==> Holds(r) && HeldBy(s, r, op.entity, Doomed(s, op))
    {
      StrandsIs(d, s, op, r);
    }
  }

  // ---- what goes and what stays ----

  /** The column of the table refers to the target. */
  ghost predicate IsKey(table: string, column: string, target: string) {
    exists r <- REFERENCES :: r.table == table && r.column == column && r.target == target
  }

  /** A row before and after a deletion of the ids from the target: it has its key and all its cells, but for those
      that named a deleted row, which are NULL. */
  ghost predicate Unnamed(target: string, ids: set<int>, table: string, row: Row, after: Row) {
    && after.id == row.id
    && forall c: string :: CellAt(after, c)
         == if IsKey(table, c, target) && CellAt(row, c).Int? && CellAt(row, c).i in ids then Null else CellAt(row, c)
  }

  /** Every row of a table is there after the deletion, and there are no others. */
  ghost predicate AllThere(target: string, ids: set<int>, table: string, rows: seq<Row>, after: seq<Row>) {
    EachLeft(target, ids, table, rows, after) && EachFrom(target, ids, table, rows, after)
  }

  ghost predicate EachLeft(target: string, ids: set<int>, table: string, rows: seq<Row>, after: seq<Row>) {
    forall row <- rows :: exists x <- after :: Unnamed(target, ids, table, row, x)
  }

  ghost predicate EachFrom(target: string, ids: set<int>, table: string, rows: seq<Row>, after: seq<Row>) {
    forall x <- after :: exists row <- rows :: Unnamed(target, ids, table, row, x)
  }

  /** What is left of a row names no deleted one. */
  lemma LeftUnnamed(d: Defaults, s: State, op: Op, table: string, row: Row, x: Row)
    requires op.Delete? && op.entity in SchemaOf(d).rules && KeysSound(s) && Step(SchemaOf(d), s, op).1 == None
    requires x in RowsIn(Step(SchemaOf(d), s, op).0, table)
    requires Emptied(SchemaOf(d).references, op.entity, Doomed(s, op), table, row, x)
    ensures Unnamed(op.entity, Doomed(s, op), table, row, x)
  {
    hide REFERENCES, RulesOf, Step, Doomed, SchemaOK, KeysSound, Loses, IsKey;
    RepositoryOK(d);
    forall c: string
      ensures Loses(SchemaOf(d).references, op.entity, Doomed(s, op), table, row, c) <==>
              IsKey(table, c, op.entity) && CellAt(row, c).Int? && CellAt(row, c).i in Doomed(s, op)
    {
      LosesIs(d, op.entity, Doomed(s, op), table, row, c);
      if Wants(op.entity, Doomed(s, op), table, row, c) && CellAt(x, c) == CellAt(row, c) {
        var r := KeyHere(table, c, op.entity);
        NothingRefersToDeleted(SchemaOf(d), s, op, r, x);
      }
    }
  }

  ghost predicate Wants(target: string, ids: set<int>, table: string, row: Row, c: string) {
    IsKey(table, c, target) && CellAt(row, c).Int? && CellAt(row, c).i in ids
  }

  lemma KeyHere(table: string, column: string, target: string) returns (r: Reference)
    requires IsKey(table, column, target)
    ensures r in REFERENCES && r.table == table && r.column == column && r.target == target
  {
    hide REFERENCES;
    r :| r in REFERENCES && r.table == table && r.column == column && r.target == target;
  }

  lemma LosesIs(d: Defaults, target: string, ids: set<int>, table: string, row: Row, c: string)
    ensures Loses(SchemaOf(d).references, target, ids, table, row, c) ==> Wants(target, ids, table, row, c)
  {
    hide REFERENCES, RulesOf;
  }

  /** A successful deletion leaves every row of every other table where it is, apart from the events of deleted
      accounts. */
  lemma DeletionKeeps(d: Defaults, s: State, op: Op, table: string)
    requires op.Delete? && op.entity in SchemaOf(d).rules && KeysSound(s) && Step(SchemaOf(d), s, op).1 == None
    requires table != op.entity && !(op.entity == "accounts" && table == "account_events")
    ensures AllThere(op.entity, Doomed(s, op), table, RowsIn(s, table), RowsIn(Step(SchemaOf(d), s, op).0, table))
  {
    hide REFERENCES, RulesOf, Step, Doomed, SchemaOK, KeysSound, Falls, Emptied, Unnamed, Followers;
    RepositoryOK(d);
    DeleteEffect(SchemaOf(d), s, op, table);
    var rows, after := RowsIn(s, table), RowsIn(Step(SchemaOf(d), s, op).0, table);
    forall row | row in rows ensures exists x <- after :: Unnamed(op.entity, Doomed(s, op), table, row, x) {
      OnlyEventsFall(d, op.entity, Doomed(s, op), table, row);
      var x := StayRow(SchemaOf(d).references, op.entity, Doomed(s, op), table, rows, after, row);
      LeftUnnamed(d, s, op, table, row, x);
    }
    forall x | x in after ensures exists row <- rows :: Unnamed(op.entity, Doomed(s, op), table, row, x) {
      var row := StemRow(SchemaOf(d).references, op.entity, Doomed(s, op), table, rows, after, x);
      LeftUnnamed(d, s, op, table, row, x);
    }
  }

  /** The same row, cell by cell. */
  ghost predicate SameCells(row: Row, after: Row) {
    after.id == row.id && forall c: string :: CellAt(after, c) == CellAt(row, c)
  }

  ghost predicate EventOf(row: Row, accounts: set<int>) {
    CellAt(row, "account_events").Int? && CellAt(row, "account_events").i in accounts
  }

  /** The events of the accounts are gone, and the others are as they were. */
  ghost predicate EventsTaken(accounts: set<int>, rows: seq<Row>, after: seq<Row>) {
    && (forall row <- rows :: if EventOf(row, accounts) then Gone(row, after) else Remains(row, after))
    && forall x <- after :: Came(x, rows, accounts)
  }

  /** A deletion of accounts takes exactly their events along. */
  lemma DeletionTakesEvents(d: Defaults, s: State, op: Op)
    requires op.Delete? && op.entity == "accounts" && op.entity in SchemaOf(d).rules && KeysSound(s)
    requires Step(SchemaOf(d), s, op).1 == None
    ensures EventsTaken(Doomed(s, op), RowsIn(s, "account_events"),
                        RowsIn(Step(SchemaOf(d), s, op).0, "account_events"))
  {
    hide REFERENCES, RulesOf, Step, Doomed, SchemaOK, Followers, Gone, Remains, Came, EventOf;
    RepositoryOK(d);
    DeleteEffect(SchemaOf(d), s, op, "account_events");
    var accounts, rows, after := Doomed(s, op), RowsIn(s, "account_events"),
                                 RowsIn(Step(SchemaOf(d), s, op).0, "account_events");
    forall row | row in rows && !EventOf(row, accounts) ensures Remains(row, after) {
      EventRemains(d, accounts, rows, after, row);
    }
    forall x | x in after ensures Came(x, rows, accounts) {
      EventCame(d, accounts, rows, after, x);
    }
    forall row | row in rows && EventOf(row, accounts) ensures Gone(row, after) {
      KeyTaken(rows, after, accounts, row);
    }
  }

  ghost predicate Gone(row: Row, after: seq<Row>) {
    forall x <- after :: x.id != row.id
  }

  ghost predicate Remains(row: Row, after: seq<Row>) {
    exists x <- after :: SameCells(row, x)
  }

  ghost predicate Came(x: Row, rows: seq<Row>, accounts: set<int>) {
    exists row <- rows :: !EventOf(row, accounts) && SameCells(row, x)
  }

  lemma KeyTaken(rows: seq<Row>, after: seq<Row>, accounts: set<int>, row: Row)
    requires UniqueIDs(rows) && row in rows && EventOf(row, accounts) && forall x <- after :: Came(x, rows, accounts)
    ensures Gone(row, after)
  {
    hide EventOf;
    forall x | x in after ensures x.id != row.id {
      assert Came(x, rows, accounts);
      var origin :| origin in rows && !EventOf(origin, accounts) && SameCells(origin, x);
      var i :| 0 <= i < |rows| && rows[i] == row;
      var j :| 0 <= j < |rows| && rows[j] == origin;
    }
  }

  lemma EventRemains(d: Defaults, accounts: set<int>, rows: seq<Row>, after: seq<Row>, row: Row)
    requires Followers(SchemaOf(d).references, "accounts", accounts, "account_events", rows, after)
    requires row in rows && !EventOf(row, accounts)
    ensures Remains(row, after)
  {
    hide REFERENCES, RulesOf, Followers, Falls, Emptied, SameCells;
    OnlyEventsFall(d, "accounts", accounts, "account_events", row);
    var x := StayRow(SchemaOf(d).references, "accounts", accounts, "account_events", rows, after, row);
    EventKept(d, accounts, row, x);
  }

  lemma EventCame(d: Defaults, accounts: set<int>, rows: seq<Row>, after: seq<Row>, x: Row)
    requires Followers(SchemaOf(d).references, "accounts", accounts, "account_events", rows, after) && x in after
    ensures Came(x, rows, accounts)
  {
    hide REFERENCES, RulesOf, Followers, Falls, Emptied, SameCells;
    var row := StemRow(SchemaOf(d).references, "accounts", accounts, "account_events", rows, after, x);
    OnlyEventsFall(d, "accounts", accounts, "account_events", row);
    EventKept(d, accounts, row, x);
  }

  lemma EventKept(d: Defaults, accounts: set<int>, row: Row, x: Row)
    requires Emptied(SchemaOf(d).references, "accounts", accounts, "account_events", row, x)
    ensures SameCells(row, x)
  {
    hide REFERENCES, RulesOf;
    forall r | r in REFERENCES && r.table == "account_events" ensures !r.onDelete.SetNull? {
      var k :| 0 <= k < |REFERENCES| && REFERENCES[k] == r;
      EventsCascade(k);
    }
  }

  lemma EventsCascade(k: nat)
    requires k < |REFERENCES|
    ensures REFERENCES[k].table == "account_events" <==> k == 5
    ensures REFERENCES[5].onDelete == Cascade
  {
  }
}
