/** The repository's checks, defaults and foreign keys, as a schema of the state machine, and what they come to. */
module Repository {
  import opened Wrappers
  import opened Records
  import opened Store
  import opened Runs
  import opened Soundness
  import opened Entities
  import Updates

  // ---- what is checked ----

  predicate NonEmpty(c: Cell) {
    c.Str? && c.s != ""
  }

  predicate NonNegative(c: Cell) {
    (c.Int? && c.i >= 0) || (c.Float? && c.r >= 0.0)
  }

  predicate Priority(c: Cell) {
    c.Int? && 0 <= c.i <= 999
  }

  predicate AccountState(c: Cell) {
    c.Str? && c.s in {"active", "rate_limited", "degraded", "disabled"}
  }

  predicate APIKeyStatus(c: Cell) {
    c.Str? && c.s in {"active", "disabled"}
  }

  predicate EventType(c: Cell) {
    c.Str? && c.s in {"rate_limited", "degraded", "disabled", "recovered", "upstream_error", "manual_disabled",
                      "manual_recovered"}
  }

  function AccountRules(now: int, noCredentials: string, noExtra: string): Rules {
    Rules(["account_proxy"],
          [Required("name"), Validated("name", NonEmpty), Required("platform"), Validated("platform", NonEmpty),
           Required("credentials"), Required("state"), Validated("state", AccountState),
           Required("priority"), Validated("priority", Priority), Required("max_concurrency"),
           Required("rate_multiplier"), Required("error_msg"), Required("upstream_is_pool"),
           Required("created_at"), Required("updated_at")],
          [Validated("name", NonEmpty), Validated("platform", NonEmpty), Validated("state", AccountState),
           Validated("priority", Priority)],
          map["type" := Str(""), "credentials" := Bytes(noCredentials), "state" := Str("active"), "priority" := Int(50),
              "max_concurrency" := Int(10), "rate_multiplier" := Float(1.0), "error_msg" := Str(""),
              "upstream_is_pool" := Bool(false), "extra" := Bytes(noExtra), "created_at" := Time(now),
              "updated_at" := Time(now)],
          map["updated_at" := Time(now)])
  }

  function APIKeyRules(now: int): Rules {
    Rules(API_KEY_FOREIGN_KEYS,
          [Required("name"), Validated("name", NonEmpty), Required("key_hint"), Required("key_hash"),
           Validated("key_hash", NonEmpty), Required("quota_usd"), Required("used_quota"),
           Required("used_quota_actual"),
           Required("sell_rate"), Validated("sell_rate", NonNegative), Required("max_concurrency"),
           Validated("max_concurrency", NonNegative), Required("status"), Validated("status", APIKeyStatus),
           Required("created_at"), Required("updated_at"), RequiredEdge("user_api_keys")],
          [Validated("name", NonEmpty), Validated("key_hash", NonEmpty), Validated("sell_rate", NonNegative),
           Validated("max_concurrency", NonNegative), Validated("status", APIKeyStatus), RequiredEdge("user_api_keys")],
          map["key_hint" := Str(""), "quota_usd" := Float(0.0), "used_quota" := Float(0.0),
              "used_quota_actual" := Float(0.0), "sell_rate" := Float(0.0), "max_concurrency" := Int(0),
              "status" := Str("active"), "created_at" := Time(now), "updated_at" := Time(now)],
          map["updated_at" := Time(now)])
  }

  function AccountEventRules(now: int): Rules {
    Rules(["account_events"],
          [Required("event_type"), Validated("event_type", EventType), Required("reason"), Required("family"),
           Required("source"), Required("upstream_status"), Required("user_id"), Required("api_key_id"),
           Required("created_at"), RequiredEdge("account_events")],
          [Validated("event_type", EventType), RequiredEdge("account_events")],
          map["reason" := Str(""), "family" := Str(""), "source" := Str(""), "upstream_status" := Int(0),
              "user_id" := Int(0), "api_key_id" := Int(0), "created_at" := Time(now)],
          map[])
  }

  /** An entity of which only the foreign keys matter here, some of which are required. */
  function EdgeRules(foreignKeys: seq<string>, required: seq<string>): (rules: Rules)
    ensures rules.foreignKeys == foreignKeys && |rules.onCreate| == |required|
    ensures forall i :: 0 <= i < |required| ==> rules.onCreate[i] == RequiredEdge(required[i])
  {
    var edges := seq(|required|, i requires 0 <= i < |required| => RequiredEdge(required[i]));
    Rules(foreignKeys, edges, edges, map[], map[])
  }

  const USAGE_LOG_KEYS := ["api_key_usage_logs", "account_usage_logs", "group_usage_logs", "user_usage_logs"]

  /** What the defaults depend on: the clock, and the encodings of no credentials and no extras. */
  datatype Defaults = Defaults(now: int, noCredentials: string, noExtra: string)

  function RulesOf(d: Defaults, table: string): Option<Rules> {
    match table
    case "accounts" => Some(AccountRules(d.now, d.noCredentials, d.noExtra))
    case "api_keys" => Some(APIKeyRules(d.now))
    case "account_events" => Some(AccountEventRules(d.now))
    case "balance_logs" => Some(EdgeRules(["user_balance_logs"], []))
    case "departments" => Some(EdgeRules(["department_manager", "user_departments"], ["user_departments"]))
    case "members" => Some(EdgeRules(["department_members", "user_members"], ["user_members"]))
    case "usage_logs" => Some(EdgeRules(USAGE_LOG_KEYS, []))
    case "users" => Some(EdgeRules(["member_account"], []))
    case "user_identities" => Some(EdgeRules(["user_identities"], ["user_identities"]))
    case "user_subscriptions" =>
      Some(EdgeRules(["group_subscriptions", "user_subscriptions"], ["user_subscriptions", "group_subscriptions"]))
    case "groups" => Some(EdgeRules([], []))
    case "proxies" => Some(EdgeRules([], []))
    case _ => None
  }

  const TABLES := {
    "accounts", "api_keys", "account_events", "balance_logs", "departments", "members", "usage_logs", "users",
    "user_identities", "user_subscriptions", "groups", "proxies"}

  /** The foreign keys of all tables but the join tables. */
  const REFERENCES := [
    Reference("accounts", "account_proxy", "proxies", SetNull),
    Reference("api_keys", "department_api_keys", "departments", SetNull),
    Reference("api_keys", "group_api_keys", "groups", SetNull),
    Reference("api_keys", "member_api_keys", "members", SetNull),
    Reference("api_keys", "user_api_keys", "users", NoAction),
    Reference("account_events", "account_events", "accounts", Cascade),
    Reference("balance_logs", "user_balance_logs", "users", SetNull),
    Reference("departments", "department_manager", "members", SetNull),
    Reference("departments", "user_departments", "users", NoAction),
    Reference("members", "department_members", "departments", SetNull),
    Reference("members", "user_members", "users", NoAction),
    Reference("usage_logs", "api_key_usage_logs", "api_keys", SetNull),
    Reference("usage_logs", "account_usage_logs", "accounts", SetNull),
    Reference("usage_logs", "group_usage_logs", "groups", SetNull),
    Reference("usage_logs", "user_usage_logs", "users", SetNull),
    Reference("users", "member_account", "members", SetNull),
    Reference("user_identities", "user_identities", "users", NoAction),
    Reference("user_subscriptions", "group_subscriptions", "groups", NoAction),
    Reference("user_subscriptions", "user_subscriptions", "users", NoAction)]

  /** The foreign keys that are NOT NULL. */
  const NOT_NULL := {
    ("api_keys", "user_api_keys"), ("account_events", "account_events"), ("departments", "user_departments"),
    ("members", "user_members"), ("user_identities", "user_identities"), ("user_subscriptions", "group_subscriptions"),
    ("user_subscriptions", "user_subscriptions")}

  function SchemaOf(d: Defaults): Schema {
    Schema(map table | table in TABLES && RulesOf(d, table).Some? :: RulesOf(d, table).value, REFERENCES, NOT_NULL)
  }

  /** Pairs the checks of an update with those of a creation: rule at[k] of onCreate is rule k of onUpdate, and
      follows the rule that requires its field. */
  ghost predicate Paired(rules: Rules, at: seq<nat>) {
    Matched(rules, at) && Preceded(rules, at)
  }

  ghost predicate Matched(rules: Rules, at: seq<nat>) {
    && |at| == |rules.onUpdate|
    && (forall k :: 0 <= k < |at| ==> at[k] < |rules.onCreate| && rules.onCreate[at[k]] == rules.onUpdate[k])
  }

  ghost predicate Preceded(rules: Rules, at: seq<nat>)
    requires Matched(rules, at)
  {
    forall k :: 0 <= k < |at| && rules.onUpdate[k].Validated? ==>
      at[k] > 0 && rules.onCreate[at[k] - 1] == Required(rules.onUpdate[k].field)
  }

  /** The other rules of onCreate only require a field. */
  ghost predicate OthersRequired(rules: Rules, at: seq<nat>) {
    forall i: nat :: i < |rules.onCreate| && i !in at ==> rules.onCreate[i].Required?
  }

  /** Fields are not foreign keys, edges are. */
  ghost predicate KeysApart(rules: Rules) {
    && "id" !in rules.foreignKeys
    && (forall rule <- rules.onUpdate :: rule.Validated? ==> rule.field != "id" && rule.field !in rules.foreignKeys)
    && (forall rule <- rules.onUpdate :: rule.RequiredEdge? ==> rule.column in rules.foreignKeys)
  }

  ghost predicate DefaultsApart(rules: Rules) {
    forall c <- rules.foreignKeys :: c !in rules.createDefaults && c !in rules.updateDefaults
  }

  lemma PairedRules(rules: Rules, at: seq<nat>)
    requires Paired(rules, at) && OthersRequired(rules, at) && KeysApart(rules) && DefaultsApart(rules)
    ensures RulesOK(rules)
  {
    forall rule | rule in rules.onCreate && !rule.Required?
      ensures rule in rules.onUpdate
      ensures rule.Validated? ==> Required(rule.field) in rules.onCreate
    {
      var i: nat :| i < |rules.onCreate| && rules.onCreate[i] == rule;
      var k :| 0 <= k < |at| && at[k] == i;
      assert rules.onUpdate[k] == rule;
    }
  }

  lemma AccountPaired(now: int, noCredentials: string, noExtra: string)
    ensures Paired(AccountRules(now, noCredentials, noExtra), [1, 3, 6, 8])
  {
  }

  lemma AccountRequired(now: int, noCredentials: string, noExtra: string)
    ensures OthersRequired(AccountRules(now, noCredentials, noExtra), [1, 3, 6, 8])
  {
  }

  lemma AccountApart(now: int, noCredentials: string, noExtra: string)
    ensures KeysApart(AccountRules(now, noCredentials, noExtra))
  {
  }

  lemma AccountDefaults(now: int, noCredentials: string, noExtra: string)
    ensures DefaultsApart(AccountRules(now, noCredentials, noExtra))
  {
  }

  lemma AccountRulesOK(now: int, noCredentials: string, noExtra: string)
    ensures RulesOK(AccountRules(now, noCredentials, noExtra))
  {
    hide RulesOK, Paired, OthersRequired, KeysApart, DefaultsApart, AccountRules;
    AccountPaired(now, noCredentials, noExtra);
    AccountRequired(now, noCredentials, noExtra);
    AccountApart(now, noCredentials, noExtra);
    AccountDefaults(now, noCredentials, noExtra);
    PairedRules(AccountRules(now, noCredentials, noExtra), [1, 3, 6, 8]);
  }

  lemma APIKeyMatched(now: int)
    ensures Matched(APIKeyRules(now), [1, 4, 9, 11, 13, 16])
  {
  }

  lemma APIKeyPaired(now: int)
    ensures Paired(APIKeyRules(now), [1, 4, 9, 11, 13, 16])
  {
    hide Matched;
    APIKeyMatched(now);
  }

  lemma APIKeyRequired(now: int)
    ensures OthersRequired(APIKeyRules(now), [1, 4, 9, 11, 13, 16])
  {
  }

  lemma APIKeyApart(now: int)
    ensures KeysApart(APIKeyRules(now))
  {
  }

  lemma APIKeyDefaults(now: int)
    ensures DefaultsApart(APIKeyRules(now))
  {
  }

  lemma APIKeyRulesOK(now: int)
    ensures RulesOK(APIKeyRules(now))
  {
    hide RulesOK, Paired, OthersRequired, KeysApart, DefaultsApart, APIKeyRules;
    APIKeyPaired(now);
    APIKeyRequired(now);
    APIKeyApart(now);
    APIKeyDefaults(now);
    PairedRules(APIKeyRules(now), [1, 4, 9, 11, 13, 16]);
  }

  lemma AccountEventPaired(now: int)
    ensures Paired(AccountEventRules(now), [1, 9])
  {
  }

  lemma AccountEventRequired(now: int)
    ensures OthersRequired(AccountEventRules(now), [1, 9])
  {
  }

  lemma AccountEventApart(now: int)
    ensures KeysApart(AccountEventRules(now))
  {
  }

  lemma AccountEventDefaults(now: int)
    ensures DefaultsApart(AccountEventRules(now))
  {
  }

  lemma AccountEventRulesOK(now: int)
    ensures RulesOK(AccountEventRules(now))
  {
    hide RulesOK, Paired, OthersRequired, KeysApart, DefaultsApart, AccountEventRules;
    AccountEventPaired(now);
    AccountEventRequired(now);
    AccountEventApart(now);
    AccountEventDefaults(now);
    PairedRules(AccountEventRules(now), [1, 9]);
  }

  lemma EdgeRulesOK(foreignKeys: seq<string>, required: seq<string>)
    requires "id" !in foreignKeys && forall c <- required :: c in foreignKeys
    ensures RulesOK(EdgeRules(foreignKeys, required))
    ensures forall c: string :: RequiredEdge(c) in EdgeRules(foreignKeys, required).onCreate <==> c in required
  {
    var rules := EdgeRules(foreignKeys, required);
    forall c: string ensures RequiredEdge(c) in rules.onCreate <==> c in required {
      if c in required {
        var i :| 0 <= i < |required| && required[i] == c;
        assert rules.onCreate[i] == RequiredEdge(c);
      }
    }
    forall rule | rule in rules.onCreate ensures rule.RequiredEdge? && rule.column in foreignKeys {
      var i :| 0 <= i < |required| && rules.onCreate[i] == rule;
      assert required[i] in required;
    }
  }

  /** The required edges of a table. */
  function RequiredOf(table: string): seq<string> {
    match table
    case "api_keys" => ["user_api_keys"]
    case "account_events" => ["account_events"]
    case "departments" => ["user_departments"]
    case "members" => ["user_members"]
    case "user_identities" => ["user_identities"]
    case "user_subscriptions" => ["user_subscriptions", "group_subscriptions"]
    case _ => []
  }

  /** The generated checks of a table meet what the state machine assumes, and require these edges. */
  ghost predicate TableOK(d: Defaults, table: string) {
    && RulesOf(d, table).Some? && RulesOK(RulesOf(d, table).value)
    && forall c: string :: RequiredEdge(c) in RulesOf(d, table).value.onCreate <==> c in RequiredOf(table)
  }

  lemma AccountTable(d: Defaults)
    ensures TableOK(d, "accounts")
  {
    hide RulesOK;
    AccountRulesOK(d.now, d.noCredentials, d.noExtra);
    forall c: string ensures RequiredEdge(c) !in AccountRules(d.now, d.noCredentials, d.noExtra).onCreate {
      NoAccountEdge(d.now, d.noCredentials, d.noExtra, c);
    }
  }

  lemma NoAccountEdge(now: int, noCredentials: string, noExtra: string, column: string)
    ensures RequiredEdge(column) !in AccountRules(now, noCredentials, noExtra).onCreate
  {
  }

  lemma APIKeyTable(d: Defaults)
    ensures TableOK(d, "api_keys")
  {
    hide RulesOK, AccountRules;
    APIKeyRulesOK(d.now);
    forall c: string ensures RequiredEdge(c) in APIKeyRules(d.now).onCreate <==> c == "user_api_keys" {
      APIKeyEdge(d.now, c);
    }
  }

  lemma APIKeyEdge(now: int, column: string)
    ensures RequiredEdge(column) in APIKeyRules(now).onCreate <==> column == "user_api_keys"
  {
    assert APIKeyRules(now).onCreate[16] == RequiredEdge("user_api_keys");
  }

  lemma AccountEventTable(d: Defaults)
    ensures TableOK(d, "account_events")
  {
    hide RulesOK, AccountRules, APIKeyRules;
    AccountEventRulesOK(d.now);
    forall c: string ensures RequiredEdge(c) in AccountEventRules(d.now).onCreate <==> c == "account_events" {
      AccountEventEdge(d.now, c);
    }
  }

  lemma AccountEventEdge(now: int, column: string)
    ensures RequiredEdge(column) in AccountEventRules(now).onCreate <==> column == "account_events"
  {
    assert AccountEventRules(now).onCreate[9] == RequiredEdge("account_events");
  }

  lemma OwnedTables(d: Defaults)
    ensures TableOK(d, "departments") && TableOK(d, "members")
    ensures TableOK(d, "user_identities") && TableOK(d, "user_subscriptions")
  {
    hide RulesOK, EdgeRules, AccountRules, APIKeyRules, AccountEventRules;
    EdgeRulesOK(["department_manager", "user_departments"], ["user_departments"]);
    EdgeRulesOK(["department_members", "user_members"], ["user_members"]);
    EdgeRulesOK(["user_identities"], ["user_identities"]);
    EdgeRulesOK(["group_subscriptions", "user_subscriptions"], ["user_subscriptions", "group_subscriptions"]);
  }

  lemma FreeTables(d: Defaults)
    ensures TableOK(d, "balance_logs") && TableOK(d, "usage_logs") && TableOK(d, "users")
    ensures TableOK(d, "groups") && TableOK(d, "proxies")
  {
    hide RulesOK, EdgeRules, AccountRules, APIKeyRules, AccountEventRules;
    EdgeRulesOK(["user_balance_logs"], []);
    EdgeRulesOK(USAGE_LOG_KEYS, []);
    EdgeRulesOK(["member_account"], []);
    EdgeRulesOK([], []);
  }

  lemma TablesOK(d: Defaults)
    ensures forall table <- TABLES :: TableOK(d, table)
    ensures SchemaOf(d).rules.Keys == TABLES
    ensures forall table <- TABLES :: SchemaOf(d).rules[table] == RulesOf(d, table).value
  {
    hide RulesOf, RequiredOf, RulesOK;
    AccountTable(d);
    APIKeyTable(d);
    AccountEventTable(d);
    OwnedTables(d);
    FreeTables(d);
  }

  /** The NOT NULL columns are the required edges. */
  lemma NotNullRequired(table: string, column: string)
    ensures (table, column) in NOT_NULL <==> column in RequiredOf(table)
    ensures column in RequiredOf(table) ==> table in TABLES
  {
  }

  /** A reference is between two tables, on a foreign key, and on an optional one if it may be set to NULL. */
  ghost predicate ReferenceOK(d: Defaults, r: Reference) {
    && r.table in TABLES && r.target in TABLES && r.table != r.target && r.column != "id" && RulesOf(d, r.table).Some?
    && r.column in RulesOf(d, r.table).value.foreignKeys && (r.onDelete.SetNull? ==> r.column !in RequiredOf(r.table))
  }

  lemma KeyReferencesOK(d: Defaults)
    ensures forall i :: 0 <= i < 6 ==> ReferenceOK(d, REFERENCES[i])
  {
  }

  lemma PeopleReferencesOK(d: Defaults)
    ensures forall i :: 6 <= i < 11 ==> ReferenceOK(d, REFERENCES[i])
  {
    hide AccountRules, APIKeyRules, AccountEventRules;
  }

  lemma LogReferencesOK(d: Defaults)
    ensures forall i :: 11 <= i < 15 ==> ReferenceOK(d, REFERENCES[i])
  {
    hide AccountRules, APIKeyRules, AccountEventRules;
  }

  lemma UserReferencesOK(d: Defaults)
    ensures |REFERENCES| == 19 && forall i :: 15 <= i < 19 ==> ReferenceOK(d, REFERENCES[i])
  {
    hide AccountRules, APIKeyRules, AccountEventRules;
  }

  /** A number for each of the columns: every column refers to one table. */
  function ColumnNumber(c: string): nat {
    match c
    case "account_proxy" => 0
    case "department_api_keys" => 1
    case "group_api_keys" => 2
    case "member_api_keys" => 3
    case "user_api_keys" => 4
    case "account_events" => 5
    case "user_balance_logs" => 6
    case "department_manager" => 7
    case "user_departments" => 8
    case "department_members" => 9
    case "user_members" => 10
    case "api_key_usage_logs" => 11
    case "account_usage_logs" => 12
    case "group_usage_logs" => 13
    case "user_usage_logs" => 14
    case "member_account" => 15
    case "user_identities" => 16
    case "group_subscriptions" => 17
    case "user_subscriptions" => 18
    case _ => 19
  }

  lemma FirstColumnsApart()
    ensures forall i :: 0 <= i < 10 ==> ColumnNumber(REFERENCES[i].column) == i
  {
  }

  lemma LastColumnsApart()
    ensures forall i :: 10 <= i < 19 ==> ColumnNumber(REFERENCES[i].column) == i
  {
  }

  lemma ReferencesOK(d: Defaults)
    ensures |REFERENCES| == 19 && forall i :: 0 <= i < 19 ==> ReferenceOK(d, REFERENCES[i])
    ensures forall i, j :: 0 <= i < j < 19 ==> REFERENCES[i].column != REFERENCES[j].column
  {
    hide ReferenceOK, ColumnNumber;
    KeyReferencesOK(d);
    PeopleReferencesOK(d);
    LogReferencesOK(d);
    UserReferencesOK(d);
    FirstColumnsApart();
    LastColumnsApart();
    forall i | 0 <= i < 19 ensures ColumnNumber(REFERENCES[i].column) == i {
    }
  }

  /** The repository's schema meets what the state machine assumes of a schema. */
  lemma RepositoryOK(d: Defaults)
    ensures SchemaOK(SchemaOf(d))
  {
    hide RulesOf, RulesOK, RequiredOf;
    var schema := SchemaOf(d);
    TablesOK(d);
    ReferencesOK(d);
    forall table: string, column: string
      ensures (table, column) in schema.notNull <==> column in RequiredOf(table)
      ensures column in RequiredOf(table) ==> table in TABLES
    {
      NotNullRequired(table, column);
    }
    forall at | at in schema.notNull ensures at.0 in schema.rules && RequiredEdge(at.1) in schema.rules[at.0].onCreate {
      assert at.1 in RequiredOf(at.0);
    }
    forall r | r in schema.references ensures ReferenceOK(d, r) {
    }
  }

  predicate AccountValid(row: Row) {
    && NonEmpty(CellAt(row, "name")) && NonEmpty(CellAt(row, "platform"))
    && AccountState(CellAt(row, "state")) && Priority(CellAt(row, "priority"))
  }

  predicate APIKeyValid(row: Row) {
    && NonEmpty(CellAt(row, "name")) && NonEmpty(CellAt(row, "key_hash"))
    && NonNegative(CellAt(row, "sell_rate")) && NonNegative(CellAt(row, "max_concurrency"))
    && APIKeyStatus(CellAt(row, "status"))
  }

  predicate AccountEventValid(row: Row) {
    EventType(CellAt(row, "event_type"))
  }

  lemma RuleHolds(rules: Rules, row: Row, i: nat)
    requires FieldsSound(rules, row) && EdgesSound(rules, row) && i < |rules.onCreate|
    ensures rules.onCreate[i].Validated? ==> rules.onCreate[i].test(CellAt(row, rules.onCreate[i].field))
    ensures rules.onCreate[i].RequiredEdge? ==> CellAt(row, rules.onCreate[i].column).Int?
  {
    assert rules.onCreate[i] in rules.onCreate;
  }

  lemma SoundAccount(now: int, noCredentials: string, noExtra: string, row: Row)
    requires FieldsSound(AccountRules(now, noCredentials, noExtra), row)
    requires EdgesSound(AccountRules(now, noCredentials, noExtra), row)
    ensures AccountValid(row)
  {
    hide NonEmpty, AccountState, Priority, FieldsSound, EdgesSound, CellAt;
    var rules := AccountRules(now, noCredentials, noExtra);
    RuleHolds(rules, row, 1);
    RuleHolds(rules, row, 3);
    RuleHolds(rules, row, 6);
    RuleHolds(rules, row, 8);
  }

  lemma SoundAPIKey(now: int, row: Row)
    requires FieldsSound(APIKeyRules(now), row) && EdgesSound(APIKeyRules(now), row)
    ensures APIKeyValid(row)
  {
    hide NonEmpty, NonNegative, APIKeyStatus, FieldsSound, EdgesSound, CellAt;
    var rules := APIKeyRules(now);
    RuleHolds(rules, row, 1);
    RuleHolds(rules, row, 4);
    RuleHolds(rules, row, 9);
    RuleHolds(rules, row, 11);
    RuleHolds(rules, row, 13);
  }

  lemma SoundAccountEvent(now: int, row: Row)
    requires FieldsSound(AccountEventRules(now), row) && EdgesSound(AccountEventRules(now), row)
    ensures AccountEventValid(row)
  {
    hide EventType, FieldsSound, EdgesSound, CellAt;
    var rules := AccountEventRules(now);
    RuleHolds(rules, row, 1);
  }

  lemma Referred(schema: Schema, s: State, k: nat, row: Row)
    requires Referential(schema, s) && k < |schema.references|
    requires row in RowsIn(s, schema.references[k].table) && CellAt(row, schema.references[k].column).Int?
    ensures exists parent <- RowsIn(s, schema.references[k].target) ::
              parent.id == CellAt(row, schema.references[k].column).i
  {
    var r := schema.references[k];
    assert Refers(s, r);
    var i :| 0 <= i < |RowsIn(s, r.table)| && RowsIn(s, r.table)[i] == row;
    var j :| 0 <= j < |RowsIn(s, r.target)| && RowsIn(s, r.target)[j].id == CellAt(row, r.column).i;
    assert RowsIn(s, r.target)[j] in RowsIn(s, r.target);
  }

  /** The reference of the row names a stored row; it is NULL only if it may be. */
  ghost predicate Held(s: State, r: Reference, row: Row) {
    var c := CellAt(row, r.column);
    && ((r.table, r.column) in NOT_NULL ==> c.Int?)
    && (c.Int? ==> exists parent <- RowsIn(s, r.target) :: parent.id == c.i)
  }

  /** After any run of creates, bulk creates, updates and deletes from the empty database, as long as nothing is added
      to a validated number: every required edge of every row leads to a stored row, no reference dangles, and every
      validated field of accounts, API keys and account events is valid. */
  lemma RepositoryRuns(d: Defaults, ops: seq<Op>)
    requires forall op <- ops :: op.entity in SchemaOf(d).rules && TypedOp(SchemaOf(d), op) && NoAddsOp(SchemaOf(d), op)
    ensures var s := RunAll(SchemaOf(d), State(map[], 1), ops);
            && (forall row <- RowsIn(s, "accounts") :: AccountValid(row))
            && (forall row <- RowsIn(s, "api_keys") :: APIKeyValid(row))
            && (forall row <- RowsIn(s, "account_events") :: AccountEventValid(row))
            && (forall r <- REFERENCES, row <- RowsIn(s, r.table) :: Held(s, r, row))
  {
    hide RulesOf, FieldsSound, EdgesSound, TypedOp, NoAddsOp, AccountValid, APIKeyValid, AccountEventValid, SchemaOK,
         Referential, RunAll, Held, TableOK;
    var schema := SchemaOf(d);
    RepositoryOK(d);
    TablesOK(d);
    EmptySound(schema);
    RunsKeep(schema, State(map[], 1), ops);
    var s := RunAll(schema, State(map[], 1), ops);
    CheckedTables(d);
    forall row | row in RowsIn(s, "accounts") ensures AccountValid(row) {
      SoundAccount(d.now, d.noCredentials, d.noExtra, row);
    }
    forall row | row in RowsIn(s, "api_keys") ensures APIKeyValid(row) {
      SoundAPIKey(d.now, row);
    }
    forall row | row in RowsIn(s, "account_events") ensures AccountEventValid(row) {
      SoundAccountEvent(d.now, row);
    }
    forall r, row | r in REFERENCES && row in RowsIn(s, r.table) ensures Held(s, r, row) {
      AllHeld(d, s, r, row);
    }
  }

  lemma CheckedTables(d: Defaults)
    ensures RulesOf(d, "accounts") == Some(AccountRules(d.now, d.noCredentials, d.noExtra))
    ensures RulesOf(d, "api_keys") == Some(APIKeyRules(d.now))
    ensures RulesOf(d, "account_events") == Some(AccountEventRules(d.now))
  {
  }

  lemma AllHeld(d: Defaults, s: State, r: Reference, row: Row)
    requires Sound(SchemaOf(d), s) && r in REFERENCES && row in RowsIn(s, r.table)
    ensures Held(s, r, row)
  {
    hide RulesOf, RulesOK, Referential, TableFields;
    var schema := SchemaOf(d);
    var k :| 0 <= k < |REFERENCES| && REFERENCES[k] == r;
    TablesOK(d);
    NotNullRequired(r.table, r.column);
    if (r.table, r.column) in NOT_NULL {
      assert EdgesSound(schema.rules[r.table], row);
      assert RequiredEdge(r.column) in schema.rules[r.table].onCreate;
    }
    if CellAt(row, r.column).Int? {
      Referred(schema, s, k, row);
    }
  }

  lemma EmptySound(schema: Schema)
    ensures Sound(schema, State(map[], 1))
  {
  }

  /** UpdateOne with a cleared O2M edge and nothing else. */
  function ClearEdge(entity: string, id: int, table: string, column: string): Op {
    UpdateOne(entity, Some(id), _ => true,
              Patch(map[], map[], {}, map[], [Inverse(table, column, Updates.Change({}, {}, true))]), None)
  }

  /** Clearing the O2M edge of a row that another row requires: the clear list alone would leave that row without its
      edge, and the update is refused. */
  lemma ClearRefused(schema: Schema, s: State, entity: string, parent: Row, table: string, column: string, child: Row)
    requires SchemaOK(schema) && Sound(schema, s) && entity in schema.rules
    requires TypedOp(schema, ClearEdge(entity, parent.id, table, column))
    requires (table, column) in schema.notNull
    requires InverseOK(schema, entity, Inverse(table, column, Updates.Change({}, {}, true)))
    requires parent in RowsIn(s, entity) && child in RowsIn(s, table) && CellAt(child, column) == Int(parent.id)
    ensures var op := ClearEdge(entity, parent.id, table, column);
            && Step(schema, s, op).1.Some? && Step(schema, s, op).0 == s
            && !TableEdges(schema, Cleared(s, op.p.inverses, [parent.id]))
  {
    hide SchemaOK, TableFields, TableEdges, KeysSound, Referential, TypedOp, Step, Cleared, InverseOK, Without;
    var op := ClearEdge(entity, parent.id, table, column);
    var inv := op.p.inverses[0];
    var where := (row: Row) => op.id.Some? && Match(op.id.value, op.where, row);
    ChosenHas(RowsIn(s, entity), where, parent);
    assert Unlinks(inv, [parent.id], child) && Unlinks(inv, Owners(s, op), child);
    assert inv in op.p.inverses && op.p.inverses == [inv];
    assert HitsRequired(schema, s, inv, [parent.id]) && HitsRequired(schema, s, inv, Owners(s, op));
    RequiredClearRefused(schema, s, op);
    ClearRestsOnNotNull(schema, entity, s, op.p.inverses, [parent.id]);
  }

  lemma ChosenHas(rows: seq<Row>, where: Row -> bool, row: Row)
    requires row in rows && where(row)
    ensures row.id in KeysOfRows(Chosen(rows, where))
  {
    WithoutSome(rows, (r: Row) => !where(r));
    var i :| 0 <= i < |Chosen(rows, where)| && Chosen(rows, where)[i] == row;
    assert KeysOfRows(Chosen(rows, where))[i] == row.id;
  }

  /** The other end of every foreign key is an edge of the table that it refers to. */
  lemma OtherEnd(d: Defaults, k: nat, change: Updates.Change)
    requires k < |REFERENCES|
    ensures InverseOK(SchemaOf(d), REFERENCES[k].target, Inverse(REFERENCES[k].table, REFERENCES[k].column, change))
  {
    hide RulesOf;
    assert REFERENCES[k] in SchemaOf(d).references;
  }

  /** An update of an account that sets no field passes the checks, whatever it does to O2M edges. */
  lemma NoFieldsChecked(now: int, noCredentials: string, noExtra: string, inverses: seq<Inverse>)
    ensures var rules := AccountRules(now, noCredentials, noExtra);
            var p := WithDefaults(rules.updateDefaults, Patch(map[], map[], {}, map[], inverses));
            Checked(rules.onUpdate, p, false) == None && Typed(rules, p)
  {
    var rules := AccountRules(now, noCredentials, noExtra);
    CheckedNone(rules.onUpdate, WithDefaults(rules.updateDefaults, Patch(map[], map[], {}, map[], inverses)), false);
  }

  lemma TargetOK(d: Defaults, k: nat)
    requires k < |REFERENCES|
    ensures REFERENCES[k].target in TABLES
  {
    hide RulesOf, RequiredOf;
    ReferencesOK(d);
    assert ReferenceOK(d, REFERENCES[k]);
  }

  /** Clearing an edge and nothing else is something that the builder of the entity can do. */
  lemma TypedClear(schema: Schema, entity: string, id: int, table: string, column: string)
    requires SchemaOK(schema) && entity in schema.rules
    requires InverseOK(schema, entity, Inverse(table, column, Updates.Change({}, {}, true)))
    ensures TypedOp(schema, ClearEdge(entity, id, table, column))
  {
    hide InverseOK;
    assert RulesOK(schema.rules[entity]);
  }

  /** A row that other rows require, at whatever end of a NOT NULL foreign key: clearing the edge would leave them
      without it, and is refused. */
  lemma ClearRequiredRefused(d: Defaults, s: State, k: nat, parent: Row, child: Row)
    requires Sound(SchemaOf(d), s) && k < |REFERENCES| && (REFERENCES[k].table, REFERENCES[k].column) in NOT_NULL
    requires parent in RowsIn(s, REFERENCES[k].target) && child in RowsIn(s, REFERENCES[k].table)
    requires CellAt(child, REFERENCES[k].column) == Int(parent.id)
    ensures var schema, r := SchemaOf(d), REFERENCES[k];
            var op := ClearEdge(r.target, parent.id, r.table, r.column);
            && r.target in schema.rules && Step(schema, s, op).1.Some? && Step(schema, s, op).0 == s
            && !TableEdges(schema, Cleared(s, op.p.inverses, [parent.id]))
  {
    hide RulesOf, Sound, Step, Cleared, TableEdges, SchemaOK, InverseOK, TypedOp, ReferenceOK, TableOK;
    RepositoryOK(d);
    TablesOK(d);
    TargetOK(d, k);
    OtherEnd(d, k, Updates.Change({}, {}, true));
    TypedClear(SchemaOf(d), REFERENCES[k].target, parent.id, REFERENCES[k].table, REFERENCES[k].column);
    ClearRefused(SchemaOf(d), s, REFERENCES[k].target, parent, REFERENCES[k].table, REFERENCES[k].column, child);
  }

  /** An account that has events: ClearEvents passes every check of the account's builder and would leave the events
      without their account; only the NOT NULL column refuses it. */
  lemma ClearEventsRefused(d: Defaults, s: State, account: Row, event: Row)
    requires Sound(SchemaOf(d), s) && account in RowsIn(s, "accounts") && event in RowsIn(s, "account_events")
    requires CellAt(event, "account_events") == Int(account.id)
    ensures var schema, op := SchemaOf(d), ClearEdge("accounts", account.id, "account_events", "account_events");
            && "accounts" in schema.rules && var rules := schema.rules["accounts"];
            && Checked(rules.onUpdate, WithDefaults(rules.updateDefaults, op.p), false) == None
            && Step(schema, s, op).1.Some? && Step(schema, s, op).0 == s
            && !TableEdges(schema, Cleared(s, op.p.inverses, [account.id]))
  {
    hide RulesOf, AccountRules, Sound, Step, Cleared, TableEdges, SchemaOK, InverseOK, Checked, Typed, TableOK;
    var op := ClearEdge("accounts", account.id, "account_events", "account_events");
    TablesOK(d);
    CheckedTables(d);
    EventsReference();
    OtherEnd(d, 5, Updates.Change({}, {}, true));
    NoFieldsChecked(d.now, d.noCredentials, d.noExtra, op.p.inverses);
    ClearRequiredRefused(d, s, 5, account, event);
  }

  lemma EventsReference()
    ensures |REFERENCES| > 5 && REFERENCES[5] == Reference("account_events", "account_events", "accounts", Cascade)
  {
  }

  lemma APIKeysReference()
    ensures |REFERENCES| > 4 && REFERENCES[4] == Reference("api_keys", "user_api_keys", "users", NoAction)
  {
  }

  lemma UserTable(d: Defaults)
    ensures RulesOf(d, "users") == Some(EdgeRules(["member_account"], []))
  {
  }

  /** A user that has API keys: the same for ClearAPIKeys. */
  lemma ClearAPIKeysRefused(d: Defaults, s: State, user: Row, key: Row)
    requires Sound(SchemaOf(d), s) && user in RowsIn(s, "users") && key in RowsIn(s, "api_keys")
    requires CellAt(key, "user_api_keys") == Int(user.id)
    ensures var schema, op := SchemaOf(d), ClearEdge("users", user.id, "api_keys", "user_api_keys");
            && "users" in schema.rules && Step(schema, s, op).1.Some? && Step(schema, s, op).0 == s
            && !TableEdges(schema, Cleared(s, op.p.inverses, [user.id]))
  {
    hide RulesOf, Sound, Step, Cleared, TableEdges, SchemaOK, InverseOK, TableOK;
    TablesOK(d);
    UserTable(d);
    APIKeysReference();
    OtherEnd(d, 4, Updates.Change({}, {}, true));
    ClearRequiredRefused(d, s, 4, user, key);
  }

  /** Adding to a priority is not checked: from a sound account of priority 50, adding 950 succeeds and stores a
      priority of 1000. */
  lemma AddedPriorityIsNotChecked(now: int, noCredentials: string, noExtra: string, id: int, row: Row)
    requires row.id == id && AccountValid(row) && CellAt(row, "priority") == Int(50)
    ensures var rules := AccountRules(now, noCredentials, noExtra);
            var p := WithDefaults(rules.updateDefaults, Patch(map[], map["priority" := Int(950)], {}, map[], []));
            && Checked(rules.onUpdate, p, false) == None
            && CellAt(Patched(row, p), "priority") == Int(1000) && !AccountValid(Patched(row, p))
  {
    hide AccountValid;
    var rules := AccountRules(now, noCredentials, noExtra);
    var p := WithDefaults(rules.updateDefaults, Patch(map[], map["priority" := Int(950)], {}, map[], []));
    assert p.given == map["updated_at" := Time(now)];
    CheckedNone(rules.onUpdate, p, false);
    PatchedCell(row, "priority", p);
    assert AccountValid(Patched(row, p)) ==> Priority(CellAt(Patched(row, p), "priority")) by {
      PriorityOf(Patched(row, p));
    }
  }

  /** Adding to a used quota, which is a real number: 1.5 on top of 2.0 is 3.5. */
  lemma AddedQuota(now: int, row: Row)
    requires CellAt(row, "used_quota") == Float(2.0)
    ensures var p := WithDefaults(APIKeyRules(now).updateDefaults,
        Patch(map[], map["used_quota" := Float(1.5)], {}, map[], []));
            CellAt(Patched(row, p), "used_quota") == Float(3.5)
  {
    var p := WithDefaults(APIKeyRules(now).updateDefaults,
        Patch(map[], map["used_quota" := Float(1.5)], {}, map[], []));
    assert p.given == map["updated_at" := Time(now)];
    PatchedCell(row, "used_quota", p);
  }

  lemma PriorityOf(row: Row)
    ensures AccountValid(row) ==> Priority(CellAt(row, "priority"))
  {
  }
}
