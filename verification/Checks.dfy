/** What the checks of accounts, API keys and account events let through, and what a creation that sets no more than it
    must stores. */
module Checks {
  import opened Wrappers
  import opened Records
  import opened Runs
  import opened Soundness
  import opened Effects
  import opened Outcomes
  import opened Repository
  import Entities

  // ---- accounts ----

  ghost predicate NonEmptyText(given: Fields, f: string) {
    f in given && given[f].Str? && given[f].s != ""
  }

  ghost predicate AccountStates(c: Cell) {
    c == Str("active") || c == Str("rate_limited") || c == Str("degraded") || c == Str("disabled")
  }

  ghost predicate AccountFieldsValid(given: Fields) {
    && ("name" in given ==> NonEmptyText(given, "name"))
    && ("platform" in given ==> NonEmptyText(given, "platform"))
    && ("state" in given ==> AccountStates(given["state"]))
    && ("priority" in given ==> given["priority"].Int? && 0 <= given["priority"].i <= 999)
  }

  lemma RuleByRule(rules: seq<Rule>, p: Patch, creating: bool)
    ensures NoneFails(rules, p, creating) <==> forall i :: 0 <= i < |rules| ==> !Broken(rules[i], p, creating)
  {
    CheckedFirst(rules, p, creating);
    CheckedNone(rules, p, creating);
  }

  lemma AccountRequired(d: Defaults, p: Patch, i: nat)
    requires i < 15 && i !in {1, 3, 6, 8}
    ensures var rules := AccountRules(d.now, d.noCredentials, d.noExtra);
            && |rules.onCreate| == 15
            && (Broken(rules.onCreate[i], p.(given := rules.createDefaults + p.given), true) <==>
                  (i == 0 && "name" !in p.given) || (i == 2 && "platform" !in p.given))
  {
  }

  lemma AccountValidated(d: Defaults, p: Patch)
    ensures var rules := AccountRules(d.now, d.noCredentials, d.noExtra);
            var q := p.(given := rules.createDefaults + p.given);
            && (Broken(rules.onCreate[1], q, true) <==> "name" in p.given && !NonEmptyText(p.given, "name"))
            && (Broken(rules.onCreate[3], q, true) <==> "platform" in p.given && !NonEmptyText(p.given, "platform"))
  {
  }

  lemma AccountEnums(d: Defaults, p: Patch)
    ensures var rules := AccountRules(d.now, d.noCredentials, d.noExtra);
            var q := p.(given := rules.createDefaults + p.given);
            && (Broken(rules.onCreate[6], q, true) <==> "state" in p.given && !AccountStates(p.given["state"]))
            && (Broken(rules.onCreate[8], q, true) <==>
                  "priority" in p.given && !(p.given["priority"].Int? && 0 <= p.given["priority"].i <= 999))
  {
  }

  /** The content of an account's creation that passes its checks. */
  lemma AccountCreates(d: Defaults, p: Patch)
    ensures var rules := AccountRules(d.now, d.noCredentials, d.noExtra);
            NoneFails(rules.onCreate, p.(given := rules.createDefaults + p.given), true) <==>
              "name" in p.given && "platform" in p.given && AccountFieldsValid(p.given)
  {
    var rules := AccountRules(d.now, d.noCredentials, d.noExtra);
    hide AccountRules, Broken, AccountStates, NonEmptyText;
    RuleByRule(rules.onCreate, p.(given := rules.createDefaults + p.given), true);
    AccountValidated(d, p);
    AccountEnums(d, p);
    AccountRequired(d, p, 0);
    AccountRequired(d, p, 2);
    forall i | 0 <= i < 15 && i !in {1, 3, 6, 8}
      ensures Broken(rules.onCreate[i], p.(given := rules.createDefaults + p.given), true) <==>
                (i == 0 && "name" !in p.given) || (i == 2 && "platform" !in p.given)
    {
      AccountRequired(d, p, i);
    }
  }

  lemma AccountUpdateRules(d: Defaults, p: Patch)
    ensures var rules := AccountRules(d.now, d.noCredentials, d.noExtra);
            var q := p.(given := rules.updateDefaults + p.given);
            && |rules.onUpdate| == 4
            && (Broken(rules.onUpdate[0], q, false) <==> "name" in p.given && !NonEmptyText(p.given, "name"))
            && (Broken(rules.onUpdate[1], q, false) <==> "platform" in p.given && !NonEmptyText(p.given, "platform"))
            && (Broken(rules.onUpdate[2], q, false) <==> "state" in p.given && !AccountStates(p.given["state"]))
            && (Broken(rules.onUpdate[3], q, false) <==>
                  "priority" in p.given && !(p.given["priority"].Int? && 0 <= p.given["priority"].i <= 999))
  {
  }

  /** The content of an account's update that passes its checks: a field that is set has to be valid. */
  lemma AccountUpdates(d: Defaults, p: Patch)
    ensures var rules := AccountRules(d.now, d.noCredentials, d.noExtra);
            NoneFails(rules.onUpdate, p.(given := rules.updateDefaults + p.given), false) <==>
                AccountFieldsValid(p.given)
  {
    var rules := AccountRules(d.now, d.noCredentials, d.noExtra);
    hide AccountRules, Broken, AccountStates, NonEmptyText;
    RuleByRule(rules.onUpdate, p.(given := rules.updateDefaults + p.given), false);
    AccountUpdateRules(d, p);
  }

  /** Every update of an account or an API key sets the time of the update, unless it is set. */
  lemma UpdatesAreStamped(d: Defaults, row: Row, p: Patch)
    requires "updated_at" !in p.add && "updated_at" !in p.links
    ensures var stamp := if "updated_at" in p.given then p.given["updated_at"] else Time(d.now);
            var account := AccountRules(d.now, d.noCredentials, d.noExtra).updateDefaults;
            && CellAt(Patched(row, p.(given := account + p.given)), "updated_at") == stamp
            && CellAt(Patched(row, p.(given := APIKeyRules(d.now).updateDefaults + p.given)), "updated_at") == stamp
  {
    hide Patched;
    var account := AccountRules(d.now, d.noCredentials, d.noExtra).updateDefaults;
    PatchedCell(row, "updated_at", p.(given := account + p.given));
    PatchedCell(row, "updated_at", p.(given := APIKeyRules(d.now).updateDefaults + p.given));
  }

  // ---- API keys ----

  ghost predicate NotNegative(c: Cell) {
    (c.Int? && c.i >= 0) || (c.Float? && c.r >= 0.0)
  }

  ghost predicate APIKeyFieldsValid(given: Fields) {
    && ("name" in given ==> NonEmptyText(given, "name"))
    && ("key_hash" in given ==> NonEmptyText(given, "key_hash"))
    && ("sell_rate" in given ==> NotNegative(given["sell_rate"]))
    && ("max_concurrency" in given ==> NotNegative(given["max_concurrency"]))
    && ("status" in given ==> given["status"] == Str("active") || given["status"] == Str("disabled"))
  }

  /** A creation sets the edge. */
  ghost predicate HasLink(p: Patch, column: string) {
    column in p.links && p.links[column].dest.Some?
  }

  /** An update clears the edge and does not set it. */
  ghost predicate OnlyClears(p: Patch, column: string) {
    column in p.links && p.links[column] == Link(None, true)
  }

  lemma APIKeyRequired(d: Defaults, p: Patch, i: nat)
    requires i < 17 && i !in {1, 4, 9, 11, 13, 16}
    ensures var rules := APIKeyRules(d.now);
            && |rules.onCreate| == 17
            && (Broken(rules.onCreate[i], p.(given := rules.createDefaults + p.given), true) <==>
                  (i == 0 && "name" !in p.given) || (i == 3 && "key_hash" !in p.given))
  {
  }

  lemma APIKeyTexts(d: Defaults, p: Patch)
    ensures var rules := APIKeyRules(d.now);
            var q := p.(given := rules.createDefaults + p.given);
            && (Broken(rules.onCreate[1], q, true) <==> "name" in p.given && !NonEmptyText(p.given, "name"))
            && (Broken(rules.onCreate[4], q, true) <==> "key_hash" in p.given && !NonEmptyText(p.given, "key_hash"))
            && (Broken(rules.onCreate[16], q, true) <==> !HasLink(p, "user_api_keys"))
  {
  }

  lemma APIKeyNumbers(d: Defaults, p: Patch)
    ensures var rules := APIKeyRules(d.now);
            var q := p.(given := rules.createDefaults + p.given);
            && (Broken(rules.onCreate[9], q, true) <==> "sell_rate" in p.given && !NotNegative(p.given["sell_rate"]))
            && (Broken(rules.onCreate[11], q, true) <==>
                  "max_concurrency" in p.given && !NotNegative(p.given["max_concurrency"]))
            && (Broken(rules.onCreate[13], q, true) <==>
                  "status" in p.given && !(p.given["status"] == Str("active") || p.given["status"] == Str("disabled")))
  {
  }

  lemma APIKeyCreates(d: Defaults, p: Patch)
    ensures var rules := APIKeyRules(d.now);
            NoneFails(rules.onCreate, p.(given := rules.createDefaults + p.given), true) <==>
              && "name" in p.given && "key_hash" in p.given && APIKeyFieldsValid(p.given)
              && HasLink(p, "user_api_keys")
  {
    var rules := APIKeyRules(d.now);
    hide APIKeyRules, Broken, NotNegative, NonEmptyText, HasLink;
    RuleByRule(rules.onCreate, p.(given := rules.createDefaults + p.given), true);
    APIKeyTexts(d, p);
    APIKeyNumbers(d, p);
    APIKeyRequired(d, p, 0);
    APIKeyRequired(d, p, 3);
    forall i | 0 <= i < 17 && i !in {1, 4, 9, 11, 13, 16}
      ensures Broken(rules.onCreate[i], p.(given := rules.createDefaults + p.given), true) <==>
                (i == 0 && "name" !in p.given) || (i == 3 && "key_hash" !in p.given)
    {
      APIKeyRequired(d, p, i);
    }
  }

  lemma APIKeyUpdateRules(d: Defaults, p: Patch)
    ensures var rules := APIKeyRules(d.now);
            var q := p.(given := rules.updateDefaults + p.given);
            && |rules.onUpdate| == 6
            && (Broken(rules.onUpdate[0], q, false) <==> "name" in p.given && !NonEmptyText(p.given, "name"))
            && (Broken(rules.onUpdate[1], q, false) <==> "key_hash" in p.given && !NonEmptyText(p.given, "key_hash"))
            && (Broken(rules.onUpdate[2], q, false) <==> "sell_rate" in p.given && !NotNegative(p.given["sell_rate"]))
            && (Broken(rules.onUpdate[3], q, false) <==>
                  "max_concurrency" in p.given && !NotNegative(p.given["max_concurrency"]))
            && (Broken(rules.onUpdate[4], q, false) <==>
                  "status" in p.given && !(p.given["status"] == Str("active") || p.given["status"] == Str("disabled")))
            && (Broken(rules.onUpdate[5], q, false) <==> OnlyClears(p, "user_api_keys"))
  {
  }

  lemma APIKeyUpdates(d: Defaults, p: Patch)
    ensures var rules := APIKeyRules(d.now);
            NoneFails(rules.onUpdate, p.(given := rules.updateDefaults + p.given), false) <==>
              APIKeyFieldsValid(p.given) && !OnlyClears(p, "user_api_keys")
  {
    var rules := APIKeyRules(d.now);
    hide APIKeyRules, Broken, NotNegative, NonEmptyText, OnlyClears;
    RuleByRule(rules.onUpdate, p.(given := rules.updateDefaults + p.given), false);
    APIKeyUpdateRules(d, p);
  }

  // ---- account events ----

  ghost predicate EventTypes(c: Cell) {
    || c == Str("rate_limited") || c == Str("degraded") || c == Str("disabled") || c == Str("recovered")
    || c == Str("upstream_error") || c == Str("manual_disabled") || c == Str("manual_recovered")
  }

  lemma EventRequired(d: Defaults, p: Patch, i: nat)
    requires i < 9 && i != 1
    ensures var rules := AccountEventRules(d.now);
            && |rules.onCreate| == 10
            && (Broken(rules.onCreate[i], p.(given := rules.createDefaults + p.given), true) <==>
                  i == 0 && "event_type" !in p.given)
  {
  }

  lemma EventValidated(d: Defaults, p: Patch)
    ensures var rules := AccountEventRules(d.now);
            var q := p.(given := rules.createDefaults + p.given);
            && (Broken(rules.onCreate[1], q, true) <==> "event_type" in p.given && !EventTypes(p.given["event_type"]))
            && (Broken(rules.onCreate[9], q, true) <==> !HasLink(p, "account_events"))
  {
  }

  lemma EventCreates(d: Defaults, p: Patch)
    ensures var rules := AccountEventRules(d.now);
            NoneFails(rules.onCreate, p.(given := rules.createDefaults + p.given), true) <==>
              "event_type" in p.given && EventTypes(p.given["event_type"]) && HasLink(p, "account_events")
  {
    var rules := AccountEventRules(d.now);
    hide AccountEventRules, Broken, EventTypes, HasLink;
    RuleByRule(rules.onCreate, p.(given := rules.createDefaults + p.given), true);
    EventValidated(d, p);
    EventRequired(d, p, 0);
    forall i | 0 <= i < 9 && i != 1
      ensures Broken(rules.onCreate[i], p.(given := rules.createDefaults + p.given), true) <==>
                i == 0 && "event_type" !in p.given
    {
      EventRequired(d, p, i);
    }
  }

  lemma EventUpdateRules(d: Defaults, p: Patch)
    ensures var rules := AccountEventRules(d.now);
            var q := p.(given := rules.updateDefaults + p.given);
            && |rules.onUpdate| == 2
            && (Broken(rules.onUpdate[0], q, false) <==> "event_type" in p.given && !EventTypes(p.given["event_type"]))
            && (Broken(rules.onUpdate[1], q, false) <==> OnlyClears(p, "account_events"))
  {
  }

  lemma EventUpdates(d: Defaults, p: Patch)
    ensures var rules := AccountEventRules(d.now);
            NoneFails(rules.onUpdate, p.(given := rules.updateDefaults + p.given), false) <==>
              ("event_type" in p.given ==> EventTypes(p.given["event_type"])) && !OnlyClears(p, "account_events")
  {
    var rules := AccountEventRules(d.now);
    hide AccountEventRules, Broken, EventTypes, OnlyClears;
    RuleByRule(rules.onUpdate, p.(given := rules.updateDefaults + p.given), false);
    EventUpdateRules(d, p);
  }

  /** Of all that is wrong with an account event of which nothing is set, the missing type is reported. */
  lemma EmptyEvent(d: Defaults)
    ensures var rules := AccountEventRules(d.now);
            FirstFails(rules.onCreate, Patch(rules.createDefaults, map[], {}, map[], []), true,
                InvalidField("event_type"))
  {
    var rules := AccountEventRules(d.now);
    assert rules.onCreate[0] == Required("event_type") && rules.onCreate[..0] == [];
    assert Fails(rules.onCreate[0], Patch(rules.createDefaults, map[], {}, map[], []), true,
        InvalidField("event_type"));
  }

  // ---- the smallest creations ----

  /** One row more, with these cells and no others. */
  ghost predicate Adds(before: seq<Row>, after: seq<Row>, id: int, cells: Fields) {
    exists row :: after == before + [row] && row.id == id
      && forall c: string :: c != "id" ==> CellAt(row, c) == if c in cells then cells[c] else Null
  }

  lemma NewCellsAdd(before: seq<Row>, after: seq<Row>, row: Row, id: int, defaults: Fields, p: Patch, cells: Fields)
    requires after == before + [row] && NewCells(row, id, defaults, p)
    requires forall c <- p.links :: p.links[c].dest.Some?
    requires cells == defaults + p.given + map c | c in p.links && p.links[c].dest.Some? :: Int(p.links[c].dest.value)
    ensures Adds(before, after, id, cells)
  {
  }

  lemma TypedCreation(schema: Schema, entity: string, p: Patch)
    requires SchemaOK(schema) && entity in schema.rules && p.add == map[] && p.cleared == {}
    requires forall c <- p.links :: c in schema.rules[entity].foreignKeys
    requires forall c <- schema.rules[entity].foreignKeys :: c !in p.given
    ensures Typed(schema.rules[entity], WithDefaults(schema.rules[entity].createDefaults, p))
  {
    assert RulesOK(schema.rules[entity]);
  }

  /** The mutation sets fields and edges only, passes the checks, and makes these cells. */
  ghost predicate Suffices(d: Defaults, entity: string, p: Patch, cells: Fields) {
    && RulesOf(d, entity).Some? && p.inverses == [] && p.add == map[] && p.cleared == {}
    && var rules := RulesOf(d, entity).value;
    && NoneFails(rules.onCreate, p.(given := rules.createDefaults + p.given), true)
    && (forall c <- p.links :: c in rules.foreignKeys && p.links[c].dest.Some?)
    && (forall c <- rules.foreignKeys :: c !in p.given)
    && cells == rules.createDefaults + p.given
                + map c | c in p.links && p.links[c].dest.Some? :: Int(p.links[c].dest.value)
  }

  /** A creation that passes the checks and whose edges lead to stored rows, and what it adds. */
  lemma CreateAdds(d: Defaults, s: State, entity: string, p: Patch, cells: Fields)
    requires entity in TABLES && Sound(SchemaOf(d), s) && Suffices(d, entity, p, cells)
    requires LinksLead(SchemaOf(d), s, entity, p)
    ensures var op := Op.Create(entity, p, None);
            && op.entity in SchemaOf(d).rules && Step(SchemaOf(d), s, op).1 == None
            && Adds(RowsIn(s, entity), RowsIn(Step(SchemaOf(d), s, op).0, entity), s.next, cells)
  {
    hide RulesOf, NoneFails, LinksLead, Step, NewCells, TableOK, REFERENCES, RequiredOf, Adds, TableFields, TableEdges,
      Referential, SchemaOK;
    var op, schema := Op.Create(entity, p, None), SchemaOf(d);
    TablesOK(d);
    RepositoryOK(d);
    TypedCreation(schema, entity, p);
    CreateSucceeds(schema, s, op);
    CreateEffect(schema, s, op);
    var row :| RowsIn(Step(schema, s, op).0, entity) == RowsIn(s, entity) + [row]
               && NewCells(row, s.next, schema.rules[entity].createDefaults, p);
    NewCellsAdd(RowsIn(s, entity), RowsIn(Step(schema, s, op).0, entity), row, s.next,
                schema.rules[entity].createDefaults, p, cells);
  }

  /** What an account holds of which only the name and the platform are set. */
  function AccountCells(d: Defaults, name: string, platform: string): Fields {
    map["type" := Str(""), "credentials" := Bytes(d.noCredentials), "state" := Str("active"), "priority" := Int(50),
        "max_concurrency" := Int(10), "rate_multiplier" := Float(1.0), "error_msg" := Str(""),
        "upstream_is_pool" := Bool(false), "extra" := Bytes(d.noExtra), "created_at" := Time(d.now),
        "updated_at" := Time(d.now)]
    + map["name" := Str(name), "platform" := Str(platform)]
  }

  function AccountPatch(name: string, platform: string): Patch {
    Patch(map["name" := Str(name), "platform" := Str(platform)], map[], {}, map[], [])
  }

  lemma AccountCellsAre(d: Defaults, name: string, platform: string)
    ensures var p := AccountPatch(name, platform);
            AccountCells(d, name, platform)
            == AccountRules(d.now, d.noCredentials, d.noExtra).createDefaults + p.given
               + map c | c in p.links && p.links[c].dest.Some? :: Int(p.links[c].dest.value)
  {
  }

  /** These fields are no foreign keys, and these links are. */
  lemma KeysAndFields(d: Defaults)
    ensures var keys := AccountRules(d.now, d.noCredentials, d.noExtra).foreignKeys;
            "name" !in keys && "platform" !in keys
    ensures var keys := APIKeyRules(d.now).foreignKeys;
            "name" !in keys && "key_hash" !in keys && "user_api_keys" in keys
    ensures var keys := AccountEventRules(d.now).foreignKeys; "event_type" !in keys && "account_events" in keys
  {
  }

  lemma AccountSuffices(d: Defaults, name: string, platform: string)
    requires name != "" && platform != ""
    ensures Suffices(d, "accounts", AccountPatch(name, platform), AccountCells(d, name, platform))
  {
    hide RulesOf, AccountRules, NoneFails, AccountCells;
    CheckedTables(d);
    KeysAndFields(d);
    AccountCellsAre(d, name, platform);
    AccountCreates(d, AccountPatch(name, platform));
  }

  /** A name and a platform are all that an account needs. */
  lemma SmallestAccount(d: Defaults, s: State, name: string, platform: string)
    requires Sound(SchemaOf(d), s) && name != "" && platform != ""
    ensures var op := Op.Create("accounts", AccountPatch(name, platform), None);
            && op.entity in SchemaOf(d).rules && Step(SchemaOf(d), s, op).1 == None
            && Adds(RowsIn(s, "accounts"), RowsIn(Step(SchemaOf(d), s, op).0, "accounts"), s.next,
                    AccountCells(d, name, platform))
  {
    hide RulesOf, Step, REFERENCES, Adds, Sound, AccountCells, Suffices;
    AccountSuffices(d, name, platform);
    CreateAdds(d, s, "accounts", AccountPatch(name, platform), AccountCells(d, name, platform));
  }

  function APIKeyCells(d: Defaults, name: string, hash: string, user: int): Fields {
    map["key_hint" := Str(""), "quota_usd" := Float(0.0), "used_quota" := Float(0.0),
        "used_quota_actual" := Float(0.0), "sell_rate" := Float(0.0), "max_concurrency" := Int(0),
        "status" := Str("active"), "created_at" := Time(d.now), "updated_at" := Time(d.now)]
    + map["name" := Str(name), "key_hash" := Str(hash)] + map["user_api_keys" := Int(user)]
  }

  function APIKeyPatch(name: string, hash: string, user: int): Patch {
    Patch(map["name" := Str(name), "key_hash" := Str(hash)], map[], {}, map["user_api_keys" := Link(Some(user), false)],
          [])
  }

  lemma APIKeyCellsAre(d: Defaults, name: string, hash: string, user: int)
    ensures var p := APIKeyPatch(name, hash, user);
            APIKeyCells(d, name, hash, user)
            == APIKeyRules(d.now).createDefaults + p.given
               + map c | c in p.links && p.links[c].dest.Some? :: Int(p.links[c].dest.value)
  {
    var links := map["user_api_keys" := Link(Some(user), false)];
    assert (map c | c in links && links[c].dest.Some? :: Int(links[c].dest.value)) == map["user_api_keys" := Int(user)];
  }

  /** A column refers to one table. */
  lemma OneLink(d: Defaults, s: State, k: nat, p: Patch)
    requires k < |REFERENCES| && p.links.Keys == {REFERENCES[k].column} && p.links[REFERENCES[k].column].dest.Some?
    requires Stored(s, REFERENCES[k].target, p.links[REFERENCES[k].column].dest.value)
    ensures LinksLead(SchemaOf(d), s, REFERENCES[k].table, p)
  {
    hide REFERENCES, RulesOf, Stored, ReferenceOK;
    ReferencesOK(d);
    forall r | r in REFERENCES && r.column in p.links ensures r == REFERENCES[k] {
      var i :| 0 <= i < |REFERENCES| && REFERENCES[i] == r;
    }
  }

  lemma APIKeySuffices(d: Defaults, name: string, hash: string, user: int)
    requires name != "" && hash != ""
    ensures Suffices(d, "api_keys", APIKeyPatch(name, hash, user), APIKeyCells(d, name, hash, user))
  {
    hide RulesOf, APIKeyRules, NoneFails, APIKeyCells;
    CheckedTables(d);
    KeysAndFields(d);
    APIKeyCellsAre(d, name, hash, user);
    APIKeyPasses(d, name, hash, user);
  }

  lemma APIKeyPasses(d: Defaults, name: string, hash: string, user: int)
    requires name != "" && hash != ""
    ensures var rules, p := APIKeyRules(d.now), APIKeyPatch(name, hash, user);
            NoneFails(rules.onCreate, p.(given := rules.createDefaults + p.given), true)
  {
    hide APIKeyRules, NoneFails;
    APIKeyCreates(d, APIKeyPatch(name, hash, user));
  }

  /** A name, a hash and a user are all that an API key needs. */
  lemma SmallestAPIKey(d: Defaults, s: State, name: string, hash: string, user: Row)
    requires Sound(SchemaOf(d), s) && name != "" && hash != "" && user in RowsIn(s, "users")
    ensures var op := Op.Create("api_keys", APIKeyPatch(name, hash, user.id), None);
            && op.entity in SchemaOf(d).rules && Step(SchemaOf(d), s, op).1 == None
            && Adds(RowsIn(s, "api_keys"), RowsIn(Step(SchemaOf(d), s, op).0, "api_keys"), s.next,
                    APIKeyCells(d, name, hash, user.id))
  {
    hide RulesOf, Step, REFERENCES, Adds, Sound, APIKeyCells, LinksLead, Suffices;
    APIKeySuffices(d, name, hash, user.id);
    APIKeysReference();
    OneLink(d, s, 4, APIKeyPatch(name, hash, user.id));
    CreateAdds(d, s, "api_keys", APIKeyPatch(name, hash, user.id), APIKeyCells(d, name, hash, user.id));
  }

  function EventCells(d: Defaults, event: string, account: int): Fields {
    map["reason" := Str(""), "family" := Str(""), "source" := Str(""), "upstream_status" := Int(0),
        "user_id" := Int(0), "api_key_id" := Int(0), "created_at" := Time(d.now)]
    + map["event_type" := Str(event)] + map["account_events" := Int(account)]
  }

  function EventPatch(event: string, account: int): Patch {
    Patch(map["event_type" := Str(event)], map[], {}, map["account_events" := Link(Some(account), false)], [])
  }

  lemma EventCellsAre(d: Defaults, event: string, account: int)
    ensures var p := EventPatch(event, account);
            EventCells(d, event, account)
            == AccountEventRules(d.now).createDefaults + p.given
               + map c | c in p.links && p.links[c].dest.Some? :: Int(p.links[c].dest.value)
  {
    var links := map["account_events" := Link(Some(account), false)];
    assert (map c | c in links && links[c].dest.Some? :: Int(links[c].dest.value)) ==
        map["account_events" := Int(account)];
  }

  lemma EventSuffices(d: Defaults, event: string, account: int)
    requires EventTypes(Str(event))
    ensures Suffices(d, "account_events", EventPatch(event, account), EventCells(d, event, account))
  {
    hide RulesOf, AccountEventRules, NoneFails, EventCells;
    CheckedTables(d);
    KeysAndFields(d);
    EventCellsAre(d, event, account);
    EventCreates(d, EventPatch(event, account));
  }

  /** A type and an account are all that an event needs. */
  lemma SmallestEvent(d: Defaults, s: State, event: string, account: Row)
    requires Sound(SchemaOf(d), s) && EventTypes(Str(event)) && account in RowsIn(s, "accounts")
    ensures var op := Op.Create("account_events", EventPatch(event, account.id), None);
            && op.entity in SchemaOf(d).rules && Step(SchemaOf(d), s, op).1 == None
            && Adds(RowsIn(s, "account_events"), RowsIn(Step(SchemaOf(d), s, op).0, "account_events"), s.next,
                    EventCells(d, event, account.id))
  {
    hide RulesOf, Step, REFERENCES, Adds, Sound, EventCells, LinksLead, Suffices;
    EventSuffices(d, event, account.id);
    EventsReference();
    OneLink(d, s, 5, EventPatch(event, account.id));
    CreateAdds(d, s, "account_events", EventPatch(event, account.id), EventCells(d, event, account.id));
  }

  // ---- what is stored fits the nodes ----

  /** The rows of the smallest creation can be read: every cell has the type of its column. */
  lemma SmallestAccountFits(d: Defaults, decode: string -> Option<int>, id: int, name: string, platform: string)
    requires decode(d.noCredentials).Some? && decode(d.noExtra).Some?
    ensures Readable(Entities.Account(decode), Row(id, AccountCells(d, name, platform)))
  {
    var row := Row(id, AccountCells(d, name, platform));
    forall c: string ensures Fits(decode, Entities.AccountScanTag(c), CellAt(row, c)) {
      AccountCellFits(d, decode, row, c, name, platform);
    }
  }

  lemma AccountCellFits(d: Defaults, decode: string -> Option<int>, row: Row, c: string, name: string, platform: string)
    requires decode(d.noCredentials).Some? && decode(d.noExtra).Some?
    requires row.cells == AccountCells(d, name, platform)
    ensures Fits(decode, Entities.AccountScanTag(c), CellAt(row, c))
  {
  }

  lemma SmallestAPIKeyFits(d: Defaults, decode: string -> Option<int>, id: int, name: string, hash: string, user: int)
    ensures Readable(Entities.APIKey(decode), Row(id, APIKeyCells(d, name, hash, user)))
  {
    var row := Row(id, APIKeyCells(d, name, hash, user));
    forall c: string ensures Fits(decode, Entities.APIKeyScanTag(c), CellAt(row, c)) {
      APIKeyCellFits(d, decode, row, c, name, hash, user);
    }
  }

  /** A cell of the map has the type that the switch of the entity gives its column. */
  ghost predicate FitIn(decode: string -> Option<int>, scanTag: string -> Tag, cells: Fields, c: string) {
    c in cells ==> Fits(decode, scanTag(c), cells[c])
  }

  lemma FitSum(decode: string -> Option<int>, scanTag: string -> Tag, a: Fields, b: Fields, c: string)
    requires FitIn(decode, scanTag, a, c) && FitIn(decode, scanTag, b, c)
    ensures FitIn(decode, scanTag, a + b, c)
  {
  }

  const ZERO_QUOTAS: Fields :=
    map["quota_usd" := Float(0.0), "used_quota" := Float(0.0), "used_quota_actual" := Float(0.0),
        "sell_rate" := Float(0.0), "max_concurrency" := Int(0)]

  function Stamps(now: int): Fields {
    map["status" := Str("active"), "created_at" := Time(now), "updated_at" := Time(now)]
  }

  lemma QuotasFit(decode: string -> Option<int>, c: string)
    ensures FitIn(decode, Entities.APIKeyScanTag, ZERO_QUOTAS, c)
  {
  }

  lemma StampsFit(decode: string -> Option<int>, now: int, c: string)
    ensures FitIn(decode, Entities.APIKeyScanTag, Stamps(now), c)
  {
  }

  lemma TextsFit(decode: string -> Option<int>, name: string, hash: string, user: int, c: string)
    ensures FitIn(decode, Entities.APIKeyScanTag, map["key_hint" := Str("")], c)
    ensures FitIn(decode, Entities.APIKeyScanTag, map["name" := Str(name), "key_hash" := Str(hash)], c)
    ensures FitIn(decode, Entities.APIKeyScanTag, map["user_api_keys" := Int(user)], c)
  {
  }

  lemma KeyFits(decode: string -> Option<int>, id: int)
    ensures Fits(decode, Entities.APIKeyScanTag("id"), Int(id))
  {
  }

  lemma APIKeyCellsSum(d: Defaults, name: string, hash: string, user: int)
    ensures APIKeyCells(d, name, hash, user)
         == map["key_hint" := Str("")] + ZERO_QUOTAS + Stamps(d.now)
            + map["name" := Str(name), "key_hash" := Str(hash)] + map["user_api_keys" := Int(user)]
  {
    hide ZERO_QUOTAS, Stamps;
    DefaultsSum(d.now);
  }

  lemma DefaultsSum(now: int)
    ensures map["key_hint" := Str("")] + ZERO_QUOTAS + Stamps(now)
         == map["key_hint" := Str(""), "quota_usd" := Float(0.0), "used_quota" := Float(0.0),
                "used_quota_actual" := Float(0.0), "sell_rate" := Float(0.0), "max_concurrency" := Int(0),
                "status" := Str("active"), "created_at" := Time(now), "updated_at" := Time(now)]
  {
  }

  lemma APIKeyCellFits(d: Defaults, decode: string -> Option<int>, row: Row, c: string, name: string, hash: string,
                       user: int)
    requires row.cells == APIKeyCells(d, name, hash, user)
    ensures Fits(decode, Entities.APIKeyScanTag(c), CellAt(row, c))
  {
    hide APIKeyCells, Stamps, Entities.APIKeyScanTag;
    var tag := Entities.APIKeyScanTag;
    var hint: Fields, texts: Fields, owner: Fields := map["key_hint" := Str("")],
      map["name" := Str(name), "key_hash" := Str(hash)], map["user_api_keys" := Int(user)];
    QuotasFit(decode, c);
    StampsFit(decode, d.now, c);
    TextsFit(decode, name, hash, user, c);
    KeyFits(decode, row.id);
    APIKeyCellsSum(d, name, hash, user);
    FitSum(decode, tag, hint, ZERO_QUOTAS, c);
    FitSum(decode, tag, hint + ZERO_QUOTAS, Stamps(d.now), c);
    FitSum(decode, tag, hint + ZERO_QUOTAS + Stamps(d.now), texts, c);
    FitSum(decode, tag, hint + ZERO_QUOTAS + Stamps(d.now) + texts, owner, c);
    assert FitIn(decode, tag, row.cells, c);
  }
}
