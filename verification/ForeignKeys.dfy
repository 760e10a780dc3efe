/** The foreign keys of the database and the edges of the entities: two descriptions of the same links. */
module ForeignKeys {
  import opened Wrappers
  import opened Records
  import opened Runs
  import opened Deletions
  import Repository
  import Entities
  import Edges

  // ---- every edge is a foreign key ----

  /** The foreign key of the edge is where it has to be, and between the same tables. */
  ghost predicate EdgeIsKey(name: string, e: Edge) {
    match e
    case M2M(_, _, _, _) => true
    case O2M(_, target, column) => IsKey(target, column, name)
    case M2O(_, target, column) => IsKey(name, column, target)
  }

  /** Where the foreign key of each edge is among the references. */
  ghost predicate AllAt(name: string, edges: seq<Edge>, at: seq<nat>) {
    |at| == |edges| && forall k :: 0 <= k < |edges| ==> KeyAt(name, edges[k], at[k])
  }

  ghost predicate KeyAt(name: string, e: Edge, i: nat) {
    match e
    case M2M(_, _, _, _) => true
    case O2M(_, target, column) => RefersAt(target, column, name, i)
    case M2O(_, target, column) => RefersAt(name, column, target, i)
  }

  ghost predicate RefersAt(table: string, column: string, target: string, i: nat) {
    && i < |Repository.REFERENCES| && Repository.REFERENCES[i].table == table
    && Repository.REFERENCES[i].column == column && Repository.REFERENCES[i].target == target
  }

  lemma AccountKeys(decode: string -> Option<int>)
    ensures AllAt("accounts", Entities.Account(decode).edges, [0, 0, 12, 5])
  {
  }

  lemma APIKeyKeys(decode: string -> Option<int>)
    ensures AllAt("api_keys", Entities.APIKey(decode).edges, [4, 2, 3, 1, 11])
  {
  }

  lemma LogKeys()
    ensures AllAt("account_events", [Edges.EVENT_ACCOUNT], [5]) && AllAt("balance_logs", Edges.BALANCE_EDGES, [6])
    ensures AllAt("usage_logs", Edges.LOG_EDGES, [14, 11, 12, 13])
  {
  }

  lemma GroupKeys()
    ensures AllAt("groups", Edges.GROUP_EDGES, [0, 0, 2, 17, 13])
  {
  }

  const USER_AT: seq<nat> := [4, 10, 8, 15, 18, 14, 0, 6, 16]

  lemma UserKeysFirst()
    ensures forall k :: 0 <= k < 5 ==> KeyAt("users", Edges.USER_EDGES[k], USER_AT[k])
  {
  }

  lemma UserKeysLast()
    ensures forall k :: 5 <= k < 9 ==> KeyAt("users", Edges.USER_EDGES[k], USER_AT[k])
  {
  }

  lemma UserKeys()
    ensures AllAt("users", Edges.USER_EDGES, USER_AT)
  {
    hide KeyAt;
    UserKeysFirst();
    UserKeysLast();
  }

  lemma DepartmentKeys()
    ensures AllAt("departments", Edges.DEPARTMENT_EDGES, [8, 9, 1, 7]) && AllAt("proxies", Edges.PROXY_EDGES, [0])
  {
  }

  lemma MemberKeys()
    ensures AllAt("members", Edges.MEMBER_EDGES, [10, 3, 9])
  {
  }

  lemma OwnedKeys()
    ensures AllAt("user_identities", Edges.IDENTITY_EDGES, [16])
    ensures AllAt("user_subscriptions", Edges.SUBSCRIPTION_EDGES, [18, 17])
  {
  }

  function EdgesOf(decode: string -> Option<int>, name: string): seq<Edge> {
    if Edges.EntityOf(decode, name).Some? then Edges.EntityOf(decode, name).value.edges else []
  }

  lemma FirstEdges(decode: string -> Option<int>)
    ensures EdgesOf(decode, "accounts") == Entities.Account(decode).edges
    ensures EdgesOf(decode, "api_keys") == Entities.APIKey(decode).edges
    ensures EdgesOf(decode, "account_events") == [Edges.EVENT_ACCOUNT]
    ensures EdgesOf(decode, "balance_logs") == Edges.BALANCE_EDGES
    ensures EdgesOf(decode, "departments") == Edges.DEPARTMENT_EDGES
    ensures EdgesOf(decode, "groups") == Edges.GROUP_EDGES
  {
    hide Entities.Account, Entities.APIKey;
  }

  lemma LastEdges(decode: string -> Option<int>)
    ensures EdgesOf(decode, "members") == Edges.MEMBER_EDGES
    ensures EdgesOf(decode, "proxies") == Edges.PROXY_EDGES
    ensures EdgesOf(decode, "usage_logs") == Edges.LOG_EDGES
    ensures EdgesOf(decode, "users") == Edges.USER_EDGES
    ensures EdgesOf(decode, "user_identities") == Edges.IDENTITY_EDGES
    ensures EdgesOf(decode, "user_subscriptions") == Edges.SUBSCRIPTION_EDGES
  {
    hide Entities.Account, Entities.APIKey;
  }

  /** The references of all edges of a table, in the order of its edges. */
  function EdgeNumbers(name: string): seq<nat> {
    match name
    case "accounts" => [0, 0, 12, 5]
    case "api_keys" => [4, 2, 3, 1, 11]
    case "account_events" => [5]
    case "balance_logs" => [6]
    case "departments" => [8, 9, 1, 7]
    case "groups" => [0, 0, 2, 17, 13]
    case "members" => [10, 3, 9]
    case "proxies" => [0]
    case "usage_logs" => [14, 11, 12, 13]
    case "users" => [4, 10, 8, 15, 18, 14, 0, 6, 16]
    case "user_identities" => [16]
    case "user_subscriptions" => [18, 17]
    case _ => []
  }

  lemma EdgesNumbered(decode: string -> Option<int>, name: string)
    ensures AllAt(name, EdgesOf(decode, name), EdgeNumbers(name))
  {
    hide AllAt, EdgesOf;
    AccountKeys(decode);
    APIKeyKeys(decode);
    LogKeys();
    GroupKeys();
    UserKeys();
    DepartmentKeys();
    MemberKeys();
    OwnedKeys();
    FirstEdges(decode);
    LastEdges(decode);
    if name !in Edges.NAMES {
      NoEdges(decode, name);
    }
  }

  lemma NoEdges(decode: string -> Option<int>, name: string)
    requires name !in Edges.NAMES
    ensures AllAt(name, EdgesOf(decode, name), EdgeNumbers(name))
  {
    hide KeyAt;
    if Edges.EntityOf(decode, name).Some? {
      Edges.NamesAll(decode, name);
    }
  }

  /** Every O2M and M2O edge of every entity is a foreign key between the same tables. */
  lemma EdgesAreKeys(decode: string -> Option<int>, name: string, k: nat)
    requires Edges.EntityOf(decode, name).Some? && k < |Edges.EntityOf(decode, name).value.edges|
    ensures EdgeIsKey(name, Edges.EntityOf(decode, name).value.edges[k])
  {
    hide Repository.REFERENCES, EdgeNumbers, Edges.EntityOf;
    EdgesNumbered(decode, name);
    assert KeyAt(name, EdgesOf(decode, name)[k], EdgeNumbers(name)[k]);
  }

  // ---- every foreign key is an edge ----

  /** The table has the M2O edge of the reference. */
  ghost predicate NearEnd(decode: string -> Option<int>, r: Reference) {
    exists e <- EdgesOf(decode, r.table) :: e.M2O? && e.target == r.target && e.column == r.column
  }

  /** The target has its O2M edge. */
  ghost predicate FarEnd(decode: string -> Option<int>, r: Reference) {
    exists e <- EdgesOf(decode, r.target) :: e.O2M? && e.target == r.table && e.column == r.column
  }

  lemma AtEnd(decode: string -> Option<int>, name: string, k: nat)
    requires k < |EdgesOf(decode, name)|
    ensures k < |EdgeNumbers(name)|
    ensures !EdgesOf(decode, name)[k].M2M? ==> EdgeNumbers(name)[k] < |Repository.REFERENCES|
    ensures EdgesOf(decode, name)[k].M2O? ==> NearEnd(decode, Repository.REFERENCES[EdgeNumbers(name)[k]])
    ensures EdgesOf(decode, name)[k].O2M? ==> FarEnd(decode, Repository.REFERENCES[EdgeNumbers(name)[k]])
  {
    hide Repository.REFERENCES, EdgeNumbers, EdgesOf;
    EdgesNumbered(decode, name);
    assert KeyAt(name, EdgesOf(decode, name)[k], EdgeNumbers(name)[k]);
    assert EdgesOf(decode, name)[k] in EdgesOf(decode, name);
  }

  lemma NearFirst(decode: string -> Option<int>)
    ensures forall i :: 0 <= i < 7 ==> NearEnd(decode, Repository.REFERENCES[i])
  {
    hide Repository.REFERENCES, NearEnd, FarEnd, EdgesOf;
    Size();
    FirstEdges(decode);
    AtEnd(decode, "accounts", 1);
    AtEnd(decode, "api_keys", 3);
    AtEnd(decode, "api_keys", 1);
    AtEnd(decode, "api_keys", 2);
    AtEnd(decode, "api_keys", 0);
    AtEnd(decode, "account_events", 0);
    AtEnd(decode, "balance_logs", 0);
  }

  lemma NearMiddle(decode: string -> Option<int>)
    ensures forall i :: 7 <= i < 13 ==> NearEnd(decode, Repository.REFERENCES[i])
  {
    hide Repository.REFERENCES, NearEnd, FarEnd, EdgesOf;
    Size();
    FirstEdges(decode);
    LastEdges(decode);
    AtEnd(decode, "departments", 3);
    AtEnd(decode, "departments", 0);
    AtEnd(decode, "members", 2);
    AtEnd(decode, "members", 0);
    AtEnd(decode, "usage_logs", 1);
    AtEnd(decode, "usage_logs", 2);
  }

  lemma NearLast(decode: string -> Option<int>)
    ensures forall i :: 13 <= i < 19 ==> NearEnd(decode, Repository.REFERENCES[i])
  {
    hide Repository.REFERENCES, NearEnd, FarEnd, EdgesOf;
    Size();
    LastEdges(decode);
    AtEnd(decode, "usage_logs", 3);
    AtEnd(decode, "usage_logs", 0);
    AtEnd(decode, "users", 3);
    AtEnd(decode, "user_identities", 0);
    AtEnd(decode, "user_subscriptions", 1);
    AtEnd(decode, "user_subscriptions", 0);
  }

  lemma FarFirst(decode: string -> Option<int>)
    ensures forall i :: 0 <= i < 7 ==> FarEnd(decode, Repository.REFERENCES[i])
  {
    hide Repository.REFERENCES, NearEnd, FarEnd, EdgesOf;
    Size();
    FirstEdges(decode);
    LastEdges(decode);
    AtEnd(decode, "proxies", 0);
    AtEnd(decode, "departments", 2);
    AtEnd(decode, "groups", 2);
    AtEnd(decode, "members", 1);
    AtEnd(decode, "users", 0);
    AtEnd(decode, "accounts", 3);
    AtEnd(decode, "users", 7);
  }

  lemma FarMiddle(decode: string -> Option<int>)
    ensures forall i :: 7 <= i < 13 && i != 7 ==> FarEnd(decode, Repository.REFERENCES[i])
  {
    hide Repository.REFERENCES, NearEnd, FarEnd, EdgesOf;
    Size();
    FirstEdges(decode);
    LastEdges(decode);
    AtEnd(decode, "users", 2);
    AtEnd(decode, "departments", 1);
    AtEnd(decode, "users", 1);
    AtEnd(decode, "api_keys", 4);
    AtEnd(decode, "accounts", 2);
  }

  lemma FarLast(decode: string -> Option<int>)
    ensures forall i :: 13 <= i < 19 && i != 15 ==> FarEnd(decode, Repository.REFERENCES[i])
  {
    hide Repository.REFERENCES, NearEnd, FarEnd, EdgesOf;
    Size();
    FirstEdges(decode);
    LastEdges(decode);
    AtEnd(decode, "groups", 4);
    AtEnd(decode, "users", 5);
    AtEnd(decode, "users", 8);
    AtEnd(decode, "groups", 3);
    AtEnd(decode, "users", 4);
  }

  lemma Size()
    ensures |Repository.REFERENCES| == 19
  {
  }

  lemma OneSided(i: nat)
    requires i < 19
    ensures Repository.REFERENCES[i].column in {"department_manager", "member_account"} <==> i == 7 || i == 15
  {
  }

  /** Every foreign key is the M2O edge of its table, and the O2M edge of its target unless the target has no such edge:
      a member has no list of the departments that it manages, and its account is a single user. */
  lemma KeysAreEdges(decode: string -> Option<int>, r: Reference)
    requires r in Repository.REFERENCES
    ensures NearEnd(decode, r)
    ensures r.column !in {"department_manager", "member_account"} ==> FarEnd(decode, r)
  {
    Size();
    hide Repository.REFERENCES, NearEnd, FarEnd;
    NearFirst(decode);
    NearMiddle(decode);
    NearLast(decode);
    FarFirst(decode);
    FarMiddle(decode);
    FarLast(decode);
    var i :| 0 <= i < |Repository.REFERENCES| && Repository.REFERENCES[i] == r;
    OneSided(i);
  }

  lemma SameKeysFirst(d: Repository.Defaults, decode: string -> Option<int>)
    ensures forall name <- {"accounts", "api_keys", "account_events", "balance_logs", "departments", "groups"} ::
              && Repository.RulesOf(d, name).Some? && Edges.EntityOf(decode, name).Some?
              && Repository.RulesOf(d, name).value.foreignKeys == Edges.EntityOf(decode, name).value.foreignKeys
  {
  }

  lemma SameKeysLast(d: Repository.Defaults, decode: string -> Option<int>)
    ensures forall name <- {"members", "proxies", "usage_logs", "users", "user_identities", "user_subscriptions"} ::
              && Repository.RulesOf(d, name).Some? && Edges.EntityOf(decode, name).Some?
              && Repository.RulesOf(d, name).value.foreignKeys == Edges.EntityOf(decode, name).value.foreignKeys
  {
  }

  /** What the builders write and what the queries read are the same foreign keys. */
  lemma SameKeys(d: Repository.Defaults, decode: string -> Option<int>, name: string)
    requires name in Edges.NAMES
    ensures Repository.RulesOf(d, name).Some? && Edges.EntityOf(decode, name).Some?
    ensures Repository.RulesOf(d, name).value.foreignKeys == Edges.EntityOf(decode, name).value.foreignKeys
  {
    hide Repository.RulesOf, Edges.EntityOf;
    SameKeysFirst(d, decode);
    SameKeysLast(d, decode);
  }
}
