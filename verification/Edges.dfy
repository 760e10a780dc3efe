/** The edges of the repository that are loaded from both of their ends. */
module Edges {
  import opened Wrappers
  import opened Records
  import opened Store
  import opened Queries
  import opened Nodes
  import opened Joins
  import opened Shapes
  import opened Meaning
  import opened EagerLoad
  import opened Terminals
  import opened Views
  import opened Entities
  import Example

  const GROUP_ACCOUNTS := M2M("accounts", "accounts", "account_groups", true)
  const DEPARTMENT_API_KEYS := O2M("api_keys", "api_keys", "department_api_keys")
  const EVENT_ACCOUNT := M2O("account", "accounts", "account_events")

  // ---- two executed queries ----

  /** The i-th node of an executed query that asks for edge k without a filter; no window has cut the edge's batch, and
      the node's row is served. */
  ghost predicate Asks(v: Env, t: Tree, sh: Shape, k: nat, i: nat)
    reads NodesIn(sh)
  {
    && Executable(v, t) && Loads(v, t, sh) && k < |t.subs| && t.subs[k].Some? && t.subs[k].value.predicates == []
    && var e, S, rows := v.schema[t.entity].edges[k], t.subs[k].value, AllRows(v, t);
    && S.entity in v.schema && i < |rows| && EdgeUncut(v, e, S, rows) && ServedEdge(v, e, S, rows, i)
  }

  lemma AskedSide(v: Env, t: Tree, sh: Shape, k: nat, i: nat) returns (x: Side)
    requires Asks(v, t, sh, k, i)
    ensures EnvOK(v) && t.entity in v.schema && i < |sh.nodes| == |AllRows(v, t)| && LoadedWhole(v, x, t.entity)
    ensures x.e == v.schema[t.entity].edges[k] && x.k == k && x.S == t.subs[k].value && x.rows == AllRows(v, t)
    ensures x.nodes == sh.nodes && sh.nodes[i].rec.id == AllRows(v, t)[i].id
    ensures ServedEdge(v, x.e, x.S, x.rows, i)
  {
    hide EnvOK, FitsSchema, Shows, ShowsEdge, EdgeUncut, ServedEdge;
    var p, rows := Prepared(t, v.db), AllRows(v, t);
    SameSubs(v, t, p);
    RunnableRoot(v, t);
    RowsInTable(v, p, None);
    hide Stream;
    ShownEdge(v, p, false, rows, sh, k);
    EnvEntity(v, t.entity);
    LoadsIDs(v, t, sh);
    x := Side(v.schema[t.entity].edges[k], k, t.subs[k].value, rows, sh.nodes, sh.below[k].value);
  }

  /** Node j is in the list of node i iff node i is in the list of node j. */
  ghost predicate ListsAgree(nodes: seq<Node>, k: nat, i: nat, others: seq<Node>, l: nat, j: nat)
    reads SetOf(nodes), SetOf(others), set n, m | n in nodes && k < |n.edges| && m in n.edges[k].many :: m
    reads set n, m | n in others && l < |n.edges| && m in n.edges[l].many :: m
  {
    && i < |nodes| && k < |nodes[i].edges| && j < |others| && l < |others[j].edges|
    && (Has(nodes[i].edges[k].many, others[j].rec.id) <==> Has(others[j].edges[l].many, nodes[i].rec.id))
  }

  /** Node j is in the list of node i iff node i is the unique neighbour of node j. */
  ghost predicate EndsAgree(nodes: seq<Node>, k: nat, i: nat, others: seq<Node>, l: nat, j: nat)
    reads SetOf(nodes), SetOf(others), set n, m | n in nodes && k < |n.edges| && m in n.edges[k].many :: m
    reads set n | n in others && l < |n.edges| && n.edges[l].one.Some? :: n.edges[l].one.value
  {
    && i < |nodes| && k < |nodes[i].edges| && j < |others| && l < |others[j].edges|
    && var one := others[j].edges[l].one;
       (Has(nodes[i].edges[k].many, others[j].rec.id) <==> one.Some? && one.value.rec.id == nodes[i].rec.id)
  }

  /** The two directions of a join table, loaded by two queries. */
  lemma JoinBothWays(v: Env, t: Tree, sh: Shape, k: nat, i: nat, u: Tree, ush: Shape, l: nat, j: nat)
    requires Asks(v, t, sh, k, i) && Asks(v, u, ush, l, j)
    requires var e, f := v.schema[t.entity].edges[k], v.schema[u.entity].edges[l];
             Inverse(e, f) && e.target == u.entity && f.target == t.entity
    ensures ListsAgree(sh.nodes, k, i, ush.nodes, l, j)
  {
    hide EnvOK, Loads, Executable, EdgeUncut, ServedEdge, Shows;
    var x := AskedSide(v, t, sh, k, i);
    var y := AskedSide(v, u, ush, l, j);
    JoinViewsAgree(v, x, y, i, j);
  }

  /** The two ends of a foreign key, loaded by two queries. */
  lemma KeyBothWays(v: Env, t: Tree, sh: Shape, k: nat, i: nat, u: Tree, ush: Shape, l: nat, j: nat)
    requires Asks(v, t, sh, k, i) && Asks(v, u, ush, l, j)
    requires var e, f := v.schema[t.entity].edges[k], v.schema[u.entity].edges[l];
             e.O2M? && f.M2O? && e.column == f.column && e.target == u.entity && f.target == t.entity
    ensures EndsAgree(sh.nodes, k, i, ush.nodes, l, j)
  {
    hide EnvOK, Loads, Executable, EdgeUncut, ServedEdge, Shows;
    var x := AskedSide(v, t, sh, k, i);
    var y := AskedSide(v, u, ush, l, j);
    KeyViewsAgree(v, x, y, i, j);
  }

  /** Row m is linked to the owner: by a pair of the join table, whose first column is the owner's unless the edge is
      swapped, by its own foreign key, or by the owner's. */
  predicate LinkedTo(db: DB, e: Edge, owner: Row, m: Row) {
    match e
    case M2M(_, _, table, swapped) =>
      table in db.joins && (if swapped then (m.id, owner.id) else (owner.id, m.id)) in db.joins[table]
    case O2M(_, _, column) => CellAt(m, column) == Int(owner.id)
    case M2O(_, _, column) => CellAt(owner, column) == Int(m.id)
  }

  lemma LinkedIs(db: DB, e: Edge, owner: Row, m: Row)
    ensures Related(db, e, owner, m) <==> LinkedTo(db, e, owner, m)
  {
  }

  /** Node i has the neighbour of the given key. */
  ghost predicate HasNeighbour(e: Edge, nodes: seq<Node>, k: nat, i: nat, id: int)
    reads SetOf(nodes)
    reads set n, m | n in nodes && k < |n.edges| && m in n.edges[k].many :: m
    reads set n | n in nodes && k < |n.edges| && n.edges[k].one.Some? :: n.edges[k].one.value
  {
    && i < |nodes| && k < |nodes[i].edges|
    && if e.M2O? then nodes[i].edges[k].one.Some? && nodes[i].edges[k].one.value.rec.id == id
       else Has(nodes[i].edges[k].many, id)
  }

  /** What an edge holds that is asked for without a filter: exactly the stored rows that are linked to the node's. */
  lemma AskedHolds(v: Env, t: Tree, sh: Shape, k: nat, i: nat, m: Row)
    requires Asks(v, t, sh, k, i) && m in Table(v.db, v.schema[t.entity].edges[k].target)
    ensures i < |AllRows(v, t)|
    ensures var e := v.schema[t.entity].edges[k];
            HasNeighbour(e, sh.nodes, k, i, m.id) <==> LinkedTo(v.db, e, AllRows(v, t)[i], m)
  {
    hide EnvOK, Loads, Executable, EdgeUncut, ServedEdge, Shows, Has, AllRows;
    var x := AskedSide(v, t, sh, k, i);
    LinkedIs(v.db, x.e, x.rows[i], m);
    DealtEdge(v, x, i);
    if x.e.M2O? {
      OneIs(v, x, t.entity, i, m);
    } else {
      ListDealt(v, x, t.entity, i, m);
    }
  }

  lemma DealtEdge(v: Env, x: Side, i: nat)
    requires ShowsEdge(v, x.e, x.k, x.S, x.rows, x.nodes, x.sh) && i < |x.rows|
    ensures i < |x.nodes| && x.k < |x.nodes[i].edges|
  {
    hide Shows, EdgeBatch;
  }

  lemma AccountEdges(v: Env, decode: string -> Option<int>)
    requires Stores(decode, v) && "accounts" in v.schema
    ensures |v.schema["accounts"].edges| == 4
    ensures v.schema["accounts"].edges[0] == M2M("groups", "groups", "account_groups", false)
    ensures v.schema["accounts"].edges[3] == O2M("events", "account_events", "account_events")
  {
  }

  lemma APIKeyEdges(v: Env, decode: string -> Option<int>)
    requires Stores(decode, v) && "api_keys" in v.schema
    ensures |v.schema["api_keys"].edges| == 5
    ensures v.schema["api_keys"].edges[3] == M2O("department", "departments", "department_api_keys")
  {
  }

  lemma OtherEdges(v: Env, decode: string -> Option<int>)
    requires Stores(decode, v)
    ensures "groups" in v.schema ==> |v.schema["groups"].edges| > 0 && v.schema["groups"].edges[0] == GROUP_ACCOUNTS
    ensures "departments" in v.schema ==>
              |v.schema["departments"].edges| > 2 && v.schema["departments"].edges[2] == DEPARTMENT_API_KEYS
    ensures "account_events" in v.schema ==> v.schema["account_events"].edges == [EVENT_ACCOUNT]
  {
    hide Account, APIKey;
  }

  /** A group is in a loaded account's Edges.Groups iff the account is in the loaded group's Edges.Accounts. */
  lemma AccountGroups(v: Env, decode: string -> Option<int>, t: Tree, sh: Shape, i: nat, u: Tree, ush: Shape, j: nat)
    requires Stores(decode, v) && t.entity == "accounts" && u.entity == "groups"
    requires Asks(v, t, sh, 0, i) && Asks(v, u, ush, 0, j)
    ensures ListsAgree(sh.nodes, 0, i, ush.nodes, 0, j)
  {
    hide Loads, EnvOK, SubsFit, EdgeUncut, ServedEdge, Stores, ListsAgree;
    AccountEdges(v, decode);
    OtherEdges(v, decode);
    JoinBothWays(v, t, sh, 0, i, u, ush, 0, j);
  }

  /** An API key is in a loaded department's Edges.APIKeys iff the department is the loaded key's Edges.Department. */
  lemma DepartmentAPIKeys(v: Env, decode: string -> Option<int>, t: Tree, sh: Shape, i: nat, u: Tree, ush: Shape,
                          j: nat)
    requires Stores(decode, v) && t.entity == "departments" && u.entity == "api_keys"
    requires Asks(v, t, sh, 2, i) && Asks(v, u, ush, 3, j)
    ensures EndsAgree(sh.nodes, 2, i, ush.nodes, 3, j)
  {
    hide Loads, EnvOK, SubsFit, EdgeUncut, ServedEdge, Stores, EndsAgree;
    APIKeyEdges(v, decode);
    OtherEdges(v, decode);
    KeyBothWays(v, t, sh, 2, i, u, ush, 3, j);
  }

  /** An event is in a loaded account's Edges.Events iff the account is the loaded event's Edges.Account. */
  lemma AccountEvents(v: Env, decode: string -> Option<int>, t: Tree, sh: Shape, i: nat, u: Tree, ush: Shape, j: nat)
    requires Stores(decode, v) && t.entity == "accounts" && u.entity == "account_events"
    requires Asks(v, t, sh, 3, i) && Asks(v, u, ush, 0, j)
    ensures EndsAgree(sh.nodes, 3, i, ush.nodes, 0, j)
  {
    hide Loads, EnvOK, SubsFit, EdgeUncut, ServedEdge, Stores, EndsAgree;
    AccountEdges(v, decode);
    OtherEdges(v, decode);
    KeyBothWays(v, t, sh, 3, i, u, ush, 0, j);
  }

  // ---- the schema of these entities ----

  /** An entity of which only the key, the foreign keys and the edges matter here. */
  function Keyed(foreignKeys: seq<string>, edges: seq<Edge>): Entity {
    var tag := (c: string) => if c == "id" || c in foreignKeys then NullInt64 else UnknownType;
    var assign := (c: string) => if c == "id" || c in foreignKeys then Some(NullInt64) else None;
    Entity(["id"], foreignKeys, edges, tag, assign, _ => None)
  }

  const GROUP_EDGES := [
    GROUP_ACCOUNTS, M2M("allowed_users", "users", "user_allowed_groups", true),
    O2M("api_keys", "api_keys", "group_api_keys"), O2M("subscriptions", "user_subscriptions", "group_subscriptions"),
    O2M("usage_logs", "usage_logs", "group_usage_logs")]
  const USER_EDGES := [
    O2M("api_keys", "api_keys", "user_api_keys"), O2M("members", "members", "user_members"),
    O2M("departments", "departments", "user_departments"), M2O("membership", "members", "member_account"),
    O2M("subscriptions", "user_subscriptions", "user_subscriptions"),
    O2M("usage_logs", "usage_logs", "user_usage_logs"), M2M("allowed_groups", "groups", "user_allowed_groups", false),
    O2M("balance_logs", "balance_logs", "user_balance_logs"),
    O2M("identities", "user_identities", "user_identities")]
  const MEMBER_KEYS := ["department_members", "user_members"]
  const MEMBER_EDGES := [
    M2O("owner", "users", "user_members"), O2M("api_keys", "api_keys", "member_api_keys"),
    M2O("department", "departments", "department_members")]
  const DEPARTMENT_KEYS := ["department_manager", "user_departments"]
  const DEPARTMENT_EDGES := [
    M2O("owner", "users", "user_departments"), O2M("members", "members", "department_members"), DEPARTMENT_API_KEYS,
    M2O("manager", "members", "department_manager")]
  const PROXY_EDGES := [O2M("accounts", "accounts", "account_proxy")]
  const LOG_KEYS := ["api_key_usage_logs", "account_usage_logs", "group_usage_logs", "user_usage_logs"]
  const LOG_EDGES := [
    M2O("user", "users", "user_usage_logs"), M2O("api_key", "api_keys", "api_key_usage_logs"),
    M2O("account", "accounts", "account_usage_logs"), M2O("group", "groups", "group_usage_logs")]
  const BALANCE_EDGES := [M2O("user", "users", "user_balance_logs")]
  const IDENTITY_EDGES := [M2O("user", "users", "user_identities")]
  const SUBSCRIPTION_KEYS := ["group_subscriptions", "user_subscriptions"]
  const SUBSCRIPTION_EDGES := [
    M2O("user", "users", "user_subscriptions"), M2O("group", "groups", "group_subscriptions")]

  function EntityOf(decode: string -> Option<int>, name: string): Option<Entity> {
    match name
    case "accounts" => Some(Account(decode))
    case "api_keys" => Some(APIKey(decode))
    case "account_events" => Some(Keyed(["account_events"], [EVENT_ACCOUNT]))
    case "balance_logs" => Some(Keyed(["user_balance_logs"], BALANCE_EDGES))
    case "departments" => Some(Keyed(DEPARTMENT_KEYS, DEPARTMENT_EDGES))
    case "groups" => Some(Keyed([], GROUP_EDGES))
    case "members" => Some(Keyed(MEMBER_KEYS, MEMBER_EDGES))
    case "proxies" => Some(Keyed([], PROXY_EDGES))
    case "usage_logs" => Some(Keyed(LOG_KEYS, LOG_EDGES))
    case "users" => Some(Keyed(["member_account"], USER_EDGES))
    case "user_identities" => Some(Keyed(["user_identities"], IDENTITY_EDGES))
    case "user_subscriptions" => Some(Keyed(SUBSCRIPTION_KEYS, SUBSCRIPTION_EDGES))
    case _ => None
  }

  /** An edge leads to an entity of the schema, and its foreign key is one of the entity that has it. */
  ghost predicate EdgeFits(decode: string -> Option<int>, name: string, e: Edge)
    requires EntityOf(decode, name).Some?
  {
    && EntityOf(decode, e.target).Some?
    && (e.O2M? ==> e.column in EntityOf(decode, e.target).value.foreignKeys)
    && (e.M2O? ==> e.column in EntityOf(decode, name).value.foreignKeys)
  }

  ghost predicate EdgesFit(decode: string -> Option<int>, name: string) {
    EntityOf(decode, name).Some? ==>
      forall k :: 0 <= k < |EntityOf(decode, name).value.edges| ==>
          EdgeFits(decode, name, EntityOf(decode, name).value.edges[k])
  }

  lemma KeyedOK(foreignKeys: seq<string>, edges: seq<Edge>)
    requires "id" !in foreignKeys
    ensures EntityOK(Keyed(foreignKeys, edges))
  {
  }

  lemma EntityFits(decode: string -> Option<int>, name: string)
    requires EntityOf(decode, name).Some?
    ensures EntityOK(EntityOf(decode, name).value)
  {
    hide EntityOK, Keyed;
    AccountOK(decode);
    APIKeyOK(decode);
    KeyedOK(["account_events"], [EVENT_ACCOUNT]);
    KeyedOK(["user_balance_logs"], BALANCE_EDGES);
    KeyedOK(DEPARTMENT_KEYS, DEPARTMENT_EDGES);
    KeyedOK([], GROUP_EDGES);
    KeyedOK(MEMBER_KEYS, MEMBER_EDGES);
    KeyedOK([], PROXY_EDGES);
    KeyedOK(LOG_KEYS, LOG_EDGES);
    KeyedOK(["member_account"], USER_EDGES);
    KeyedOK(["user_identities"], IDENTITY_EDGES);
    KeyedOK(SUBSCRIPTION_KEYS, SUBSCRIPTION_EDGES);
  }

  lemma AccountEdgesFit(decode: string -> Option<int>)
    ensures EdgesFit(decode, "accounts")
  {
  }

  lemma APIKeyEdgesFit(decode: string -> Option<int>)
    ensures EdgesFit(decode, "api_keys")
  {
  }

  lemma EventEdgesFit(decode: string -> Option<int>)
    ensures EdgesFit(decode, "account_events") && EdgesFit(decode, "usage_logs") && EdgesFit(decode, "balance_logs")
  {
  }

  lemma GroupEdgesFit(decode: string -> Option<int>)
    ensures EdgesFit(decode, "groups")
  {
  }

  lemma UserEdgesFit(decode: string -> Option<int>)
    ensures EdgesFit(decode, "users")
  {
  }

  lemma DepartmentEdgesFit(decode: string -> Option<int>)
    ensures EdgesFit(decode, "departments") && EdgesFit(decode, "proxies")
  {
  }

  lemma MemberEdgesFit(decode: string -> Option<int>)
    ensures EdgesFit(decode, "members")
  {
  }

  lemma OwnedEdgesFit(decode: string -> Option<int>)
    ensures EdgesFit(decode, "user_identities") && EdgesFit(decode, "user_subscriptions")
  {
  }

  /** A database of these entities. */
  ghost predicate Stores(decode: string -> Option<int>, v: Env) {
    && DBOK(v.db)
    && forall name <- v.schema ::
         && EntityOf(decode, name) == Some(v.schema[name])
         && forall row <- Table(v.db, name) :: Readable(v.schema[name], row)
  }

  const NAMES := {"accounts", "api_keys", "account_events", "balance_logs", "departments", "groups", "members",
      "proxies", "usage_logs", "users", "user_identities", "user_subscriptions"}

  /** These entities make up a schema as eager loading assumes it, whatever is stored. */
  lemma EntitiesOK(decode: string -> Option<int>, v: Env)
    requires Stores(decode, v) && v.schema.Keys == NAMES
    ensures EnvOK(v)
  {
    hide EntityOf, EntityOK, Readable, DBOK;
    AccountEdgesFit(decode);
    APIKeyEdgesFit(decode);
    EventEdgesFit(decode);
    GroupEdgesFit(decode);
    UserEdgesFit(decode);
    DepartmentEdgesFit(decode);
    MemberEdgesFit(decode);
    OwnedEdgesFit(decode);
    forall name | name in v.schema
      ensures EntityOK(v.schema[name])
      ensures forall k :: 0 <= k < |v.schema[name].edges| ==> EdgeFits(decode, name, v.schema[name].edges[k])
    {
      EntityFits(decode, name);
      assert EdgesFit(decode, name);
    }
    forall target | EntityOf(decode, target).Some? ensures target in NAMES {
      NamesAll(decode, target);
    }
  }

  lemma NamesAll(decode: string -> Option<int>, name: string)
    requires EntityOf(decode, name).Some?
    ensures name in NAMES
  {
    hide Keyed, Account, APIKey;
  }

  function SchemaOf(decode: string -> Option<int>): map<string, Entity> {
    map name | name in NAMES && EntityOf(decode, name).Some? :: EntityOf(decode, name).value
  }

  /** The empty database is one. */
  lemma EmptyDatabase(decode: string -> Option<int>, rank: Cell -> int)
    ensures EnvOK(Env(SchemaOf(decode), DB(map[], map[], rank, (order, ts) => Example.InsertionSort(rank, order, ts))))
  {
    hide DBOK, EnvOK, Example.InsertionSort;
    var v := Env(SchemaOf(decode), DB(map[], map[], rank, (order, ts) => Example.InsertionSort(rank, order, ts)));
    Example.DatabasesExist(map[], map[], rank);
    HasNames(decode);
    EntitiesOK(decode, v);
  }

  lemma HasNames(decode: string -> Option<int>)
    ensures SchemaOf(decode).Keys == NAMES
    ensures forall name <- SchemaOf(decode) :: EntityOf(decode, name) == Some(SchemaOf(decode)[name])
  {
    hide Keyed, Account, APIKey;
    forall name | name in NAMES ensures EntityOf(decode, name).Some? {
    }
  }
}
