/** A bulk create through its builders against the same step of the state machine of stored rows. */
module BulkRuns {
  import opened Wrappers
  import opened Chains
  import opened BulkCreate
  import Runs
  import Updates

  /** An O2M edge: its name in the mutation, and the table and column at its other end. */
  datatype O2MEdge = O2MEdge(edge: string, table: string, column: string)

  /** The content of a create mutation as a patch: a unique edge is under its foreign key and has one id. */
  function PatchOf(foreignKeys: seq<string>, o2m: seq<O2MEdge>, c: Content): Runs.Patch {
    Runs.Patch(
      c.fields, map[], {},
      map k | k in foreignKeys && k in c.edges && c.edges[k] != [] :: Runs.Link(Some(c.edges[k][0]), false),
      seq(|o2m|, i requires 0 <= i < |o2m| =>
            Runs.Inverse(o2m[i].table, o2m[i].column,
                         Updates.Change(Updates.Elements(EdgeIDs(c, o2m[i].edge)), {}, false))))
  }

  function EdgeIDs(c: Content, edge: string): seq<int> {
    if edge in c.edges then c.edges[edge] else []
  }

  function PatchesOf(foreignKeys: seq<string>, o2m: seq<O2MEdge>, cs: seq<Content>): (ps: seq<Runs.Patch>)
    ensures |ps| == |cs| && forall i :: 0 <= i < |cs| ==> ps[i] == PatchOf(foreignKeys, o2m, cs[i])
  {
    seq(|cs|, i requires 0 <= i < |cs| => PatchOf(foreignKeys, o2m, cs[i]))
  }

  /** The defaults and the check of an entity, for its builders. */
  function KindOf(rules: Runs.Rules, o2m: seq<O2MEdge>): Kind {
    Kind(rules.createDefaults, (c: Content) => Runs.Checked(rules.onCreate, PatchOf(rules.foreignKeys, o2m, c), true))
  }

  /** How a database in the given state ends the batch insert of the specs. */
  function BatchOf(schema: Runs.Schema, s: Runs.State, entity: string, o2m: seq<O2MEdge>, specs: seq<Content>,
                   refusal: Option<Error>): Result<nat -> Option<int>, Error>
    requires entity in schema.rules
  {
    var r := Runs.Insert(schema, s, entity, PatchesOf(schema.rules[entity].foreignKeys, o2m, specs), refusal);
    if r.1.Some? then Err(r.1.value) else Ok((k: nat) => Some(s.next + k))
  }

  lemma DefaultsAgree(rules: Runs.Rules, o2m: seq<O2MEdge>, c: Content)
    ensures PatchOf(rules.foreignKeys, o2m, Defaulted(KindOf(rules, o2m), c))
         == Runs.WithDefaults(rules.createDefaults, PatchOf(rules.foreignKeys, o2m, c))
  {
  }

  /** The first failing check is the one that the state machine reports. */
  lemma {:induction false} ChecksAgree(rules: seq<Runs.Rule>, ps: seq<Runs.Patch>, checks: seq<Option<Error>>, i: nat)
    requires |checks| == |ps| && i <= |ps|
    requires forall k :: 0 <= k < |ps| ==> checks[k] == Runs.Checked(rules, ps[k], true)
    ensures var f := FirstFailing(checks, i);
            Runs.CheckedAll(rules, ps[i..]) == if f < |checks| then checks[f] else None
    decreases |ps| - i
  {
    hide Runs.Checked;
    if i < |ps| {
      assert ps[i..][0] == ps[i] && ps[i..][1..] == ps[i + 1..];
      ChecksAgree(rules, ps, checks, i + 1);
    }
  }

  /** Hooks or none, as long as each calls its successor once: saving the builders does what the bulk create step of the
      state machine does, for the contents that the mutations had before the defaults: the same error, or the same rows,
      each builder's node with the key and the content of its row. */
  lemma SaveIsCreateBulk(bulk: AccountCreateBulk, schema: Runs.Schema, s: Runs.State, entity: string, o2m: seq<O2MEdge>,
                         before: seq<Content>, c: seq<Content>, r: Result<seq<Account?>, Error>,
                         marks: map<AccountMutation, (bool, Account?)>, refusal: Option<Error>)
    requires entity in schema.rules && bulk.kind == KindOf(schema.rules[entity], o2m)
    requires |before| == |c| == |bulk.builders| > 0 && forall k :: 0 <= k < |c| ==>
        c[k] == Defaulted(bulk.kind, before[k])
    requires bulk.batch(0, c) == BatchOf(schema, s, entity, o2m, c, refusal) && bulk.AllOrNothing(c, r, marks)
    ensures var ps := PatchesOf(schema.rules[entity].foreignKeys, o2m, before);
            var step := Runs.Step(schema, s, Runs.CreateBulk(entity, ps, refusal));
            && (step.1 == if r.Err? then Some(r.error) else None)
            && (r.Ok? ==> |r.value| == |c| && forall k :: 0 <= k < |c| ==>
                  && r.value[k] != null && r.value[k].id == s.next + k
                  && (Runs.NewRows(s.next, Runs.AllWithDefaults(schema.rules[entity].createDefaults, ps))[k]
                      == Runs.NewRow(r.value[k].id,
                          PatchOf(schema.rules[entity].foreignKeys, o2m, r.value[k].content))))
  {
    hide Runs.Checked, Runs.Insert, Runs.CheckedAll, FirstFailing, Runs.NewRow;
    var rules := schema.rules[entity];
    var ps, checks := PatchesOf(rules.foreignKeys, o2m, before), bulk.ScriptOf(c).checks;
    var qs := Runs.AllWithDefaults(rules.createDefaults, ps);
    forall k | 0 <= k < |c|
      ensures qs[k] == PatchOf(rules.foreignKeys, o2m, c[k]) && checks[k] == Runs.Checked(rules.onCreate, qs[k], true)
    {
      DefaultsAgree(rules, o2m, before[k]);
    }
    assert qs == PatchesOf(rules.foreignKeys, o2m, c);
    ChecksAgree(rules.onCreate, qs, checks, 0);
    assert qs[0..] == qs;
    if r.Ok? {
      forall k | 0 <= k < |c|
        ensures r.value[k] != null && r.value[k].id == s.next + k && r.value[k].content == c[k]
      {
        assert bulk.Saved(c, k) && bulk.ids(k) == Some(s.next + k);
      }
    }
  }
}
