/** The bulk-create builder: the recursive mutator chain over arrays of specifications and nodes. */
module BulkCreate {
  import opened Collections
  import opened AccountBuilder
  import opened AccountChecks
  import opened BulkRun
  import opened BulkLaws
  import opened BulkHooks

  class Mutation {
    var fields: Fields
    var id: Option<int>
    var done: bool

    constructor (fields: Fields)
      ensures this.fields == fields && id == None && !done
    {
      this.fields, id, done := fields, None, false;
    }
  }

  class Node {
    const fields: Fields
    var id: int

    constructor (fields: Fields)
      ensures this.fields == fields && id == 0
    {
      this.fields, id := fields, 0;
    }
  }

  /** A specification; the database driver fills in the identifier. */
  class CreateSpec {
    const spec: Spec
    var id: Option<int>

    constructor (spec: Spec)
      ensures this.spec == spec && id == None
    {
      this.spec, id := spec, None;
    }
  }

  class AccountCreate {
    const mutation: Mutation
    const hooks: seq<Hook>

    constructor (mutation: Mutation, hooks: seq<Hook>)
      ensures this.mutation == mutation && this.hooks == hooks
    {
      this.mutation, this.hooks := mutation, hooks;
    }

    /**
     * Fills in what is not set, column by column, and stops with an error at the first default that
     * is not wired. What was set stays, and without error nothing `defaults` provides is missing.
     */
    method FillDefaults(rt: Runtime) returns (ok: bool)
      modifies mutation`fields
      ensures ok <==> DefaultsWired(old(mutation.fields), rt)
      ensures forall c :: c in old(mutation.fields) ==>
        c in mutation.fields && mutation.fields[c] == old(mutation.fields)[c]
      ensures ok ==> forall c :: c in DEFAULTED ==> c in mutation.fields
      ensures mutation.fields == Defaults(old(mutation.fields), rt)
    {
      hide DefaultOf, DEFAULTED, DefaultsWired;
      ghost var before := mutation.fields;
      assert DEFAULTED[0..] == DEFAULTED;
      for i := 0 to |DEFAULTED|
        invariant FillIn(mutation.fields, DEFAULTED[i..], rt) == FillIn(before, DEFAULTED, rt)
        invariant forall j :: 0 <= j < i ==> DEFAULTED[j] in mutation.fields
      {
        var c := DEFAULTED[i];
        assert DEFAULTED[i..][1..] == DEFAULTED[i + 1..];
        if c !in mutation.fields {
          var v := DefaultOf(c, rt);
          if v.None? {
            WiredIsComplete(before, rt);
            return false;
          }
          mutation.fields := mutation.fields[c := v.value];
        }
      }
      WiredIsComplete(before, rt);
      return true;
    }

    method CreateSpecification() returns (node: Node, spec: CreateSpec)
      ensures fresh(node) && fresh(spec)
      ensures node.fields == NodeOf(mutation.fields) && node.id == 0
      ensures spec.spec == SpecOf(mutation.fields) && spec.id == None
    {
      node := new Node(NodeOf(mutation.fields));
      spec := new CreateSpec(SpecOf(mutation.fields));
    }
  }

  ghost function SpecView(s: CreateSpec?): Option<Planned>
    reads s
  {
    if s == null then None else Some(Planned(s.spec, s.id))
  }

  ghost function NodeView(n: Node?): Option<Built>
    reads n
  {
    if n == null then None else Some(Built(n.fields, n.id))
  }

  /** The variables the mutators of one `Save` share, and the batches sent so far. */
  class Chain {
    const builders: seq<AccountCreate>
    const specs: array<CreateSpec?>
    const nodes: array<Node?>
    const answers: nat -> Answer
    var attempts: nat
    ghost var batches: seq<seq<Option<Planned>>>
    ghost var finished: map<nat, int>
    ghost var trace: seq<Event>
    ghost const doneBefore: set<Mutation>
    ghost const idBefore: map<Mutation, Option<int>>

    constructor (builders: seq<AccountCreate>, answers: nat -> Answer)
      ensures this.builders == builders && this.answers == answers
      ensures fresh(specs) && fresh(nodes) && specs.Length == nodes.Length == |builders|
      ensures forall i :: 0 <= i < |builders| ==> specs[i] == null && nodes[i] == null
      ensures attempts == 0 && batches == [] && finished == map[] && trace == []
      ensures doneBefore == DoneOf(builders) && idBefore == IdsOf(builders)
    {
      this.builders, this.answers := builders, answers;
      specs := new CreateSpec?[|builders|](_ => null);
      nodes := new Node?[|builders|](_ => null);
      attempts, batches, finished, trace := 0, [], map[], [];
      doneBefore, idBefore := DoneOf(builders), IdsOf(builders);
    }

    ghost function Specs(): set<CreateSpec>
      reads specs
    {
      set i | 0 <= i < specs.Length && specs[i] != null :: specs[i]
    }

    ghost function Nodes(): set<Node>
      reads nodes
    {
      set i | 0 <= i < nodes.Length && nodes[i] != null :: nodes[i]
    }

    /** The arrays hold distinct objects. */
    ghost predicate Valid()
      reads `attempts, `batches, specs, nodes
    {
      && specs.Length == nodes.Length == |builders|
      && attempts == |batches|
      && (forall i, j :: 0 <= i < j < specs.Length && specs[i] != null ==> specs[i] != specs[j])
      && (forall i, j :: 0 <= i < j < nodes.Length && nodes[i] != null ==> nodes[i] != nodes[j])
    }

    ghost function SpecViews(): (r: seq<Option<Planned>>)
      reads specs, Specs()
      ensures |r| == specs.Length && forall i :: 0 <= i < specs.Length ==> r[i] == SpecView(specs[i])
    {
      seq(specs.Length, i requires 0 <= i < specs.Length reads specs, Specs() => SpecView(specs[i]))
    }

    ghost function NodeViews(): (r: seq<Option<Built>>)
      reads nodes, Nodes()
      ensures |r| == nodes.Length && forall i :: 0 <= i < nodes.Length ==> r[i] == NodeView(nodes[i])
    {
      seq(nodes.Length, i requires 0 <= i < nodes.Length reads nodes, Nodes() => NodeView(nodes[i]))
    }

    ghost function Now(): State
      reads `batches, `finished, `trace, specs, nodes, Specs(), Nodes()
    {
      State(SpecViews(), NodeViews(), finished, batches, trace)
    }

    /** What the run depends on is what the plan says. */
    ghost predicate Follows(p: Plan)
      reads Mutations(builders)`fields
    {
      && |p.fields| == |p.hooks| == |builders|
      && p.answers == answers
      && forall i :: 0 <= i < |builders| ==>
        p.fields[i] == builders[i].mutation.fields && p.hooks[i] == builders[i].hooks
    }

    /** A mutation is done if it was before or the chain has finished a builder that holds it. */
    ghost predicate Marked()
      reads `finished, Mutations(builders)`id, Mutations(builders)`done
    {
      forall m :: m in Mutations(builders) ==>
        m in idBefore
        && (m.done <==> m in doneBefore || exists j :: FinishedWith(j, m))
        && (if exists j :: FinishedWith(j, m) then exists j :: FinishedWith(j, m) && m.id == Some(finished[j])
            else m.id == idBefore[m])
    }

    ghost predicate FinishedWith(j: nat, m: Mutation)
      reads `finished
    {
      j in finished && j < |builders| && builders[j].mutation == m
    }

    /** Stores the identifiers of an accepted batch in its specifications. */
    method TakeIdentifiers(ids: nat -> Option<int>)
      requires Valid()
      requires forall i :: 0 <= i < specs.Length ==> specs[i] != null
      modifies Specs()`id
      ensures SpecViews() == Identify(old(SpecViews()), ids)
    {
      ghost var sent := SpecViews();
      for i := 0 to specs.Length
        invariant forall j :: 0 <= j < i ==> SpecView(specs[j]) == Identified(sent[j], ids(j))
        invariant forall j :: i <= j < specs.Length ==> SpecView(specs[j]) == sent[j]
      {
        var id := ids(i);
        if id.Some? {
          specs[i].id := id;
        }
      }
      assert SpecViews() == Identify(sent, ids);
    }

    /** The database call: sends the specifications and takes the identifiers it answers with. */
    method BatchCreate(ghost p: Plan) returns (o: Outcome)
      requires Valid() && Follows(p)
      requires forall i :: 0 <= i < specs.Length ==> specs[i] != null
      modifies `attempts, `batches, `trace, Specs()`id
      ensures Valid() && NodeViews() == old(NodeViews())
      ensures (o, Now()) == InsertBatch(p, old(Now()))
    {
      var answer := answers(attempts);
      attempts, batches, trace := attempts + 1, batches + [SpecViews()], trace + [Insert(answer.Inserted?)];
      if answer.Refused? {
        return Unsaved;
      }
      TakeIdentifiers(answer.ids);
      o := Ok;
    }

    /** Fills in `nodes[i]` and `specs[i]`. */
    method BuildAt(ghost p: Plan, i: nat)
      requires Valid() && Follows(p) && i < |builders|
      modifies specs, nodes
      ensures Valid() && Now() == Build(p, i, old(Now()))
      ensures specs[i] != null && fresh(specs[i]) && nodes[i] != null && fresh(nodes[i])
      ensures forall j :: 0 <= j < |builders| && j != i ==> specs[j] == old(specs[j]) && nodes[j] == old(nodes[j])
    {
      var node, spec := builders[i].CreateSpecification();
      nodes[i], specs[i] := node, spec;
      assert SpecViews() == old(SpecViews())[i := Some(Planned(SpecOf(p.fields[i]), None))];
      assert NodeViews() == old(NodeViews())[i := Some(Built(NodeOf(p.fields[i]), 0))];
    }

    /** Copies the identifier into `nodes[i]` and the mutation and marks the mutation done. */
    method FinishAt(i: nat, node: Node)
      requires Valid() && Marked() && i < |builders| && specs[i] != null && nodes[i] == node
      modifies `finished, node`id, builders[i].mutation`id, builders[i].mutation`done
      ensures Valid() && Marked() && Now() == Finish(i, old(Now()))
    {
      hide Marked, SpecOf, NodeOf;
      var mutation := builders[i].mutation;
      if specs[i].id.Some? {
        node.id := specs[i].id.value;
      }
      mutation.id := Some(node.id);
      mutation.done := true;
      finished := finished[i := node.id];
      assert NodeViews() == old(NodeViews())[i := NodeView(node)];
      MarkedAfter(i);
    }

    twostate lemma MarkedAfter(i: nat)
      requires i < |builders| && i in finished
      requires finished == old(finished)[i := finished[i]]
      requires builders[i].mutation.done && builders[i].mutation.id == Some(finished[i])
      requires old(Marked())
      requires forall m :: m in Mutations(builders) && m != builders[i].mutation ==>
        m.done == old(m.done) && m.id == old(m.id)
      ensures Marked()
    {
      forall m | m in Mutations(builders)
        ensures m.done <==> m in doneBefore || exists j :: FinishedWith(j, m)
        ensures if exists j :: FinishedWith(j, m) then exists j :: FinishedWith(j, m) && m.id == Some(finished[j])
                else m.id == idBefore[m]
      {
        assert builders[i].mutation == m ==> FinishedWith(i, m);
        forall j: nat | m != builders[i].mutation
          ensures FinishedWith(j, m) <==> old(FinishedWith(j, m))
        {
        }
      }
    }

    /** Mutator i inside its hooks from h on; refines the function of the same name. */
    method Mutate(ghost p: Plan, i: nat, h: nat) returns (o: Outcome)
      requires Valid() && Follows(p) && Marked() && i < |builders| && h <= |builders[i].hooks|
      requires forall j :: 0 <= j < i ==> specs[j] != null
      modifies `attempts, `batches, `finished, `trace, specs, nodes
      modifies Specs()`id, Mutations(builders)`id, Mutations(builders)`done
      ensures Valid() && Follows(p) && Marked()
      ensures (o, Now()) == BulkRun.Mutate(p, i, h, old(Now()))
      ensures forall j :: 0 <= j < i ==> specs[j] == old(specs[j]) && nodes[j] == old(nodes[j])
      ensures forall s :: s in Specs() && !fresh(s) ==> s in old(Specs())
      decreases |builders| - i, |builders[i].hooks| - h, 1, Relay
    {
      hide Follows, Marked, BulkRun.Follow, BulkRun.Core, SpecViews, NodeViews;
      HooksOf(p, i);
      trace := trace + [Enter(i, h)];
      ghost var entered := old(Now()).Log(Enter(i, h));
      assert Now() == entered;
      if h < |builders[i].hooks| {
        o := Follow(p, i, h, builders[i].hooks[h], Ok);
        assert (o, Now()) == BulkRun.Follow(p, i, h, p.hooks[i][h], Ok, entered);
      } else {
        o := Core(p, i);
        assert (o, Now()) == BulkRun.Core(p, i, entered);
      }
      ghost var inner := Now();
      trace := trace + [Leave(i, h, o)];
      assert Now() == inner.Log(Leave(i, h, o));
    }

    lemma {:induction false} Sizes()
      requires Valid()
      ensures specs.Length == nodes.Length == |builders|
    {
    }

    lemma {:induction false} HooksOf(p: Plan, i: nat)
      requires Follows(p) && i < |builders|
      ensures |p.fields| == |p.hooks| == |builders| && p.hooks[i] == builders[i].hooks
      ensures p.fields[i] == builders[i].mutation.fields
    {
    }

    /** A hook of builder i, from some point of its decisions on. */
    method Follow(ghost p: Plan, i: nat, h: nat, hook: Hook, last: Outcome) returns (o: Outcome)
      requires Valid() && Follows(p) && Marked() && i < |builders| && h < |builders[i].hooks|
      requires forall j :: 0 <= j < i ==> specs[j] != null
      modifies `attempts, `batches, `finished, `trace, specs, nodes
      modifies Specs()`id, Mutations(builders)`id, Mutations(builders)`done
      ensures Valid() && Follows(p) && Marked()
      ensures (o, Now()) == BulkRun.Follow(p, i, h, hook, last, old(Now()))
      ensures forall j :: 0 <= j < i ==> specs[j] == old(specs[j]) && nodes[j] == old(nodes[j])
      ensures forall s :: s in Specs() && !fresh(s) ==> s in old(Specs())
      decreases |builders| - i, |builders[i].hooks| - h, 0, hook
    {
      hide Follows, Marked, BulkRun.Mutate, BulkRun.Core, SpecViews, NodeViews, Valid;
      HooksOf(p, i);
      match hook
      case Accept => o := Ok;
      case Reject => o := Rejected;
      case Relay => o := last;
      case Next(onOk, onError) =>
        var answer := Mutate(p, i, h + 1);
        o := Follow(p, i, h, if answer.Ok? then onOk else onError, answer);
    }

    /** The mutator of builder i. */
    method Core(ghost p: Plan, i: nat) returns (o: Outcome)
      requires Valid() && Follows(p) && Marked() && i < |builders|
      requires forall j :: 0 <= j < i ==> specs[j] != null
      modifies `attempts, `batches, `finished, `trace, specs, nodes
      modifies Specs()`id, Mutations(builders)`id, Mutations(builders)`done
      ensures Valid() && Follows(p) && Marked()
      ensures (o, Now()) == BulkRun.Core(p, i, old(Now()))
      ensures forall j :: 0 <= j < i ==> specs[j] == old(specs[j]) && nodes[j] == old(nodes[j])
      ensures forall s :: s in Specs() && !fresh(s) ==> s in old(Specs())
      decreases |builders| - i, 0, 0, Relay
    {
      hide Follows, Marked, BulkRun.Mutate, BulkRun.Follow, Check, SpecOf, NodeOf, Now, Build, Finish, InsertBatch;
      Sizes();
      hide Valid;
      HooksOf(p, i);
      var rejected := Check(builders[i].mutation.fields);
      if rejected.Some? {
        return Invalid(i, rejected.value);
      }
      BuildAt(p, i);
      if i + 1 < |builders| {
        o := Mutate(p, i + 1, 0);
      } else {
        o := BatchCreate(p);
      }
      if o.Ok? {
        FinishAt(i, nodes[i]);
      }
    }
  }

  ghost function Mutations(builders: seq<AccountCreate>): set<Mutation> {
    set b | b in builders :: b.mutation
  }

  /** The mutations that are done. */
  ghost function DoneOf(builders: seq<AccountCreate>): set<Mutation>
    reads Mutations(builders)`done
  {
    set m | m in Mutations(builders) && m.done
  }

  ghost function IdsOf(builders: seq<AccountCreate>): map<Mutation, Option<int>>
    reads Mutations(builders)`id
  {
    map m | m in Mutations(builders) :: m.id
  }

  /** The fields of the mutations after `defaults` has run on the first k builders. */
  ghost function AfterDefaults(
    builders: seq<AccountCreate>, before: map<Mutation, Fields>, clock: nat -> Runtime, k: nat)
    : (r: map<Mutation, Fields>)
    requires k <= |builders|
    requires before.Keys == Mutations(builders)
    ensures r.Keys == Mutations(builders)
  {
    if k == 0 then before
    else
      var r := AfterDefaults(builders, before, clock, k - 1);
      assert builders[k - 1] in builders;
      r[builders[k - 1].mutation := Defaults(r[builders[k - 1].mutation], clock(k - 1))]
  }

  ghost predicate OwnMutations(builders: seq<AccountCreate>) {
    forall i, j :: 0 <= i < j < |builders| ==> builders[i].mutation != builders[j].mutation
  }

  lemma {:induction false} DefaultsStart(
    builders: seq<AccountCreate>, before: map<Mutation, Fields>, clock: nat -> Runtime)
    requires before.Keys == Mutations(builders)
    ensures AfterDefaults(builders, before, clock, 0) == before
  {
  }

  lemma {:induction false} DefaultsStep(
    builders: seq<AccountCreate>, before: map<Mutation, Fields>, clock: nat -> Runtime, k: nat, m: Mutation)
    requires 0 < k <= |builders| && before.Keys == Mutations(builders) && m in before
    ensures AfterDefaults(builders, before, clock, k)[m]
         == var r := AfterDefaults(builders, before, clock, k - 1);
            if m == builders[k - 1].mutation then Defaults(r[m], clock(k - 1)) else r[m]
  {
    hide Defaults, Mutations;
  }

  /** Builders with mutations of their own get their defaults independently of each other. */
  lemma {:induction false} DefaultsOfBuilder(
    builders: seq<AccountCreate>, before: map<Mutation, Fields>, clock: nat -> Runtime, k: nat, i: nat)
    requires OwnMutations(builders) && k <= |builders| && i < |builders| && before.Keys == Mutations(builders)
    ensures builders[i].mutation in before
    ensures AfterDefaults(builders, before, clock, k)[builders[i].mutation]
         == if i < k then Defaults(before[builders[i].mutation], clock(i)) else before[builders[i].mutation]
  {
    hide Defaults, AfterDefaults;
    assert builders[i] in builders;
    if k == 0 {
      DefaultsStart(builders, before, clock);
    } else {
      DefaultsOfBuilder(builders, before, clock, k - 1, i);
      assert builders[i].mutation == builders[k - 1].mutation <==> i == k - 1;
      DefaultsStep(builders, before, clock, k, builders[i].mutation);
    }
  }

  ghost function PlanOf(builders: seq<AccountCreate>, fields: map<Mutation, Fields>, answers: nat -> Answer): (p: Plan)
    requires fields.Keys == Mutations(builders)
    ensures p.Valid() && |p.fields| == |builders|
  {
    Plan(seq(|builders|,
             i requires 0 <= i < |builders| => assert builders[i] in builders; fields[builders[i].mutation]),
         seq(|builders|, i requires 0 <= i < |builders| => builders[i].hooks),
         answers)
  }

  /** What the mutations hold before `Save`. */
  ghost function FieldsOf(builders: seq<AccountCreate>): (r: map<Mutation, Fields>)
    reads Mutations(builders)`fields
    ensures r.Keys == Mutations(builders)
  {
    map m | m in Mutations(builders) :: m.fields
  }

  class AccountCreateBulk {
    const err: bool
    const builders: seq<AccountCreate>

    constructor (err: bool, builders: seq<AccountCreate>)
      ensures this.err == err && this.builders == builders
    {
      this.err, this.builders := err, builders;
    }

    /** The run `Save` makes: the builders after `defaults`, at the times the clock gives. */
    ghost function PlanAt(clock: nat -> Runtime, answers: nat -> Answer): (p: Plan)
      reads Mutations(builders)`fields
      ensures p.Valid() && |p.fields| == |builders|
    {
      PlanOf(builders, AfterDefaults(builders, FieldsOf(builders), clock, |builders|), answers)
    }

    lemma {:induction false} HoldsMutation(i: nat)
      requires i < |builders|
      ensures builders[i].mutation in Mutations(builders)
    {
      assert builders[i] in builders;
    }

    /** The mutations hold what `r` says. */
    ghost predicate Hold(r: map<Mutation, Fields>)
      reads Mutations(builders)`fields
    {
      r.Keys == Mutations(builders) && forall m :: m in Mutations(builders) ==> m.fields == r[m]
    }

    lemma {:induction false} HoldIsFields(r: map<Mutation, Fields>)
      ensures Hold(r) <==> FieldsOf(builders) == r
    {
    }

    method FillDefaultsOf(i: nat, clock: nat -> Runtime, ghost before: map<Mutation, Fields>)
      requires i < |builders| && before.Keys == Mutations(builders)
      requires Hold(AfterDefaults(builders, before, clock, i))
      modifies Mutations(builders)`fields
      ensures Hold(AfterDefaults(builders, before, clock, i + 1))
    {
      hide Defaults, AfterDefaults, Mutations;
      HoldsMutation(i);
      var _ := builders[i].FillDefaults(clock(i));
      forall m | m in Mutations(builders) ensures m.fields == AfterDefaults(builders, before, clock, i + 1)[m] {
        DefaultsStep(builders, before, clock, i + 1, m);
      }
    }

    method FillAllDefaults(clock: nat -> Runtime)
      modifies Mutations(builders)`fields
      ensures FieldsOf(builders) == AfterDefaults(builders, old(FieldsOf(builders)), clock, |builders|)
    {
      hide *;
      ghost var before := FieldsOf(builders);
      HoldIsFields(before);
      DefaultsStart(builders, before, clock);
      for i := 0 to |builders|
        invariant Hold(AfterDefaults(builders, before, clock, i))
      {
        FillDefaultsOf(i, clock, before);
      }
      HoldIsFields(AfterDefaults(builders, before, clock, |builders|));
    }

    lemma {:induction false} ChainStarts(p: Plan, answers: nat -> Answer, chain: Chain)
      requires p == PlanOf(builders, FieldsOf(builders), answers)
      requires chain.builders == builders && chain.answers == answers
      requires chain.specs.Length == chain.nodes.Length == |builders|
      requires forall i :: 0 <= i < |builders| ==> chain.specs[i] == null && chain.nodes[i] == null
      requires chain.attempts == 0 && chain.batches == [] && chain.finished == map[] && chain.trace == []
      requires chain.doneBefore == DoneOf(builders) && chain.idBefore == IdsOf(builders)
      ensures chain.Valid() && chain.Follows(p) && chain.Marked() && chain.Now() == Start(p)
    {
      assert chain.SpecViews() == Start(p).specs;
      assert chain.NodeViews() == Start(p).nodes;
      forall m, j: nat ensures !chain.FinishedWith(j, m) {
      }
    }

    /** Builds the mutators and starts the first one, if there is one. */
    method RunChain(ghost p: Plan, answers: nat -> Answer) returns (o: Outcome, chain: Chain)
      requires p == PlanOf(builders, FieldsOf(builders), answers)
      modifies Mutations(builders)`id, Mutations(builders)`done
      ensures fresh(chain) && chain.builders == builders && chain.Valid() && chain.Marked()
      ensures chain.doneBefore == old(DoneOf(builders))
      ensures (o, chain.Now()) == Run(p)
    {
      chain := new Chain(builders, answers);
      o := Ok;
      ChainStarts(p, answers, chain);
      hide BulkRun.Mutate, PlanOf, Mutations, FieldsOf, DoneOf, IdsOf;
      hide Chain.Follows, Chain.Marked, Chain.Now, Chain.Valid;
      if |builders| > 0 {
        o := chain.Mutate(p, 0, 0);
      }
    }

    /** Runs the chain; the outcome and everything it leaves behind are those of the run of its plan. */
    method Save(clock: nat -> Runtime, answers: nat -> Answer)
      returns (o: Outcome, nodes: seq<Node?>, ghost chain: Chain?)
      modifies Mutations(builders)
      ensures err ==> o == Broken && chain == null && unchanged(Mutations(builders))
      ensures !err ==>
        && chain != null && fresh(chain) && chain.builders == builders && chain.Valid() && chain.Marked()
        && chain.doneBefore == old(DoneOf(builders))
        && (o, chain.Now()) == Run(old(PlanAt(clock, answers)))
      ensures nodes == if o.Ok? && !err then chain.nodes[..] else []
    {
      hide AfterDefaults, Run, Chain.Now, Chain.Marked, Chain.Valid;
      nodes, chain := [], null;
      if err {
        return Broken, nodes, null;
      }
      ghost var p := PlanAt(clock, answers);
      FillAllDefaults(clock);
      var c: Chain;
      o, c := RunChain(p, answers);
      chain := c;
      if o.Ok? {
        nodes := c.nodes[..];
      }
    }
  }

  // ---- What callers of `Save` can rely on ----

  /** A builder passes its check if and only if its caller set what the account needs. */
  lemma {:induction false} BuilderPasses(bulk: AccountCreateBulk, clock: nat -> Runtime, answers: nat -> Answer, i: nat)
    requires OwnMutations(bulk.builders) && i < |bulk.builders|
    ensures var fields := bulk.builders[i].mutation.fields;
      Passes(bulk.PlanAt(clock, answers), i) <==> Sufficient(fields) && DefaultsWired(fields, clock(i))
    ensures var fields := bulk.builders[i].mutation.fields;
      Typed(fields) ==>
        (Passes(bulk.PlanAt(clock, answers), i) <==> FineBefore(fields) && WiredFor(fields, clock(i)))
    ensures Passes(bulk.PlanAt(clock, answers), i) ==>
      Completed(bulk.builders[i].mutation.fields, clock(i), bulk.PlanAt(clock, answers).fields[i])
  {
    hide Defaults, Check, Sufficient, DefaultsWired, AfterDefaults, Typed, FineBefore, WiredFor, Completed;
    var fields, rt := bulk.builders[i].mutation.fields, clock(i);
    DefaultsOfBuilder(bulk.builders, FieldsOf(bulk.builders), clock, |bulk.builders|, i);
    CheckAfterDefaults(fields, rt);
    if Typed(fields) {
      CheckAfterDefaultsExactly(fields, rt);
    }
    DefaultsExactly(fields, rt, Defaults(fields, rt));
  }

  /**
   * If no hook hides an error and `Save` succeeds, every node is there with the identifier of its
   * accepted row, and every mutation is done and knows that identifier.
   */
  lemma {:induction false} SaveSucceeded(chain: Chain, p: Plan, i: nat)
    requires p.Valid() && HonestFrom(p, 0) && |p.fields| == |chain.builders| && i < |chain.builders|
    requires chain.Valid() && chain.Marked() && OwnMutations(chain.builders)
    requires (Ok, chain.Now()) == Run(p)
    ensures var (node, mutation) := (chain.nodes[i], chain.builders[i].mutation);
      && node != null && node.fields == NodeOf(p.fields[i])
      && mutation.done && mutation.id == Some(node.id)
      && chain.batches != [] && p.answers(|chain.batches| - 1).Inserted?
      && (p.answers(|chain.batches| - 1).ids(i).Some? ==> node.id == p.answers(|chain.batches| - 1).ids(i).value)
  {
    hide Run, NodeOf, SpecOf, HonestFrom, Complete;
    SuccessIsSaved(p, i);
    assert chain.NodeViews()[i] == chain.Now().nodes[i];
    var m := chain.builders[i].mutation;
    assert chain.builders[i] in chain.builders;
    assert chain.FinishedWith(i, m);
    var j: nat :| chain.FinishedWith(j, m) && m.id == Some(chain.finished[j]);
    assert j == i;
  }

  /** If no hook hides an error, one builder that fails its check leaves every mutation as it was. */
  lemma {:induction false} SaveStopped(chain: Chain, p: Plan, o: Outcome, k: nat, m: Mutation)
    requires p.Valid() && HonestFrom(p, 0) && |p.fields| == |chain.builders| && k < |p.fields| && !Passes(p, k)
    requires chain.Valid() && chain.Marked() && (o, chain.Now()) == Run(p) && m in Mutations(chain.builders)
    ensures !o.Ok? && chain.batches == []
    ensures m in chain.idBefore && m.id == chain.idBefore[m] && (m.done <==> m in chain.doneBefore)
  {
    hide Run, HonestFrom;
    InvalidSavesNothing(p, k);
    assert forall j: nat :: !chain.FinishedWith(j, m);
  }

  /** The mutations `Save` marks done are those of the builders from some position on. */
  lemma {:induction false} SaveMarksSuffix(chain: Chain, p: Plan, o: Outcome, i: nat, j: nat)
    requires p.Valid() && NoneSwallows(p) && |p.fields| == |chain.builders| && i <= j < |chain.builders|
    requires chain.Valid() && chain.Marked() && (o, chain.Now()) == Run(p)
    requires OwnMutations(chain.builders) && chain.doneBefore == {}
    ensures chain.builders[i].mutation.done ==> chain.builders[j].mutation.done
    decreases j - i
  {
    hide Run, NoneSwallows;
    DoneIsSuffix(p);
    assert chain.builders[i] in chain.builders && chain.builders[j] in chain.builders;
    var m := chain.builders[i].mutation;
    if m.done && i < j {
      var k: nat :| chain.FinishedWith(k, m);
      assert k == i;
      assert i + 1 in chain.finished;
      assert chain.builders[i + 1] in chain.builders;
      assert chain.FinishedWith(i + 1, chain.builders[i + 1].mutation);
      SaveMarksSuffix(chain, p, o, i + 1, j);
    }
  }
}
