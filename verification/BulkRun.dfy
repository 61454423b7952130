/** One run of the bulk-create mutator chain as a function: hooks, specifications, inserts and flags. */
module BulkRun {
  import opened Collections
  import opened AccountBuilder

  /**
   * How a mutator or `Save` ends: no error, a failed check, a failed insert, a hook's own error, or
   * the error the bulk builder already carried.
   */
  datatype Outcome = Ok | Invalid(builder: nat, column: Column) | Unsaved | Rejected | Broken

  /**
   * What a hook does around the mutator it wraps: answer at once, or call the mutator and go on
   * according to the outcome. Relay answers with the outcome of the last call, no error before any.
   */
  datatype Hook = Accept | Reject | Relay | Next(onOk: Hook, onError: Hook)

  /** What the database answers to one batch: identifiers for its rows, or an error. */
  datatype Answer = Inserted(ids: nat -> Option<int>) | Refused

  /** Everything a run depends on: the builders after `defaults`, their hooks and the database. */
  datatype Plan = Plan(fields: seq<Fields>, hooks: seq<seq<Hook>>, answers: nat -> Answer) {
    ghost predicate Valid() {
      |fields| == |hooks|
    }
  }

  datatype Planned = Planned(spec: Spec, id: Option<int>)
  datatype Built = Built(fields: Fields, id: int)

  /** Position h of builder i is its h-th hook; position |hooks[i]| is the mutator itself. */
  datatype Event = Enter(i: nat, h: nat) | Leave(i: nat, h: nat, outcome: Outcome) | Insert(accepted: bool)

  datatype State = State(
    specs: seq<Option<Planned>>, nodes: seq<Option<Built>>, finished: map<nat, int>,
    batches: seq<seq<Option<Planned>>>, trace: seq<Event>)
  {
    function Log(e: Event): State {
      this.(trace := trace + [e])
    }
  }

  predicate Sized(p: Plan, s: State) {
    |s.specs| == |p.fields| && |s.nodes| == |p.fields|
  }

  function Identified(spec: Option<Planned>, id: Option<int>): Option<Planned> {
    if spec.Some? && id.Some? then Some(Planned(spec.value.spec, id)) else spec
  }

  function Identify(specs: seq<Option<Planned>>, ids: nat -> Option<int>): (r: seq<Option<Planned>>)
    ensures |r| == |specs|
    ensures forall j :: 0 <= j < |specs| ==> r[j] == Identified(specs[j], ids(j))
  {
    seq(|specs|, j requires 0 <= j < |specs| => Identified(specs[j], ids(j)))
  }

  /** The database call: one batch of all specifications as they stand. */
  function InsertBatch(p: Plan, s: State): (Outcome, State) {
    var answer := p.answers(|s.batches|);
    var sent := s.(batches := s.batches + [s.specs], trace := s.trace + [Insert(answer.Inserted?)]);
    if answer.Refused? then (Unsaved, sent) else (Ok, sent.(specs := Identify(s.specs, answer.ids)))
  }

  /** Writing `nodes[i]` and `specs[i]`. */
  function Build(p: Plan, i: nat, s: State): State
    requires i < |p.fields| && Sized(p, s)
  {
    s.(nodes := s.nodes[i := Some(Built(NodeOf(p.fields[i]), 0))],
       specs := s.specs[i := Some(Planned(SpecOf(p.fields[i]), None))])
  }

  /** Copying the identifier to `nodes[i]` and marking the mutation done. */
  function Finish(i: nat, s: State): State
    requires i < |s.specs| && i < |s.nodes|
  {
    if s.nodes[i].None? then s
    else
      var known := s.specs[i].Some? && s.specs[i].value.id.Some?;
      var id := if known then s.specs[i].value.id.value else s.nodes[i].value.id;
      s.(nodes := s.nodes[i := Some(s.nodes[i].value.(id := id))], finished := s.finished[i := id])
  }

  /** Mutator i with its hooks from h on. */
  function Mutate(p: Plan, i: nat, h: nat, s: State): (r: (Outcome, State))
    requires p.Valid() && i < |p.fields| && h <= |p.hooks[i]| && Sized(p, s)
    ensures Sized(p, r.1)
    decreases |p.fields| - i, |p.hooks[i]| - h, 1, Relay
  {
    var (o, s') := if h < |p.hooks[i]| then Follow(p, i, h, p.hooks[i][h], Ok, s.Log(Enter(i, h)))
                   else Core(p, i, s.Log(Enter(i, h)));
    (o, s'.Log(Leave(i, h, o)))
  }

  /** Hook h of builder i from some point of its decisions on. */
  function Follow(p: Plan, i: nat, h: nat, hook: Hook, last: Outcome, s: State): (r: (Outcome, State))
    requires p.Valid() && i < |p.fields| && h < |p.hooks[i]| && Sized(p, s)
    ensures Sized(p, r.1)
    decreases |p.fields| - i, |p.hooks[i]| - h, 0, hook
  {
    match hook
    case Accept => (Ok, s)
    case Reject => (Rejected, s)
    case Relay => (last, s)
    case Next(onOk, onError) =>
      var (o, s') := Mutate(p, i, h + 1, s);
      Follow(p, i, h, if o.Ok? then onOk else onError, o, s')
  }

  /** The mutator of builder i: check, build, go on to the next builder or insert, then finish. */
  function Core(p: Plan, i: nat, s: State): (r: (Outcome, State))
    requires p.Valid() && i < |p.fields| && Sized(p, s)
    ensures Sized(p, r.1)
    decreases |p.fields| - i, 0, 0, Relay
  {
    var rejected := Check(p.fields[i]);
    if rejected.Some? then (Invalid(i, rejected.value), s)
    else
      var built := Build(p, i, s);
      var (o, s') := if i + 1 < |p.fields| then Mutate(p, i + 1, 0, built) else InsertBatch(p, built);
      if o.Ok? then (Ok, Finish(i, s')) else (o, s')
  }

  function Start(p: Plan): State {
    State(seq(|p.fields|, _ => None), seq(|p.fields|, _ => None), map[], [], [])
  }

  /** The whole run; without builders there is nothing to do. */
  function Run(p: Plan): (r: (Outcome, State))
    requires p.Valid()
    ensures Sized(p, r.1)
  {
    if p.fields == [] then (Ok, Start(p)) else Mutate(p, 0, 0, Start(p))
  }
}
