/** Safety of the bulk-create chain over all runs, for hooks of any shape and for well-behaved ones. */
module BulkLaws {
  import opened Collections
  import opened AccountBuilder
  import opened BulkRun

  // ---- Any hooks: what reaches the database ----

  predicate Passes(p: Plan, j: nat)
    requires j < |p.fields|
  {
    Check(p.fields[j]).None?
  }

  predicate Describes(p: Plan, j: nat, spec: Option<Planned>)
    requires j < |p.fields|
  {
    spec.Some? && spec.value.spec == SpecOf(p.fields[j])
  }

  /** A batch with the specification of every builder, in builder order, each builder checked. */
  ghost predicate Complete(p: Plan, batch: seq<Option<Planned>>) {
    && |batch| == |p.fields|
    && forall j :: 0 <= j < |p.fields| ==> Passes(p, j) && Describes(p, j, batch[j])
  }

  /** The builders before i have been checked and built. */
  ghost predicate Ready(p: Plan, i: nat, s: State) {
    Sized(p, s) && forall j :: 0 <= j < i && j < |p.fields| ==> Passes(p, j) && Describes(p, j, s.specs[j])
  }

  predicate SameSpec(a: Option<Planned>, b: Option<Planned>) {
    (a.Some? <==> b.Some?) && (a.Some? ==> a.value.spec == b.value.spec)
  }

  /** How builders i and later may change the state. */
  ghost predicate Extends(p: Plan, i: nat, s: State, t: State) {
    && Sized(p, s) && Sized(p, t)
    && s.batches <= t.batches
    && (forall j :: j in s.finished ==> j in t.finished)
    && (forall j :: j in t.finished && j < i ==> j in s.finished && t.finished[j] == s.finished[j])
    && (forall j :: 0 <= j < i && j < |p.fields| ==> t.nodes[j] == s.nodes[j] && SameSpec(s.specs[j], t.specs[j]))
    && (Ready(p, i, s) ==> forall k :: |s.batches| <= k < |t.batches| ==> Complete(p, t.batches[k]))
  }

  lemma {:induction false} ExtendsThen(p: Plan, i: nat, s: State, t: State, u: State)
    requires Extends(p, i, s, t) && Extends(p, i, t, u)
    ensures Extends(p, i, s, u)
  {
    hide Complete;
    if Ready(p, i, s) {
      assert Ready(p, i, t);
      forall k | |s.batches| <= k < |u.batches| ensures Complete(p, u.batches[k]) {
        if k < |t.batches| {
          assert u.batches[k] == t.batches[k];
        }
      }
    }
  }

  lemma {:induction false} MutateExtends(p: Plan, i: nat, h: nat, s: State)
    requires p.Valid() && i < |p.fields| && h <= |p.hooks[i]| && Sized(p, s)
    ensures Extends(p, i, s, Mutate(p, i, h, s).1)
    decreases |p.fields| - i, |p.hooks[i]| - h, 1, Relay
  {
    hide Follow, Core, Complete, Passes, Describes;
    if h < |p.hooks[i]| {
      FollowExtends(p, i, h, p.hooks[i][h], Ok, s.Log(Enter(i, h)));
    } else {
      CoreExtends(p, i, s.Log(Enter(i, h)));
    }
  }

  lemma {:induction false} FollowExtends(p: Plan, i: nat, h: nat, hook: Hook, last: Outcome, s: State)
    requires p.Valid() && i < |p.fields| && h < |p.hooks[i]| && Sized(p, s)
    ensures Extends(p, i, s, Follow(p, i, h, hook, last, s).1)
    decreases |p.fields| - i, |p.hooks[i]| - h, 0, hook
  {
    hide Mutate;
    if hook.Next? {
      MutateExtends(p, i, h + 1, s);
      var (o, t) := Mutate(p, i, h + 1, s);
      FollowExtends(p, i, h, if o.Ok? then hook.onOk else hook.onError, o, t);
      ExtendsThen(p, i, s, t, Follow(p, i, h, hook, last, s).1);
    }
  }

  lemma {:induction false} CoreExtends(p: Plan, i: nat, s: State)
    requires p.Valid() && i < |p.fields| && Sized(p, s)
    ensures Extends(p, i, s, Core(p, i, s).1)
    decreases |p.fields| - i, 0, 0, Relay
  {
    hide Mutate, Complete, Ready, SpecOf, NodeOf, FirstRejected;
    if Check(p.fields[i]).None? {
      var built := Build(p, i, s);
      if i + 1 < |p.fields| {
        MutateExtends(p, i + 1, 0, built);
        CoreStep(p, i, s, Mutate(p, i + 1, 0, built));
      } else {
        InsertExtends(p, built);
        CoreStep(p, i, s, InsertBatch(p, built));
      }
    }
  }

  lemma {:induction false} InsertExtends(p: Plan, s: State)
    requires Sized(p, s)
    ensures Extends(p, |p.fields|, s, InsertBatch(p, s).1)
  {
  }

  lemma {:induction false} CoreStep(p: Plan, i: nat, s: State, inner: (Outcome, State))
    requires i < |p.fields| && Sized(p, s) && Passes(p, i)
    requires Extends(p, i + 1, Build(p, i, s), inner.1)
    ensures Extends(p, i, s, inner.1)
    ensures Extends(p, i, s, Finish(i, inner.1))
  {
    hide Complete, SpecOf, NodeOf, Check;
    if Ready(p, i, s) {
      assert Ready(p, i + 1, Build(p, i, s));
    }
  }

  /**
   * Whatever the hooks do, every batch that reaches the database holds the specifications of all
   * builders in order, and every builder has passed `check`.
   */
  lemma {:induction false} BatchesComplete(p: Plan, k: nat)
    requires p.Valid() && k < |Run(p).1.batches|
    ensures Complete(p, Run(p).1.batches[k])
  {
    hide Mutate, Complete;
    if p.fields != [] {
      MutateExtends(p, 0, 0, Start(p));
      assert Ready(p, 0, Start(p));
    }
  }

  /** One builder that fails `check` keeps the database untouched. */
  lemma {:induction false} InvalidStopsInsert(p: Plan, k: nat)
    requires p.Valid() && k < |p.fields| && !Passes(p, k)
    ensures Run(p).1.batches == []
  {
    hide Run;
    if Run(p).1.batches != [] {
      BatchesComplete(p, 0);
    }
  }

  // ---- Any hooks: nesting ----

  /** The position that is entered directly inside another one. */
  function Inner(p: Plan, at: (nat, nat)): (nat, nat) {
    if at.0 < |p.hooks| && at.1 < |p.hooks[at.0]| then (at.0, at.1 + 1) else (at.0 + 1, 0)
  }

  predicate Innermost(p: Plan, at: (nat, nat)) {
    at.0 + 1 == |p.hooks| && at.1 == |p.hooks[at.0]|
  }

  /** The open positions after one event; None if the event does not fit. */
  function Step(p: Plan, open: seq<(nat, nat)>, e: Event): Option<seq<(nat, nat)>> {
    match e
    case Enter(i, h) =>
      if (i, h) == (if open == [] then (0, 0) else Inner(p, open[|open| - 1])) then Some(open + [(i, h)]) else None
    case Leave(i, h, _) =>
      if open != [] && open[|open| - 1] == (i, h) then Some(open[..|open| - 1]) else None
    case Insert(_) =>
      if open != [] && Innermost(p, open[|open| - 1]) then Some(open) else None
  }

  /** The positions still open after a trace; None if the trace is not properly nested. */
  function Replay(p: Plan, t: seq<Event>): Option<seq<(nat, nat)>> {
    if t == [] then Some([])
    else
      var open := Replay(p, t[..|t| - 1]);
      if open.None? then None else Step(p, open.value, t[|t| - 1])
  }

  lemma {:induction false} ReplayLog(p: Plan, s: State, e: Event)
    ensures Replay(p, s.Log(e).trace)
         == if Replay(p, s.trace).None? then None else Step(p, Replay(p, s.trace).value, e)
  {
    assert s.Log(e).trace[..|s.trace|] == s.trace;
  }

  lemma {:induction false} MutateNested(p: Plan, i: nat, h: nat, s: State)
    requires p.Valid() && i < |p.fields| && h <= |p.hooks[i]| && Sized(p, s)
    requires Replay(p, s.trace).Some?
    requires var open := Replay(p, s.trace).value; (i, h) == if open == [] then (0, 0) else Inner(p, open[|open| - 1])
    ensures Replay(p, Mutate(p, i, h, s).1.trace) == Replay(p, s.trace)
    decreases |p.fields| - i, |p.hooks[i]| - h, 1, Relay
  {
    var entered := s.Log(Enter(i, h));
    ReplayLog(p, s, Enter(i, h));
    if h < |p.hooks[i]| {
      FollowNested(p, i, h, p.hooks[i][h], Ok, entered);
      var (o, t) := Follow(p, i, h, p.hooks[i][h], Ok, entered);
      ReplayLog(p, t, Leave(i, h, o));
    } else {
      CoreNested(p, i, entered);
      var (o, t) := Core(p, i, entered);
      ReplayLog(p, t, Leave(i, h, o));
    }
  }

  lemma {:induction false} FollowNested(p: Plan, i: nat, h: nat, hook: Hook, last: Outcome, s: State)
    requires p.Valid() && i < |p.fields| && h < |p.hooks[i]| && Sized(p, s)
    requires Replay(p, s.trace).Some?
    requires var open := Replay(p, s.trace).value; open != [] && open[|open| - 1] == (i, h)
    ensures Replay(p, Follow(p, i, h, hook, last, s).1.trace) == Replay(p, s.trace)
    decreases |p.fields| - i, |p.hooks[i]| - h, 0, hook
  {
    hide Mutate;
    if hook.Next? {
      MutateNested(p, i, h + 1, s);
      var (o, t) := Mutate(p, i, h + 1, s);
      FollowNested(p, i, h, if o.Ok? then hook.onOk else hook.onError, o, t);
    }
  }

  lemma {:induction false} CoreNested(p: Plan, i: nat, s: State)
    requires p.Valid() && i < |p.fields| && Sized(p, s)
    requires Replay(p, s.trace).Some?
    requires var open := Replay(p, s.trace).value; open != [] && open[|open| - 1] == (i, |p.hooks[i]|)
    ensures Replay(p, Core(p, i, s).1.trace) == Replay(p, s.trace)
    decreases |p.fields| - i, 0, 0, Relay
  {
    hide Mutate, Check, SpecOf, NodeOf;
    if Check(p.fields[i]).None? {
      var built := Build(p, i, s);
      if i + 1 < |p.fields| {
        MutateNested(p, i + 1, 0, built);
      } else {
        ReplayLog(p, built, Insert(p.answers(|s.batches|).Inserted?));
      }
    }
  }

  /**
   * Whatever the hooks do, the run is properly nested: a position is entered only directly inside its
   * predecessor in builder and hook order, left before that one is, and only the last mutator inserts.
   */
  lemma {:induction false} Nested(p: Plan)
    requires p.Valid()
    ensures Replay(p, Run(p).1.trace) == Some([])
  {
    hide Mutate;
    if p.fields != [] {
      MutateNested(p, 0, 0, Start(p));
    }
  }

  // ---- Hooks that do not hide errors ----

  /** A hook that answers without error only after a call whose outcome was no error. */
  predicate Honest(hook: Hook, called: bool, ok: bool) {
    match hook
    case Accept => called && ok
    case Reject => true
    case Relay => called
    case Next(onOk, onError) => Honest(onOk, true, true) && Honest(onError, true, false)
  }

  ghost predicate HonestFrom(p: Plan, i: nat) {
    forall j, h :: i <= j < |p.hooks| && 0 <= h < |p.hooks[j]| ==> Honest(p.hooks[j][h], false, false)
  }

  /** The builders whose mutation is done are the last ones of the list. */
  ghost predicate Suffix(p: Plan, s: State) {
    forall j :: j in s.finished ==> j < |p.fields| && (j + 1 < |p.fields| ==> j + 1 in s.finished)
  }

  function IdOf(spec: Option<Planned>): int {
    if spec.Some? && spec.value.id.Some? then spec.value.id.value else 0
  }

  /** Builder j is done and its node carries the identifier in its specification. */
  ghost predicate DoneAt(p: Plan, j: nat, s: State)
    requires j < |p.fields| && Sized(p, s)
  {
    && Describes(p, j, s.specs[j])
    && s.nodes[j] == Some(Built(NodeOf(p.fields[j]), IdOf(s.specs[j])))
    && j in s.finished && s.finished[j] == IdOf(s.specs[j])
  }

  /** The last batch was accepted, its identifiers are in place and the builders from i on are done. */
  ghost predicate Settled(p: Plan, i: nat, s: State) {
    && Sized(p, s)
    && s.batches != []
    && p.answers(|s.batches| - 1).Inserted?
    && (forall j :: 0 <= j < |p.fields| && s.specs[j].Some? && p.answers(|s.batches| - 1).ids(j).Some? ==>
      s.specs[j].value.id == p.answers(|s.batches| - 1).ids(j))
    && (forall j :: i <= j < |p.fields| ==> DoneAt(p, j, s))
  }

  /** What honest hooks guarantee from builder i on. */
  ghost predicate Sound(p: Plan, i: nat, s: State, o: Outcome, t: State) {
    && (o.Ok? ==> Settled(p, i, t))
    && (Suffix(p, s) ==> Suffix(p, t))
    && (|t.batches| == |s.batches| ==> t.finished == s.finished)
    && (o.Ok? ==> |t.batches| > |s.batches|)
    && (|s.batches| <= |t.batches|)
  }

  lemma {:induction false} MutateSound(p: Plan, i: nat, h: nat, s: State)
    requires p.Valid() && i < |p.fields| && h <= |p.hooks[i]| && Sized(p, s) && HonestFrom(p, i)
    ensures var (o, t) := Mutate(p, i, h, s); Sound(p, i, s, o, t)
    decreases |p.fields| - i, |p.hooks[i]| - h, 1, Relay
  {
    hide Honest, Describes;
    var entered := s.Log(Enter(i, h));
    if h < |p.hooks[i]| {
      FollowSound(p, i, h, p.hooks[i][h], Ok, entered, false);
      var (o, t) := Follow(p, i, h, p.hooks[i][h], Ok, entered);
      SoundLogged(p, i, h, s, o, t);
    } else {
      CoreSound(p, i, entered);
      var (o, t) := Core(p, i, entered);
      SoundLogged(p, i, h, s, o, t);
    }
  }

  lemma {:induction false} SoundLogged(p: Plan, i: nat, h: nat, s: State, o: Outcome, t: State)
    requires Sound(p, i, s.Log(Enter(i, h)), o, t)
    ensures Sound(p, i, s, o, t.Log(Leave(i, h, o)))
  {
    hide Describes;
    if o.Ok? {
      forall j | i <= j < |p.fields| ensures DoneAt(p, j, t.Log(Leave(i, h, o))) {
        assert DoneAt(p, j, t);
      }
    }
  }

  lemma {:induction false} FollowSound(p: Plan, i: nat, h: nat, hook: Hook, last: Outcome, s: State, called: bool)
    requires p.Valid() && i < |p.fields| && h < |p.hooks[i]| && Sized(p, s) && HonestFrom(p, i)
    requires Honest(hook, called, called && last.Ok?)
    requires called && last.Ok? ==> Settled(p, i, s)
    ensures var (o, t) := Follow(p, i, h, hook, last, s);
      && (o.Ok? ==> Settled(p, i, t))
      && (Suffix(p, s) ==> Suffix(p, t))
      && (|t.batches| == |s.batches| ==> t.finished == s.finished)
      && (o.Ok? ==> |t.batches| > |s.batches| || (called && last.Ok?))
      && |s.batches| <= |t.batches|
    decreases |p.fields| - i, |p.hooks[i]| - h, 0, hook
  {
    hide Mutate, Settled, Suffix, HonestFrom;
    if hook.Next? {
      MutateSound(p, i, h + 1, s);
      var (o, t) := Mutate(p, i, h + 1, s);
      FollowSound(p, i, h, if o.Ok? then hook.onOk else hook.onError, o, t, true);
    }
  }

  lemma {:induction false} CoreSound(p: Plan, i: nat, s: State)
    requires p.Valid() && i < |p.fields| && Sized(p, s) && HonestFrom(p, i)
    ensures var (o, t) := Core(p, i, s); Sound(p, i, s, o, t)
    decreases |p.fields| - i, 0, 0, Relay
  {
    hide Mutate, SpecOf, NodeOf, Check, Honest;
    if Check(p.fields[i]).None? {
      var built := Build(p, i, s);
      if i + 1 < |p.fields| {
        MutateSound(p, i + 1, 0, built);
        MutateExtends(p, i + 1, 0, built);
        FinishSound(p, i, s, Mutate(p, i + 1, 0, built));
      } else {
        InsertExtends(p, built);
        InsertSound(p, built);
        FinishSound(p, i, s, InsertBatch(p, built));
      }
    }
  }

  lemma {:induction false} InsertSound(p: Plan, s: State)
    requires Sized(p, s)
    ensures var (o, t) := InsertBatch(p, s); Sound(p, |p.fields|, s, o, t)
  {
  }

  lemma {:induction false} FinishSound(p: Plan, i: nat, s: State, inner: (Outcome, State))
    requires i < |p.fields| && Sized(p, s)
    requires Extends(p, i + 1, Build(p, i, s), inner.1)
    requires Sound(p, i + 1, Build(p, i, s), inner.0, inner.1)
    ensures inner.0.Ok? ==> Sound(p, i, s, Ok, Finish(i, inner.1))
    ensures !inner.0.Ok? ==> Sound(p, i, s, inner.0, inner.1)
  {
    hide Complete, Ready, SpecOf, NodeOf;
    if inner.0.Ok? {
      var t := Finish(i, inner.1);
      assert inner.1.nodes[i] == Some(Built(NodeOf(p.fields[i]), 0));
      assert DoneAt(p, i, t);
      forall j | i < j < |p.fields| ensures DoneAt(p, j, t) {
        assert DoneAt(p, j, inner.1);
      }
      if i + 1 < |p.fields| {
        assert DoneAt(p, i + 1, inner.1);
      }
    }
  }

  /**
   * If no hook hides an error and `Save` succeeds, the last batch was accepted, every mutation is
   * done and every node carries the identifier the database gave its row.
   */
  lemma {:induction false} SuccessIsSaved(p: Plan, j: nat)
    requires p.Valid() && HonestFrom(p, 0) && Run(p).0.Ok? && j < |p.fields|
    ensures var s := Run(p).1;
      && s.batches != [] && Complete(p, s.batches[|s.batches| - 1])
      && p.answers(|s.batches| - 1).Inserted?
      && DoneAt(p, j, s)
      && (p.answers(|s.batches| - 1).ids(j).Some? ==>
        s.nodes[j].value.id == p.answers(|s.batches| - 1).ids(j).value)
  {
    hide Mutate, Honest, Complete;
    MutateSound(p, 0, 0, Start(p));
    BatchesComplete(p, |Run(p).1.batches| - 1);
  }

  /** If no hook hides an error, a builder that fails `check` leaves no mutation done and `Save` fails. */
  lemma {:induction false} InvalidSavesNothing(p: Plan, k: nat)
    requires p.Valid() && HonestFrom(p, 0) && k < |p.fields| && !Passes(p, k)
    ensures !Run(p).0.Ok? && Run(p).1.finished == map[] && Run(p).1.batches == []
  {
    hide Mutate, Honest;
    InvalidStopsInsert(p, k);
    MutateSound(p, 0, 0, Start(p));
  }

  // ---- Hooks that call the mutator at most once, or exactly once ----

  predicate Answers(hook: Hook) {
    !hook.Next?
  }

  predicate CallsOnce(hook: Hook) {
    hook.Next? && Answers(hook.onOk) && Answers(hook.onError)
  }

  ghost predicate AtMostOnce(p: Plan) {
    forall i, h :: 0 <= i < |p.hooks| && 0 <= h < |p.hooks[i]| ==> Answers(p.hooks[i][h]) || CallsOnce(p.hooks[i][h])
  }

  ghost predicate ExactlyOnce(p: Plan) {
    forall i, h :: 0 <= i < |p.hooks| && 0 <= h < |p.hooks[i]| ==> CallsOnce(p.hooks[i][h])
  }

  predicate Leaves(e: Event, at: (nat, nat)) {
    e.Leave? && (e.i, e.h) == at
  }

  /** A trace that goes straight in from (i, h), may insert at the innermost position, and comes straight out. */
  ghost predicate Straight(p: Plan, i: nat, h: nat, t: seq<Event>)
    requires i < |p.hooks|
    decreases |t|
  {
    && |t| >= 2
    && t[0] == Enter(i, h)
    && Leaves(t[|t| - 1], (i, h))
    && var inside := t[1..|t| - 1];
       || inside == []
       || (Innermost(p, (i, h)) && |inside| == 1 && inside[0].Insert?)
       || (Inner(p, (i, h)).0 < |p.hooks| && Straight(p, Inner(p, (i, h)).0, Inner(p, (i, h)).1, inside))
  }

  /** What a run of the mutator adds to the trace. */
  function Added(s: State, t: State): seq<Event>
    requires s.trace <= t.trace
  {
    t.trace[|s.trace|..]
  }

  lemma {:induction false} AddedBetween(s: State, u: State, enter: Event, leave: Event)
    requires s.Log(enter).trace <= u.trace
    ensures s.trace <= u.Log(leave).trace
    ensures var t := Added(s, u.Log(leave));
      |t| >= 2 && t[0] == enter && t[|t| - 1] == leave && t[1..|t| - 1] == Added(s.Log(enter), u)
  {
    assert Added(s, u.Log(leave)) == [enter] + Added(s.Log(enter), u) + [leave];
  }

  lemma {:induction false} AddedNothing(s: State)
    ensures Added(s, s) == []
  {
  }

  lemma {:induction false} CalledOnce(p: Plan, i: nat, h: nat, hook: Hook, s: State)
    requires p.Valid() && i < |p.fields| && h < |p.hooks[i]| && Sized(p, s) && (Answers(hook) || CallsOnce(hook))
    ensures Follow(p, i, h, hook, Ok, s).1 == if hook.Next? then Mutate(p, i, h + 1, s).1 else s
  {
    hide Mutate;
  }

  lemma {:induction false} MutateStraight(p: Plan, i: nat, h: nat, s: State)
    requires p.Valid() && i < |p.fields| && h <= |p.hooks[i]| && Sized(p, s) && AtMostOnce(p)
    ensures var t := Mutate(p, i, h, s).1; s.trace <= t.trace && Straight(p, i, h, Added(s, t))
    ensures |Mutate(p, i, h, s).1.batches| <= |s.batches| + 1
    decreases |p.fields| - i, |p.hooks[i]| - h, 1
  {
    hide Follow, Core, Added;
    var entered := s.Log(Enter(i, h));
    if h < |p.hooks[i]| {
      var hook := p.hooks[i][h];
      assert Answers(hook) || CallsOnce(hook);
      hide AtMostOnce, Answers, CallsOnce;
      CalledOnce(p, i, h, hook, entered);
      if hook.Next? {
        MutateStraight(p, i, h + 1, entered);
      } else {
        AddedNothing(entered);
      }
      var (o, u) := Follow(p, i, h, hook, Ok, entered);
      AddedBetween(s, u, Enter(i, h), Leave(i, h, o));
    } else {
      CoreStraight(p, i, entered);
      var (o, u) := Core(p, i, entered);
      AddedBetween(s, u, Enter(i, h), Leave(i, h, o));
    }
  }

  lemma {:induction false} CoreStraight(p: Plan, i: nat, s: State)
    requires p.Valid() && i < |p.fields| && Sized(p, s) && AtMostOnce(p)
    ensures var t := Core(p, i, s).1;
      && s.trace <= t.trace
      && var inside := Added(s, t);
        || inside == []
        || (i + 1 == |p.fields| && |inside| == 1 && inside[0].Insert?)
        || (i + 1 < |p.fields| && Straight(p, i + 1, 0, inside))
    ensures |Core(p, i, s).1.batches| <= |s.batches| + 1
    decreases |p.fields| - i, 0, 0
  {
    hide Mutate, Straight, Check, SpecOf, NodeOf;
    if Check(p.fields[i]).None? && i + 1 < |p.fields| {
      MutateStraight(p, i + 1, 0, Build(p, i, s));
    }
  }

  /** The position reached after k steps inwards from (i, h). */
  function Depth(p: Plan, at: (nat, nat), k: nat): (nat, nat) {
    if k == 0 then at else Inner(p, Depth(p, at, k - 1))
  }

  lemma {:induction false} DepthInside(p: Plan, at: (nat, nat), k: nat)
    ensures Depth(p, at, k + 1) == Depth(p, Inner(p, at), k)
  {
    if k > 0 {
      DepthInside(p, at, k - 1);
    }
  }

  /** The k-th event from the front enters position k, the k-th from the back leaves it. */
  predicate MirroredAt(p: Plan, at: (nat, nat), t: seq<Event>, k: nat)
    requires k < |t|
  {
    && t[k] == Enter(Depth(p, at, k).0, Depth(p, at, k).1)
    && Leaves(t[|t| - 1 - k], Depth(p, at, k))
  }

  /** Positions are entered in builder and hook order and left in the reverse order. */
  ghost predicate Mirrored(p: Plan, at: (nat, nat), t: seq<Event>) {
    && (forall k :: 0 <= k < |t| / 2 ==> MirroredAt(p, at, t, k))
    && (|t| % 2 == 1 ==> t[|t| / 2].Insert?)
  }

  lemma {:induction false} MirroredOutside(p: Plan, at: (nat, nat), t: seq<Event>, k: nat)
    requires 1 <= k < |t| / 2
    requires Depth(p, at, k) == Depth(p, Inner(p, at), k - 1)
    requires MirroredAt(p, Inner(p, at), t[1..|t| - 1], k - 1)
    ensures MirroredAt(p, at, t, k)
  {
    hide Depth, Inner;
    var inside := t[1..|t| - 1];
    assert t[k] == inside[k - 1];
    assert t[|t| - 1 - k] == inside[|inside| - 1 - (k - 1)];
  }

  lemma {:induction false} StraightMirrors(p: Plan, i: nat, h: nat, t: seq<Event>)
    requires i < |p.hooks| && Straight(p, i, h, t)
    ensures Mirrored(p, (i, h), t)
    decreases |t|
  {
    hide Innermost;
    var inside := t[1..|t| - 1];
    var next := Inner(p, (i, h));
    assert MirroredAt(p, (i, h), t, 0);
    if next.0 < |p.hooks| && Straight(p, next.0, next.1, inside) {
      StraightMirrors(p, next.0, next.1, inside);
      hide Straight, Inner, MirroredAt;
      forall k | 1 <= k < |t| / 2 ensures MirroredAt(p, (i, h), t, k) {
        assert MirroredAt(p, next, inside, k - 1);
        DepthInside(p, (i, h), k - 1);
        MirroredOutside(p, (i, h), t, k);
      }
    }
  }

  /**
   * With hooks that call the mutator at most once, positions are entered in builder and hook order,
   * each at most once, and left in the reverse order, and there is at most one insert, in the middle.
   */
  lemma {:induction false} StraightRun(p: Plan)
    requires p.Valid() && p.fields != [] && AtMostOnce(p)
    ensures Mirrored(p, (0, 0), Run(p).1.trace)
    ensures |Run(p).1.batches| <= 1
  {
    hide Mutate, Straight, AtMostOnce, Mirrored;
    MutateStraight(p, 0, 0, Start(p));
    var t := Run(p).1;
    assert Added(Start(p), t) == t.trace;
    StraightMirrors(p, 0, 0, t.trace);
  }

  ghost predicate PassBetween(p: Plan, i: nat, k: nat) {
    forall j :: i <= j < k && j < |p.fields| ==> Passes(p, j)
  }

  /** The first builder from i on that fails `check`. */
  function FirstInvalid(p: Plan, i: nat): (k: nat)
    requires i <= |p.fields|
    ensures i <= k <= |p.fields|
    ensures k < |p.fields| ==> !Passes(p, k)
    ensures PassBetween(p, i, k)
    decreases |p.fields| - i
  {
    hide *;
    if i == |p.fields| then
      NoneBetween(p, i);
      i
    else if !Passes(p, i) then
      NoneBetween(p, i);
      i
    else
      var k := FirstInvalid(p, i + 1);
      OneMoreBetween(p, i, k);
      k
  }

  lemma {:induction false} NoneBetween(p: Plan, i: nat)
    ensures PassBetween(p, i, i)
  {
  }

  lemma {:induction false} OneMoreBetween(p: Plan, i: nat, k: nat)
    requires i < |p.fields| && Passes(p, i) && PassBetween(p, i + 1, k)
    ensures PassBetween(p, i, k)
  {
    hide Passes;
  }

  /** One more batch if every builder passes; new specifications exactly before the first invalid builder. */
  ghost predicate Counted(p: Plan, i: nat, s: State, t: State)
    requires i <= |p.fields| && Sized(p, s) && Sized(p, t)
  {
    && |t.batches| == |s.batches| + (if FirstInvalid(p, i) == |p.fields| then 1 else 0)
    && forall j :: 0 <= j < |p.fields| ==>
      (t.specs[j].Some? <==> s.specs[j].Some? || i <= j < FirstInvalid(p, i))
  }

  lemma {:induction false} CallsOnceIsNext(hook: Hook)
    ensures CallsOnce(hook) ==> hook.Next?
  {
  }

  lemma {:induction false} MutateCounted(p: Plan, i: nat, h: nat, s: State)
    requires p.Valid() && i < |p.fields| && h <= |p.hooks[i]| && Sized(p, s) && ExactlyOnce(p)
    ensures Counted(p, i, s, Mutate(p, i, h, s).1)
    decreases |p.fields| - i, |p.hooks[i]| - h, 1
  {
    hide Follow, Core, FirstInvalid, Check, CallsOnce;
    var entered := s.Log(Enter(i, h));
    if h < |p.hooks[i]| {
      CallsOnceIsNext(p.hooks[i][h]);
      CalledOnce(p, i, h, p.hooks[i][h], entered);
      MutateCounted(p, i, h + 1, entered);
    } else {
      CoreCounted(p, i, entered);
    }
  }

  lemma {:induction false} CoreCounted(p: Plan, i: nat, s: State)
    requires p.Valid() && i < |p.fields| && Sized(p, s) && ExactlyOnce(p)
    ensures Counted(p, i, s, Core(p, i, s).1)
    decreases |p.fields| - i, 0, 0
  {
    hide Mutate, Check, SpecOf, NodeOf, ExactlyOnce;
    if Passes(p, i) {
      var built := Build(p, i, s);
      if i + 1 < |p.fields| {
        MutateCounted(p, i + 1, 0, built);
      } else {
        assert FirstInvalid(p, i + 1) == |p.fields|;
      }
    }
  }

  /**
   * All or nothing up to the database call. With hooks that call the mutator exactly once, whatever
   * they answer, there is one batch if there are builders and all pass `check`, and none otherwise;
   * specifications exist exactly before the first builder that fails.
   */
  lemma {:induction false} AllOrNothing(p: Plan, j: nat)
    requires p.Valid() && ExactlyOnce(p) && j < |p.fields|
    ensures |Run(p).1.batches| == if FirstInvalid(p, 0) == |p.fields| then 1 else 0
    ensures Run(p).1.specs[j].Some? <==> j < FirstInvalid(p, 0)
  {
    hide Mutate, ExactlyOnce;
    MutateCounted(p, 0, 0, Start(p));
  }

  /** Hooks that only pass on what the mutator answers. */
  ghost predicate PassThrough(p: Plan) {
    forall i, h :: 0 <= i < |p.hooks| && 0 <= h < |p.hooks[i]| ==> p.hooks[i][h] == Next(Relay, Relay)
  }

  function Expected(p: Plan, i: nat, attempts: nat): Outcome
    requires i <= |p.fields|
  {
    var k := FirstInvalid(p, i);
    if k < |p.fields| then Invalid(k, Check(p.fields[k]).value)
    else if p.answers(attempts).Inserted? then Ok
    else Unsaved
  }

  lemma {:induction false} MutateExpected(p: Plan, i: nat, h: nat, s: State)
    requires p.Valid() && i < |p.fields| && h <= |p.hooks[i]| && Sized(p, s) && PassThrough(p)
    ensures Mutate(p, i, h, s).0 == Expected(p, i, |s.batches|)
    decreases |p.fields| - i, |p.hooks[i]| - h
  {
    hide Check, SpecOf, NodeOf;
    var entered := s.Log(Enter(i, h));
    if h < |p.hooks[i]| {
      MutateExpected(p, i, h + 1, entered);
      var (o, t) := Mutate(p, i, h + 1, entered);
      assert Follow(p, i, h, Next(Relay, Relay), Ok, entered) == (o, t) by {
        assert Follow(p, i, h, Relay, o, t) == (o, t);
      }
    } else if Passes(p, i) && i + 1 < |p.fields| {
      MutateExpected(p, i + 1, 0, Build(p, i, entered));
    }
  }

  /**
   * With pass-through hooks `Save` reports the first builder that fails `check`, else the answer of
   * the one insert; it succeeds exactly if all builders pass and the insert is accepted.
   */
  lemma {:induction false} SaveOutcome(p: Plan)
    requires p.Valid() && PassThrough(p) && p.fields != []
    ensures Run(p).0 == Expected(p, 0, 0)
    ensures Run(p).0.Ok? <==> (forall j :: 0 <= j < |p.fields| ==> Passes(p, j)) && p.answers(0).Inserted?
  {
    hide Mutate, PassThrough;
    MutateExpected(p, 0, 0, Start(p));
  }
}
