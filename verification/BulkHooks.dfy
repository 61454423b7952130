/** Which hooks keep the promises of `Save` for every answer of the database: exact conditions. */
module BulkHooks {
  import opened Collections
  import opened AccountBuilder
  import opened BulkRun
  import opened BulkLaws

  /** The same run against another database. */
  function Against(p: Plan, answers: nat -> Answer): Plan {
    p.(answers := answers)
  }

  // ---- The finished builders are a suffix ----

  /**
   * Whether the hooks of one builder, from h on, answer without error although the mutator under
   * them fails each time they call it.
   */
  predicate Swallows(hooks: seq<Hook>, h: nat)
    requires h <= |hooks|
    decreases |hooks| - h, 1, Relay
  {
    h < |hooks| && SwallowsFrom(hooks, h, hooks[h], true)
  }

  predicate SwallowsFrom(hooks: seq<Hook>, h: nat, hook: Hook, last: bool)
    requires h < |hooks|
    decreases |hooks| - h, 0, hook
  {
    match hook
    case Accept => true
    case Reject => false
    case Relay => last
    case Next(onOk, onError) =>
      var o := Swallows(hooks, h + 1);
      SwallowsFrom(hooks, h, if o then onOk else onError, o)
  }

  /** The hooks of builder i before h all call on at once. */
  ghost predicate CallOn(p: Plan, i: nat, h: nat)
    requires i < |p.hooks| && h <= |p.hooks[i]|
  {
    forall g :: 0 <= g < h ==> p.hooks[i][g].Next?
  }

  /** The run reaches builder i: those before it pass their checks and their hooks call on. */
  ghost predicate Reached(p: Plan, i: nat)
    requires p.Valid()
  {
    forall j :: 0 <= j < i && j < |p.fields| ==> Passes(p, j) && CallOn(p, j, |p.hooks[j]|)
  }

  /** No builder behind the first that is reached has hooks that swallow every failure. */
  ghost predicate NoneSwallows(p: Plan)
    requires p.Valid()
  {
    forall j :: 1 <= j < |p.fields| && Reached(p, j) ==> !Swallows(p.hooks[j], 0)
  }

  /** What holds for a call of builder i with its hooks from h on. */
  ghost predicate Kept(p: Plan, i: nat, s: State, t: State, ok: bool, swallows: bool) {
    && (Suffix(p, s) ==> Suffix(p, t))
    && (i in t.finished || ok == swallows)
  }

  lemma {:induction false} MutateKept(p: Plan, i: nat, h: nat, s: State)
    requires p.Valid() && i < |p.fields| && h <= |p.hooks[i]| && Sized(p, s)
    requires NoneSwallows(p) && Reached(p, i) && CallOn(p, i, h)
    ensures var (o, t) := Mutate(p, i, h, s); Kept(p, i, s, t, o.Ok?, Swallows(p.hooks[i], h))
    decreases |p.fields| - i, |p.hooks[i]| - h, 1, Relay
  {
    hide NoneSwallows, Reached;
    var entered := s.Log(Enter(i, h));
    if h < |p.hooks[i]| {
      FollowKept(p, i, h, p.hooks[i][h], Ok, entered);
    } else {
      CoreKept(p, i, entered);
    }
  }

  lemma {:induction false} FollowKept(p: Plan, i: nat, h: nat, hook: Hook, last: Outcome, s: State)
    requires p.Valid() && i < |p.fields| && h < |p.hooks[i]| && Sized(p, s)
    requires NoneSwallows(p) && Reached(p, i) && CallOn(p, i, h)
    requires hook.Next? ==> p.hooks[i][h].Next?
    ensures var (o, t) := Follow(p, i, h, hook, last, s);
      Kept(p, i, s, t, o.Ok?, SwallowsFrom(p.hooks[i], h, hook, last.Ok?))
    decreases |p.fields| - i, |p.hooks[i]| - h, 0, hook
  {
    hide Mutate, NoneSwallows, Reached, Swallows, Suffix;
    if hook.Next? {
      MutateKept(p, i, h + 1, s);
      var (o, t) := Mutate(p, i, h + 1, s);
      var rest := if o.Ok? then hook.onOk else hook.onError;
      FollowKept(p, i, h, rest, o, t);
      FollowExtends(p, i, h, rest, o, t);
    }
  }

  lemma {:induction false} CoreKept(p: Plan, i: nat, s: State)
    requires p.Valid() && i < |p.fields| && Sized(p, s)
    requires NoneSwallows(p) && Reached(p, i) && CallOn(p, i, |p.hooks[i]|)
    ensures var (o, t) := Core(p, i, s); Kept(p, i, s, t, o.Ok?, false)
    decreases |p.fields| - i, 0, 0, Relay
  {
    hide Mutate, Check, SpecOf, NodeOf, Swallows, CallOn;
    if Passes(p, i) {
      var built := Build(p, i, s);
      if i + 1 < |p.fields| {
        assert Reached(p, i + 1);
        FirstCallsOn(p, i + 1);
        MutateKept(p, i + 1, 0, built);
        MutateExtends(p, i + 1, 0, built);
      }
    }
  }

  lemma {:induction false} FirstCallsOn(p: Plan, i: nat)
    requires i < |p.hooks|
    ensures CallOn(p, i, 0)
  {
  }

  /**
   * The done builders always form a suffix of the list, however often hooks retry and whatever the
   * database answers, if no builder behind the first has hooks that swallow every failure.
   */
  lemma {:induction false} DoneIsSuffix(p: Plan)
    requires p.Valid() && NoneSwallows(p)
    ensures Suffix(p, Run(p).1)
  {
    hide Mutate;
    if p.fields != [] {
      MutateKept(p, 0, 0, Start(p));
    }
  }

  /** The last builder that is reached with hooks that swallow every failure. */
  ghost predicate LastSwallow(p: Plan, k: nat)
    requires p.Valid()
  {
    && 1 <= k < |p.fields| && Reached(p, k) && Swallows(p.hooks[k], 0)
    && forall j :: k < j < |p.fields| && Reached(p, j) ==> !Swallows(p.hooks[j], 0)
  }

  lemma {:induction false} SomeLastSwallow(p: Plan, j: nat) returns (k: nat)
    requires p.Valid() && 1 <= j < |p.fields| && Reached(p, j) && Swallows(p.hooks[j], 0)
    ensures LastSwallow(p, k) && j <= k
    decreases |p.fields| - j
  {
    hide Reached, Swallows;
    if m: nat :| j < m < |p.fields| && Reached(p, m) && Swallows(p.hooks[m], 0) {
      k := SomeLastSwallow(p, m);
    } else {
      k := j;
    }
  }

  ghost predicate AllRefused(p: Plan) {
    forall n :: p.answers(n).Refused?
  }

  /** Against a database that refuses everything nothing from builder k on is ever finished. */
  lemma {:induction false} MutateRefused(p: Plan, k: nat, i: nat, h: nat, s: State)
    requires p.Valid() && k <= i < |p.fields| && h <= |p.hooks[i]| && Sized(p, s)
    requires LastSwallow(p, k) && AllRefused(p) && Reached(p, i) && CallOn(p, i, h)
    ensures var (o, t) := Mutate(p, i, h, s); o.Ok? == Swallows(p.hooks[i], h) && t.finished == s.finished
    decreases |p.fields| - i, |p.hooks[i]| - h, 1, Relay
  {
    hide LastSwallow, Reached, AllRefused;
    var entered := s.Log(Enter(i, h));
    if h < |p.hooks[i]| {
      FollowRefused(p, k, i, h, p.hooks[i][h], Ok, entered);
    } else {
      CoreRefused(p, k, i, entered);
    }
  }

  lemma {:induction false} FollowRefused(p: Plan, k: nat, i: nat, h: nat, hook: Hook, last: Outcome, s: State)
    requires p.Valid() && k <= i < |p.fields| && h < |p.hooks[i]| && Sized(p, s)
    requires LastSwallow(p, k) && AllRefused(p) && Reached(p, i) && CallOn(p, i, h)
    requires hook.Next? ==> p.hooks[i][h].Next?
    ensures var (o, t) := Follow(p, i, h, hook, last, s);
      o.Ok? == SwallowsFrom(p.hooks[i], h, hook, last.Ok?) && t.finished == s.finished
    decreases |p.fields| - i, |p.hooks[i]| - h, 0, hook
  {
    hide Mutate, LastSwallow, Reached, AllRefused, Swallows;
    if hook.Next? {
      MutateRefused(p, k, i, h + 1, s);
      var (o, t) := Mutate(p, i, h + 1, s);
      FollowRefused(p, k, i, h, if o.Ok? then hook.onOk else hook.onError, o, t);
    }
  }

  lemma {:induction false} CoreRefused(p: Plan, k: nat, i: nat, s: State)
    requires p.Valid() && k <= i < |p.fields| && Sized(p, s)
    requires LastSwallow(p, k) && AllRefused(p) && Reached(p, i) && CallOn(p, i, |p.hooks[i]|)
    ensures var (o, t) := Core(p, i, s); !o.Ok? && t.finished == s.finished
    decreases |p.fields| - i, 0, 0, Relay
  {
    hide Mutate, Check, SpecOf, NodeOf, Swallows, CallOn;
    if Passes(p, i) && i + 1 < |p.fields| {
      assert Reached(p, i + 1);
      FirstCallsOn(p, i + 1);
      MutateRefused(p, k, i + 1, 0, Build(p, i, s));
    }
  }

  /** Builder k - 1 is finished, builder k is not. */
  ghost predicate Gap(k: nat, s: State) {
    k > 0 && k - 1 in s.finished && k !in s.finished
  }

  /** Builders before k always call on, and the one before k takes the swallowed failure for success. */
  lemma {:induction false} MutateGap(p: Plan, k: nat, i: nat, h: nat, s: State)
    requires p.Valid() && i < k < |p.fields| && h <= |p.hooks[i]| && Sized(p, s)
    requires LastSwallow(p, k) && AllRefused(p) && k !in s.finished
    ensures Gap(k, Mutate(p, i, h, s).1)
    decreases |p.fields| - i, |p.hooks[i]| - h, 1, Relay
  {
    hide AllRefused, LastSwallow, Reached;
    var entered := s.Log(Enter(i, h));
    if h < |p.hooks[i]| {
      CallsOnBefore(p, k, i, h);
      FollowGap(p, k, i, h, p.hooks[i][h], Ok, entered);
    } else {
      CoreGap(p, k, i, entered);
    }
  }

  lemma {:induction false} CallsOnBefore(p: Plan, k: nat, i: nat, h: nat)
    requires p.Valid() && i < k < |p.fields| && h < |p.hooks[i]| && LastSwallow(p, k)
    ensures p.hooks[i][h].Next?
  {
    assert CallOn(p, i, |p.hooks[i]|);
  }

  lemma {:induction false} FollowGap(p: Plan, k: nat, i: nat, h: nat, hook: Hook, last: Outcome, s: State)
    requires p.Valid() && i < k < |p.fields| && h < |p.hooks[i]| && Sized(p, s)
    requires LastSwallow(p, k) && AllRefused(p) && k !in s.finished
    requires hook.Next? || Gap(k, s)
    ensures Gap(k, Follow(p, i, h, hook, last, s).1)
    decreases |p.fields| - i, |p.hooks[i]| - h, 0, hook
  {
    hide Mutate, LastSwallow, AllRefused;
    if hook.Next? {
      MutateGap(p, k, i, h + 1, s);
      var (o, t) := Mutate(p, i, h + 1, s);
      FollowGap(p, k, i, h, if o.Ok? then hook.onOk else hook.onError, o, t);
    }
  }

  lemma {:induction false} CoreGap(p: Plan, k: nat, i: nat, s: State)
    requires p.Valid() && i < k < |p.fields| && Sized(p, s)
    requires LastSwallow(p, k) && AllRefused(p) && k !in s.finished
    ensures Gap(k, Core(p, i, s).1)
    decreases |p.fields| - i, 0, 0, Relay
  {
    hide Mutate, Check, SpecOf, NodeOf, Swallows, CallOn;
    assert Passes(p, i);
    var built := Build(p, i, s);
    if i + 1 < k {
      MutateGap(p, k, i + 1, 0, built);
    } else {
      FirstCallsOn(p, k);
      MutateRefused(p, k, k, 0, built);
      MutateExtends(p, k, 0, built);
    }
  }

  /**
   * For given builders and hooks the done builders form a suffix whatever the database answers if
   * and only if no builder behind the first is reached with hooks that swallow every failure.
   */
  lemma {:induction false} SuffixExactly(p: Plan)
    requires p.Valid()
    ensures (forall answers :: Suffix(p, Run(Against(p, answers)).1)) <==> NoneSwallows(p)
  {
    hide Run, Reached, Swallows;
    if NoneSwallows(p) {
      forall answers ensures Suffix(p, Run(Against(p, answers)).1) {
        SameReach(p, answers);
        DoneIsSuffix(Against(p, answers));
      }
    } else {
      var j :| 1 <= j < |p.fields| && Reached(p, j) && Swallows(p.hooks[j], 0);
      HiddenError(p, j);
    }
  }

  lemma {:induction false} SameReach(p: Plan, answers: nat -> Answer)
    requires p.Valid()
    ensures forall j :: Reached(Against(p, answers), j) <==> Reached(p, j)
  {
    var q := Against(p, answers);
    forall i | 0 <= i < |p.fields| ensures CallOn(q, i, |q.hooks[i]|) <==> CallOn(p, i, |p.hooks[i]|) {
      assert q.hooks == p.hooks;
    }
    forall j: nat ensures Reached(q, j) <==> Reached(p, j) {
      hide CallOn;
      assert forall i :: 0 <= i < j && i < |p.fields| ==> (Passes(q, i) <==> Passes(p, i));
    }
  }

  /** A database that refuses everything shows it: a builder is finished, the next one is not, and no row exists. */
  lemma {:induction false} HiddenError(p: Plan, j: nat)
    requires p.Valid() && 1 <= j < |p.fields| && Reached(p, j) && Swallows(p.hooks[j], 0)
    ensures var refused := Against(p, _ => Refused);
      exists k: nat :: Gap(k, Run(refused).1) && j <= k < |p.fields|
    ensures !Suffix(p, Run(Against(p, _ => Refused)).1)
  {
    hide Mutate, Reached, Swallows;
    var refused := Against(p, _ => Refused);
    SameReach(p, _ => Refused);
    assert refused == Against(p, refused.answers);
    SameReach(p, refused.answers);
    var k := SomeLastSwallow(refused, j);
    MutateGap(refused, k, 0, 0, Start(refused));
    assert Gap(k, Run(refused).1);
  }

  // ---- Honest hooks never swallow ----

  lemma {:induction false} HonestFollows(hooks: seq<Hook>, h: nat, hook: Hook, last: bool, called: bool)
    requires h < |hooks| && forall g :: 0 <= g < |hooks| ==> Honest(hooks[g], false, false)
    requires Honest(hook, called, called && last) && (called ==> !last)
    ensures !SwallowsFrom(hooks, h, hook, last)
    decreases |hooks| - h, 0, hook
  {
    if hook.Next? {
      HonestStack(hooks, h + 1);
      HonestFollows(hooks, h, hook.onError, false, true);
    }
  }

  lemma {:induction false} HonestStack(hooks: seq<Hook>, h: nat)
    requires h <= |hooks| && forall g :: 0 <= g < |hooks| ==> Honest(hooks[g], false, false)
    ensures !Swallows(hooks, h)
    decreases |hooks| - h, 1, Relay
  {
    if h < |hooks| {
      HonestFollows(hooks, h, hooks[h], true, false);
    }
  }

  /** Honest hooks behind the first builder suffice for the suffix; they are not necessary. */
  lemma {:induction false} HonestNeverSwallows(p: Plan)
    requires p.Valid() && HonestFrom(p, 1)
    ensures NoneSwallows(p)
  {
    forall j | 1 <= j < |p.fields| ensures !Swallows(p.hooks[j], 0) {
      HonestStack(p.hooks[j], 0);
    }
  }
}
