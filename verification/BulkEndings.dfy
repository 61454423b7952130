/** How a bulk create can end, over all answers of the database, and when success means saved. */
module BulkEndings {
  import opened Collections
  import opened AccountBuilder
  import opened BulkRun
  import opened BulkLaws
  import opened BulkHooks

  /** What became of the last batch a call sent, if it sent one. */
  datatype Landing = Nothing | Accepted | Lost

  function LandingOf(p: Plan, s: State, t: State): Landing {
    if |t.batches| <= |s.batches| then Nothing
    else if p.answers(|t.batches| - 1).Inserted? then Accepted
    else Lost
  }

  /** The landing after two calls in a row. */
  function Later(before: Landing, after: Landing): Landing {
    if after == Nothing then before else after
  }

  /** Builders and hooks without a database. */
  datatype Chain = Chain(fields: seq<Fields>, hooks: seq<seq<Hook>>) {
    predicate Valid() {
      |fields| == |hooks|
    }
  }

  function ChainOf(p: Plan): Chain {
    Chain(p.fields, p.hooks)
  }

  /** A call of builder i with its hooks from h on can end with this outcome and this landing. */
  predicate CanEnd(c: Chain, i: nat, h: nat, ok: bool, land: Landing)
    requires c.Valid() && i < |c.fields| && h <= |c.hooks[i]|
    decreases |c.fields| - i, |c.hooks[i]| - h, 1, Relay
  {
    if h < |c.hooks[i]| then CanFollow(c, i, h, c.hooks[i][h], true, Nothing, ok, land)
    else if Check(c.fields[i]).Some? then !ok && land == Nothing
    else if i + 1 < |c.fields| then CanEnd(c, i + 1, 0, ok, land)
    else land == if ok then Accepted else Lost
  }

  function Branch(hook: Hook, ok: bool): Hook
    requires hook.Next?
  {
    if ok then hook.onOk else hook.onError
  }

  /** A hook can end so from some point of its decisions on, where `last` and `before` describe its calls so far. */
  predicate CanFollow(c: Chain, i: nat, h: nat, hook: Hook, last: bool, before: Landing, ok: bool, land: Landing)
    requires c.Valid() && i < |c.fields| && h < |c.hooks[i]|
    decreases |c.fields| - i, |c.hooks[i]| - h, 0, hook
  {
    match hook
    case Accept => ok && land == before
    case Reject => !ok && land == before
    case Relay => ok == last && land == before
    case Next(onOk, onError) =>
      exists o: bool, l: Landing ::
        CanEnd(c, i, h + 1, o, l) && CanFollow(c, i, h, Branch(hook, o), o, Later(before, l), ok, land)
  }

  // ---- Every run ends in a way it can ----

  lemma {:induction false} MutateEnds(p: Plan, i: nat, h: nat, s: State)
    requires p.Valid() && i < |p.fields| && h <= |p.hooks[i]| && Sized(p, s)
    ensures var (o, t) := Mutate(p, i, h, s); CanEnd(ChainOf(p), i, h, o.Ok?, LandingOf(p, s, t))
    decreases |p.fields| - i, |p.hooks[i]| - h, 1, Relay
  {
    hide Follow, Core, CanFollow;
    var entered := s.Log(Enter(i, h));
    if h < |p.hooks[i]| {
      FollowEnds(p, i, h, p.hooks[i][h], Ok, s, entered);
    } else {
      CoreEnds(p, i, entered);
    }
  }

  lemma {:induction false} CoreEnds(p: Plan, i: nat, s: State)
    requires p.Valid() && i < |p.fields| && Sized(p, s)
    ensures var (o, t) := Core(p, i, s); CanEnd(ChainOf(p), i, |p.hooks[i]|, o.Ok?, LandingOf(p, s, t))
    decreases |p.fields| - i, 0, 0, Relay
  {
    hide Mutate, SpecOf, NodeOf, Check;
    if Passes(p, i) && i + 1 < |p.fields| {
      MutateEnds(p, i + 1, 0, Build(p, i, s));
    }
  }

  /** The hook's calls began in state `start`. */
  lemma {:induction false} FollowEnds(p: Plan, i: nat, h: nat, hook: Hook, last: Outcome, start: State, s: State)
    requires p.Valid() && i < |p.fields| && h < |p.hooks[i]| && Sized(p, s) && start.batches <= s.batches
    ensures var (o, t) := Follow(p, i, h, hook, last, s);
      CanFollow(ChainOf(p), i, h, hook, last.Ok?, LandingOf(p, start, s), o.Ok?, LandingOf(p, start, t))
    decreases |p.fields| - i, |p.hooks[i]| - h, 0, hook
  {
    hide Mutate, CanEnd;
    if hook.Next? {
      MutateEnds(p, i, h + 1, s);
      MutateExtends(p, i, h + 1, s);
      var (o, t) := Mutate(p, i, h + 1, s);
      var rest := Branch(hook, o.Ok?);
      FollowEnds(p, i, h, rest, o, start, t);
      assert LandingOf(p, start, t) == Later(LandingOf(p, start, s), LandingOf(p, s, t));
    }
  }

  // ---- Every ending is that of a run ----

  ghost predicate AgreeBelow(p: Plan, answers: nat -> Answer, n: nat) {
    forall k :: 0 <= k < n ==> answers(k) == p.answers(k)
  }

  /** A run depends only on the answers to the batches it sends. */
  lemma {:induction false} MutateLocal(p: Plan, answers: nat -> Answer, i: nat, h: nat, s: State)
    requires p.Valid() && i < |p.fields| && h <= |p.hooks[i]| && Sized(p, s)
    requires AgreeBelow(p, answers, |Mutate(p, i, h, s).1.batches|)
    ensures Mutate(Against(p, answers), i, h, s) == Mutate(p, i, h, s)
    decreases |p.fields| - i, |p.hooks[i]| - h, 1, Relay
  {
    hide AgreeBelow;
    var entered := s.Log(Enter(i, h));
    if h < |p.hooks[i]| {
      FollowLocal(p, answers, i, h, p.hooks[i][h], Ok, entered);
    } else {
      CoreLocal(p, answers, i, entered);
    }
  }

  lemma {:induction false} FollowLocal(
    p: Plan, answers: nat -> Answer, i: nat, h: nat, hook: Hook, last: Outcome, s: State)
    requires p.Valid() && i < |p.fields| && h < |p.hooks[i]| && Sized(p, s)
    requires AgreeBelow(p, answers, |Follow(p, i, h, hook, last, s).1.batches|)
    ensures Follow(Against(p, answers), i, h, hook, last, s) == Follow(p, i, h, hook, last, s)
    decreases |p.fields| - i, |p.hooks[i]| - h, 0, hook
  {
    hide Mutate;
    if hook.Next? {
      var (o, t) := Mutate(p, i, h + 1, s);
      var rest := if o.Ok? then hook.onOk else hook.onError;
      FollowExtends(p, i, h, rest, o, t);
      MutateLocal(p, answers, i, h + 1, s);
      FollowLocal(p, answers, i, h, rest, o, t);
    }
  }

  lemma {:induction false} CoreLocal(p: Plan, answers: nat -> Answer, i: nat, s: State)
    requires p.Valid() && i < |p.fields| && Sized(p, s)
    requires AgreeBelow(p, answers, |Core(p, i, s).1.batches|)
    ensures Core(Against(p, answers), i, s) == Core(p, i, s)
    decreases |p.fields| - i, 0, 0, Relay
  {
    hide Mutate, SpecOf, NodeOf, Check;
    if Passes(p, i) {
      var built := Build(p, i, s);
      if i + 1 < |p.fields| {
        MutateLocal(p, answers, i + 1, 0, built);
      }
    }
  }

  /** A database that answers as `p` does so far and lets the call end as it can. */
  lemma {:induction false} MutateReaches(p: Plan, i: nat, h: nat, s: State, ok: bool, land: Landing)
    returns (answers: nat -> Answer)
    requires p.Valid() && i < |p.fields| && h <= |p.hooks[i]| && Sized(p, s) && CanEnd(ChainOf(p), i, h, ok, land)
    ensures AgreeBelow(p, answers, |s.batches|)
    ensures var q := Against(p, answers);
      var (o, t) := Mutate(q, i, h, s);
      o.Ok? == ok && LandingOf(q, s, t) == land
    decreases |p.fields| - i, |p.hooks[i]| - h, 1, Relay
  {
    hide Follow, Core, CanFollow;
    var entered := s.Log(Enter(i, h));
    if h < |p.hooks[i]| {
      answers := FollowReaches(p, i, h, p.hooks[i][h], Ok, s, entered, ok, land);
    } else {
      answers := CoreReaches(p, i, entered, ok, land);
    }
  }

  lemma {:induction false} CallLands(p: Plan, answers: nat -> Answer, i: nat, h: nat, start: State, s: State)
    requires p.Valid() && i < |p.fields| && h <= |p.hooks[i]| && Sized(p, s) && start.batches <= s.batches
    requires AgreeBelow(p, answers, |s.batches|)
    ensures var q := Against(p, answers);
      var t := Mutate(q, i, h, s).1;
      && s.batches <= t.batches
      && LandingOf(q, start, t) == Later(LandingOf(p, start, s), LandingOf(q, s, t))
  {
    hide Mutate, Complete;
    MutateExtends(Against(p, answers), i, h, s);
  }

  lemma {:induction false} FollowReaches(
    p: Plan, i: nat, h: nat, hook: Hook, last: Outcome, start: State, s: State, ok: bool, land: Landing)
    returns (answers: nat -> Answer)
    requires p.Valid() && i < |p.fields| && h < |p.hooks[i]| && Sized(p, s) && start.batches <= s.batches
    requires CanFollow(ChainOf(p), i, h, hook, last.Ok?, LandingOf(p, start, s), ok, land)
    ensures AgreeBelow(p, answers, |s.batches|)
    ensures var q := Against(p, answers);
      var (o, t) := Follow(q, i, h, hook, last, s);
      o.Ok? == ok && LandingOf(q, start, t) == land
    decreases |p.fields| - i, |p.hooks[i]| - h, 0, hook
  {
    hide Mutate, CanEnd, Extends;
    answers := p.answers;
    if hook.Next? {
      var o: bool, l: Landing :|
        CanEnd(ChainOf(p), i, h + 1, o, l)
        && CanFollow(ChainOf(p), i, h, Branch(hook, o), o, Later(LandingOf(p, start, s), l), ok, land);
      var first := MutateReaches(p, i, h + 1, s, o, l);
      var q := Against(p, first);
      var (answer, t) := Mutate(q, i, h + 1, s);
      CallLands(p, first, i, h + 1, start, s);
      hide LandingOf, Later;
      answers := FollowReaches(q, i, h, Branch(hook, o), answer, start, t, ok, land);
      MutateLocal(q, answers, i, h + 1, s);
      assert Against(q, answers) == Against(p, answers);
    }
  }

  lemma {:induction false} CoreReaches(p: Plan, i: nat, s: State, ok: bool, land: Landing)
    returns (answers: nat -> Answer)
    requires p.Valid() && i < |p.fields| && Sized(p, s) && CanEnd(ChainOf(p), i, |p.hooks[i]|, ok, land)
    ensures AgreeBelow(p, answers, |s.batches|)
    ensures var q := Against(p, answers);
      var (o, t) := Core(q, i, s);
      o.Ok? == ok && LandingOf(q, s, t) == land
    decreases |p.fields| - i, 0, 0, Relay
  {
    hide Mutate, SpecOf, NodeOf, Check;
    answers := p.answers;
    if Passes(p, i) {
      var built := Build(p, i, s);
      if i + 1 < |p.fields| {
        answers := MutateReaches(p, i + 1, 0, built, ok, land);
      } else {
        var answer := if ok then Inserted(_ => None) else Refused;
        answers := (n: nat) => if n == |s.batches| then answer else p.answers(n);
      }
    }
  }

  // ---- When success means saved ----

  /** Success only with a last batch that was accepted. */
  ghost predicate Saved(p: Plan)
    requires p.Valid()
  {
    var (o, t) := Run(p);
    o.Ok? ==> t.batches != [] && p.answers(|t.batches| - 1).Inserted?
  }

  /** The endings that claim success without rows. */
  predicate CanDeceive(c: Chain)
    requires c.Valid() && c.fields != []
  {
    CanEnd(c, 0, 0, true, Nothing) || CanEnd(c, 0, 0, true, Lost)
  }

  /**
   * For given builders and hooks success means that the last batch was accepted, whatever the
   * database answers, if and only if the chain cannot end in success without one.
   */
  lemma {:induction false} SavedExactly(p: Plan)
    requires p.Valid() && p.fields != []
    ensures (forall answers :: Saved(Against(p, answers))) <==> !CanDeceive(ChainOf(p))
  {
    hide Mutate, CanEnd;
    if !CanDeceive(ChainOf(p)) {
      forall answers ensures Saved(Against(p, answers)) {
        MutateEnds(Against(p, answers), 0, 0, Start(p));
      }
    } else {
      var land := if CanEnd(ChainOf(p), 0, 0, true, Nothing) then Nothing else Lost;
      var answers := MutateReaches(p, 0, 0, Start(p), true, land);
      assert !Saved(Against(p, answers));
    }
  }

  // ---- One hook ----

  /** One builder with one hook. */
  function Alone(f: Fields, hook: Hook): Chain {
    Chain([f], [[hook]])
  }

  lemma {:induction false} HonestCannotDeceive(f: Fields, root: Hook, hook: Hook, last: bool, before: Landing)
    requires Check(f).None?
    requires before == Nothing ==> last
    requires before != Nothing ==> before == if last then Accepted else Lost
    ensures Honest(hook, before != Nothing, before != Nothing && last)
       <==> !CanFollow(Alone(f, root), 0, 0, hook, last, before, true, Nothing)
            && !CanFollow(Alone(f, root), 0, 0, hook, last, before, true, Lost)
  {
    hide Check;
    if hook.Next? {
      var c := Alone(f, root);
      assert forall o, l :: CanEnd(c, 0, 1, o, l) <==> l == if o then Accepted else Lost;
      HonestCannotDeceive(f, root, hook.onOk, true, Accepted);
      HonestCannotDeceive(f, root, hook.onError, false, Lost);
      forall land: Landing ensures CanFollow(c, 0, 0, hook, last, before, true, land)
        <==> CanFollow(c, 0, 0, hook.onOk, true, Accepted, true, land)
             || CanFollow(c, 0, 0, hook.onError, false, Lost, true, land)
      {
        assert CanEnd(c, 0, 1, true, Accepted) && CanEnd(c, 0, 1, false, Lost);
        assert Branch(hook, true) == hook.onOk && Later(before, Accepted) == Accepted;
        assert Branch(hook, false) == hook.onError && Later(before, Lost) == Lost;
      }
    }
  }

  /** Success only with accepted rows, every mutation done and every node carrying its row's identifier. */
  ghost predicate SavedWithNodes(p: Plan)
    requires p.Valid()
  {
    Saved(p) && (Run(p).0.Ok? ==> forall j :: 0 <= j < |p.fields| ==> DoneAt(p, j, Run(p).1))
  }

  lemma {:induction false} HonestSaves(p: Plan)
    requires p.Valid() && p.fields != [] && HonestFrom(p, 0)
    ensures SavedWithNodes(p)
  {
    hide Run, HonestFrom, DoneAt;
    if Run(p).0.Ok? {
      forall j | 0 <= j < |p.fields| ensures DoneAt(p, j, Run(p).1) {
        SuccessIsSaved(p, j);
      }
      SuccessIsSaved(p, 0);
    }
  }

  /**
   * A hook is honest if and only if, around one builder that passes its check, success means saved
   * for every database, whether or not the node's identifier counts as part of being saved.
   */
  lemma {:induction false} HonestExactly(f: Fields, hook: Hook)
    requires Check(f).None?
    ensures Honest(hook, false, false) <==> forall answers :: Saved(Plan([f], [[hook]], answers))
    ensures Honest(hook, false, false) <==> forall answers :: SavedWithNodes(Plan([f], [[hook]], answers))
  {
    hide Check, CanEnd, Saved, DoneAt, Run;
    var p := Plan([f], [[hook]], _ => Refused);
    SavedExactly(p);
    HonestCannotDeceive(f, hook, hook, true, Nothing);
    forall land: Landing
      ensures CanEnd(Alone(f, hook), 0, 0, true, land)
           == CanFollow(Alone(f, hook), 0, 0, hook, true, Nothing, true, land)
    {
      OneHookEnds(f, hook, land);
    }
    forall answers ensures Against(p, answers) == Plan([f], [[hook]], answers) {
    }
    if Honest(hook, false, false) {
      forall answers ensures SavedWithNodes(Plan([f], [[hook]], answers)) {
        HonestSaves(Plan([f], [[hook]], answers));
      }
    }
  }

  lemma {:induction false} OneHookEnds(f: Fields, hook: Hook, land: Landing)
    ensures CanEnd(Alone(f, hook), 0, 0, true, land)
           == CanFollow(Alone(f, hook), 0, 0, hook, true, Nothing, true, land)
  {
    hide CanFollow;
  }
}
