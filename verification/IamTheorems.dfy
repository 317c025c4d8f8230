/** The guarantees of the reconciliation protocol, over all runs. */
module IamTheorems {
  import opened Options
  import opened Text
  import opened Groups
  import opened ServiceAccounts
  import opened Validator
  import opened IamPolicy
  import opened IamMachine
  import opened IamHeld
  import opened IamSafety

  /** Finalizer safety: however reconciles, users and other policy writers interleave, if the events
      of a ServiceAccount itself are steady, a binding titled for it is found only in the policy of
      the group it asks for, and only while it exists and carries the finalizer. */
  lemma FinalizerSafety(p: Params, s: State, run: seq<Event>, nn: NamespacedName, ref: string)
    requires Init(s) && Untitled(s, nn) && Legal(p, s, run) && IsName(nn) && Steady(p, s, run, nn)
    requires HasTitle(BindingsAt(Run(p, s, run), ref), Title(nn))
    ensures Current(Run(p, s, run), nn).Some?
    ensures FINALIZER in Current(Run(p, s, run), nn).value.finalizers
    ensures GroupOf(Current(Run(p, s, run), nn).value).Some?
    ensures ref == GcpSaRef(p.groupSaProject, GroupOf(Current(Run(p, s, run), nn).value).value)
  {
    InitHeld(p, s);
    InitOk(p, s, nn);
    RunOk(p, s, run, nn);
  }

  // ----- Expiry -----

  /** A stored version of a name asked for this binding: it was armed, the policy is that of its
      group, and if that group needs a reason the binding ends within the time allowed. */
  ghost predicate AskedFor(p: Params, h: History, i: nat, ref: string, b: Binding) {
    && i < |h| && h[i].Some?
    && var sa := h[i].value;
    && Armed(sa) && ref == RefOf(p, sa) && Bounded(p, sa, b)
  }

  /** Every binding titled for the name was asked for. */
  ghost predicate AllAskedFor(p: Params, s: State, nn: NamespacedName) {
    forall ref, b | b in BindingsAt(s, ref) && b.title == Title(nn) ::
      exists i: nat :: AskedFor(p, At(s, nn).history, i, ref, b)
  }

  /** Bindings that were there before are still asked for. */
  lemma AskedForKept(p: Params, s: State, s': State, nn: NamespacedName)
    requires AllAskedFor(p, s, nn) && At(s, nn).history <= At(s', nn).history && NoneNew(s, s', nn)
    ensures AllAskedFor(p, s', nn)
  {
    var h, h' := At(s, nn).history, At(s', nn).history;
    forall ref, b: Binding | b in BindingsAt(s', ref) && b.title == Title(nn)
      ensures exists i: nat :: AskedFor(p, h', i, ref, b)
    {
      assert ref in s'.policies && b in s'.policies[ref].bindings;
      assert b in BindingsAt(s, ref);
      var i: nat :| AskedFor(p, h, i, ref, b);
      assert AskedFor(p, h', i, ref, b);
    }
  }

  /** What a removal leaves was asked for before... */
  lemma LeftIsAskedFor(p: Params, s: State, nn: NamespacedName)
    requires HeldOk(p, s, nn) && AllAskedFor(p, s, nn) && At(s, nn).pc.WriteRemoval?
    ensures AllAskedFor(p, ApplyCall(p, s, nn), nn)
  {
    var s', h := ApplyCall(p, s, nn), At(s, nn).history;
    assert At(s', nn).history == h;
    forall ref, b | b in BindingsAt(s', ref) && b.title == Title(nn)
      ensures exists i: nat :: AskedFor(p, h, i, ref, b)
    {
      LeftWasThere(p, s, nn, ref, b);
      assert b in BindingsAt(s, ref);
    }
  }

  /** ...and a binding that a reconcile writes is asked for by the version it holds. */
  lemma WrittenIsAskedFor(p: Params, s: State, nn: NamespacedName)
    requires HeldOk(p, s, nn) && AllAskedFor(p, s, nn) && At(s, nn).pc.WriteBinding?
    ensures AllAskedFor(p, ApplyCall(p, s, nn), nn)
  {
    var s', h := ApplyCall(p, s, nn), At(s, nn).history;
    forall ref, b | b in BindingsAt(s', ref) && b.title == Title(nn)
      ensures exists i: nat :: AskedFor(p, h, i, ref, b)
    {
      WrittenOrThere(p, s, nn, ref, b);
      if b !in BindingsAt(s, ref) {
        HeldAsksFor(p, s, nn);
      }
    }
    assert forall ref, b | b in BindingsAt(s', ref) && b.title == Title(nn) :: At(s', nn).history == h;
  }

  lemma HeldAsksFor(p: Params, s: State, nn: NamespacedName)
    requires HeldOk(p, s, nn) && At(s, nn).pc.WriteBinding?
    ensures var sa := At(s, nn).pc.sa;
            AskedFor(p, At(s, nn).history, At(s, nn).pc.version, RefOf(p, sa),
                     Wanted(p, nn, ExpressionFor(p.settings, sa).value))
  {
    WantedBounded(p, nn, At(s, nn).pc.sa);
  }

  lemma AskedForStep(p: Params, s: State, e: Event, nn: NamespacedName)
    requires AllHeldOk(p, s) && AllAskedFor(p, s, nn) && IsName(nn) && Enabled(p, s, e) && AddsNone(s, e, nn)
    ensures AllAskedFor(p, Apply(p, s, e), nn)
  {
    var s' := Apply(p, s, e);
    assert HeldOk(p, s, nn);
    if e.CreatePolicy? || e.EditPolicy? || e.DeletePolicy? || e.nn != nn {
      OtherAccountStep(p, s, e, nn);
      OthersAddNone(p, s, e, nn);
      AskedForKept(p, s, s', nn);
    } else if e.Call? && At(s, nn).pc.WriteRemoval? {
      LeftIsAskedFor(p, s, nn);
    } else if e.Call? && At(s, nn).pc.WriteBinding? {
      WrittenIsAskedFor(p, s, nn);
    } else {
      OwnEventGrows(p, s, e);
      AskedForKept(p, s, s', nn);
    }
  }

  /** Any other event of a name only adds versions to its history. */
  lemma OwnEventGrows(p: Params, s: State, e: Event)
    requires Enabled(p, s, e) && !e.CreatePolicy? && !e.EditPolicy? && !e.DeletePolicy?
    requires e.Call? ==> !At(s, e.nn).pc.WriteRemoval? && !At(s, e.nn).pc.WriteBinding?
    ensures Apply(p, s, e).policies == s.policies && At(s, e.nn).history <= At(Apply(p, s, e), e.nn).history
  {
  }

  lemma {:induction false} AskedForRun(p: Params, s: State, run: seq<Event>, nn: NamespacedName)
    requires AllHeldOk(p, s) && AllAskedFor(p, s, nn) && IsName(nn) && Legal(p, s, run) && NoneAdded(p, s, run, nn)
    ensures AllAskedFor(p, Run(p, s, run), nn)
    decreases |run|
  {
    if run != [] {
      AskedForStep(p, s, run[0], nn);
      HeldStep(p, s, run[0]);
      AskedForRun(p, Apply(p, s, run[0]), run[1..], nn);
    }
  }

  /** Expiry bound, over every run, with moved groups and stale reads: every binding titled for a
      ServiceAccount was asked for by a stored, armed version of it for that group; and if the group
      is reason-required, the binding is limited to an instant no later than the creation plus the
      group's maximum. */
  lemma ExpiryBound(p: Params, s: State, run: seq<Event>, nn: NamespacedName, ref: string, b: Binding)
    returns (i: nat, sa: ServiceAccount)
    requires EmptyIsNoDuration(p) && Init(s) && Untitled(s, nn)
    requires Legal(p, s, run) && IsName(nn) && NoneAdded(p, s, run, nn)
    requires b in BindingsAt(Run(p, s, run), ref) && b.title == Title(nn)
    ensures var h := At(Run(p, s, run), nn).history; i < |h| && h[i] == Some(sa)
    ensures Armed(sa) && ref == RefOf(p, sa)
    ensures var config := GetConfig(p.settings.configs, GroupOf(sa).value);
            config.Some? && config.value.reasonRequired ==>
              && b.expression.Until?
              && b.expression.second * SECOND <= sa.created * SECOND + config.value.maxDuration
  {
    InitHeld(p, s);
    assert forall ref :: !HasTitle(BindingsAt(s, ref), Title(nn));
    AskedForRun(p, s, run, nn);
    i :| AskedFor(p, At(Run(p, s, run), nn).history, i, ref, b);
    sa := At(Run(p, s, run), nn).history[i].value;
  }

  /** While the events of the ServiceAccount are steady, that is a bound for the object that exists
      now and the group it asks for. */
  lemma CurrentExpiryBound(p: Params, s: State, run: seq<Event>, nn: NamespacedName, ref: string, b: Binding)
    requires EmptyIsNoDuration(p) && Init(s) && Untitled(s, nn)
    requires Legal(p, s, run) && IsName(nn) && Steady(p, s, run, nn)
    requires b in BindingsAt(Run(p, s, run), ref) && b.title == Title(nn)
    ensures Current(Run(p, s, run), nn).Some?
    ensures var sa := Current(Run(p, s, run), nn).value;
            && GroupOf(sa).Some?
            && var config := GetConfig(p.settings.configs, GroupOf(sa).value);
            config.Some? && config.value.reasonRequired ==>
              && b.expression.Until?
              && b.expression.second * SECOND <= sa.created * SECOND + config.value.maxDuration
  {
    InitHeld(p, s);
    InitOk(p, s, nn);
    RunOk(p, s, run, nn);
  }

  // ----- No lost updates -----

  /** The state before an event of a run. */
  function Before(p: Params, s: State, run: seq<Event>, k: nat): State
    requires Legal(p, s, run) && k <= |run|
  {
    RunPrefix(p, s, run, k);
    Run(p, s, run[..k])
  }

  /** No lost updates: a call of the reconciler of `nn` changes at most the policy of the group in
      the version it holds, by its own edit applied to the bindings committed just before. So
      bindings with other titles, and those of every other ServiceAccount, stay as they are and in
      order; and no reconciler makes or removes a policy. This needs nothing of groups or caches. */
  lemma NoLostUpdates(p: Params, s: State, run: seq<Event>, k: nat, nn: NamespacedName)
    requires Init(s) && Legal(p, s, run)
    requires k < |run| && run[k] == Call(nn)
    ensures var before, after := Before(p, s, run, k), Before(p, s, run, k + 1);
            && after.policies.Keys == before.policies.Keys
            && forall ref | ref in before.policies && after.policies[ref] != before.policies[ref] ::
                 && !At(before, nn).pc.Idle?
                 && ref == RefOf(p, At(before, nn).pc.sa)
                 && OwnEdit(p, nn, At(before, nn).pc.sa, before.policies[ref].bindings, after.policies[ref].bindings)
                 && Others(after.policies[ref].bindings, Title(nn)) == Others(before.policies[ref].bindings, Title(nn))
                 && forall other | IsName(other) && other != nn ::
                      Titled(after.policies[ref].bindings, Title(other))
                          == Titled(before.policies[ref].bindings, Title(other))
  {
    RunPrefix(p, s, run, k);
    InitHeld(p, s);
    HeldRun(p, s, run[..k]);
    var before, after := Run(p, s, run[..k]), Run(p, s, run[..k + 1]);
    assert HeldOk(p, before, nn);
    forall ref | ref in before.policies && after.policies[ref] != before.policies[ref]
      ensures Others(after.policies[ref].bindings, Title(nn)) == Others(before.policies[ref].bindings, Title(nn))
      ensures forall other | IsName(other) && other != nn ::
                Titled(after.policies[ref].bindings, Title(other))
                    == Titled(before.policies[ref].bindings, Title(other))
    {
      CallEditsOwn(p, before, nn);
      OwnEditKeepsOthers(p, nn, At(before, nn).pc.sa, before.policies[ref].bindings, after.policies[ref].bindings);
    }
    CallEditsOwn(p, before, nn);
  }

  /** A ServiceAccount that one reconcile can bind, with an existing policy. */
  ghost predicate Bindable(p: Params, s: State, sa: ServiceAccount) {
    && IsName(sa.id) && Armed(sa) && Admissible(p, sa) && sa.finalizers == {FINALIZER}
    && Lookup(sa.annotations, WORKLOAD_IDENTITY) == EmailOf(p, sa)
    && ExpressionFor(p.settings, sa).Some?
    && RefOf(p, sa) in s.policies
  }

  /** Creating a ServiceAccount takes one event. */
  lemma CreateRun(p: Params, s: State, sa: ServiceAccount) returns (t: State)
    requires Init(s) && IsName(sa.id) && !sa.deleting && Admissible(p, sa)
    ensures Legal(p, s, [Create(sa.id, sa)]) && t == Run(p, s, [Create(sa.id, sa)])
    ensures At(t, sa.id) == Account([None, Some(sa)], 0, Idle)
    ensures t.policies == s.policies
  {
    RunSnoc(p, s, [], Create(sa.id, sa));
    t := Apply(p, s, Create(sa.id, sa));
    assert [] + [Create(sa.id, sa)] == [Create(sa.id, sa)];
  }

  /** A reconcile that reads a bindable version writes its binding, whatever is stored by now. */
  lemma BindRun(p: Params, s: State, version: nat, sa: ServiceAccount) returns (t: State)
    requires Bindable(p, s, sa) && !HasTitle(BindingsAt(s, RefOf(p, sa)), Title(sa.id))
    requires Enabled(p, s, Read(sa.id, version)) && At(s, sa.id).history[version] == Some(sa)
    ensures var run := [Read(sa.id, version), Call(sa.id), Call(sa.id)]; Legal(p, s, run) && t == Run(p, s, run)
    ensures At(t, sa.id) == At(s, sa.id).(floor := version)
    ensures HasTitle(BindingsAt(t, RefOf(p, sa)), Title(sa.id))
    ensures forall ref | ref != RefOf(p, sa) :: BindingsAt(t, ref) == BindingsAt(s, ref)
  {
    var nn := sa.id;
    var s1 := Apply(p, s, Read(nn, version));
    assert At(s1, nn).pc == FetchToBind(version, sa);
    var s2 := Apply(p, s1, Call(nn));
    assert At(s2, nn).pc == WriteBinding(version, sa, s.policies[RefOf(p, sa)]);
    t := Apply(p, s2, Call(nn));
    BoundAfterWrite(p, s2, version, sa);
    ThreeEvents(p, s, Read(nn, version), Call(nn), Call(nn));
  }

  lemma BoundAfterWrite(p: Params, s: State, version: nat, sa: ServiceAccount)
    requires RefOf(p, sa) in s.policies && ExpressionFor(p.settings, sa).Some?
    requires Lookup(sa.annotations, WORKLOAD_IDENTITY) == EmailOf(p, sa)
    requires At(s, sa.id).pc == WriteBinding(version, sa, s.policies[RefOf(p, sa)])
    ensures var t := ApplyCall(p, s, sa.id);
            && At(t, sa.id) == At(s, sa.id).(pc := Idle)
            && HasTitle(BindingsAt(t, RefOf(p, sa)), Title(sa.id))
            && forall ref | ref != RefOf(p, sa) :: BindingsAt(t, ref) == BindingsAt(s, ref)
  {
    var wanted := Wanted(p, sa.id, ExpressionFor(p.settings, sa).value);
    EnsureEstablishes(s.policies[RefOf(p, sa)].bindings, wanted);
    OthersUnchangedIff(Ensure(s.policies[RefOf(p, sa)].bindings, wanted), wanted.title);
  }

  /** A reconcile of a deleting version that is current and has no binding ends the object. */
  lemma RemoveRun(p: Params, s: State, sa: ServiceAccount) returns (t: State)
    requires GroupOf(sa).Some? && sa.deleting && sa.finalizers == {FINALIZER} && Current(s, sa.id) == Some(sa)
    requires Enabled(p, s, Read(sa.id, |At(s, sa.id).history| - 1))
    requires !HasTitle(BindingsAt(s, RefOf(p, sa)), Title(sa.id))
    ensures var run := [Read(sa.id, |At(s, sa.id).history| - 1), Call(sa.id), Call(sa.id)];
            Legal(p, s, run) && t == Run(p, s, run)
    ensures At(t, sa.id).history == At(s, sa.id).history + [None] && At(t, sa.id).pc == Idle
    ensures t.policies == s.policies
  {
    var nn, version := sa.id, |At(s, sa.id).history| - 1;
    var s1 := Apply(p, s, Read(nn, version));
    assert At(s1, nn).pc == FetchToRemove(version, sa);
    var s2 := Apply(p, s1, Call(nn));
    assert At(s2, nn).pc == DropFinalizer(version, sa);
    t := Apply(p, s2, Call(nn));
    assert WithoutFinalizer(sa).finalizers == {};
    ThreeEvents(p, s, Read(nn, version), Call(nn), Call(nn));
  }

  lemma ThreeEvents(p: Params, s: State, a: Event, b: Event, c: Event)
    requires Enabled(p, s, a) && Enabled(p, Apply(p, s, a), b) && Enabled(p, Apply(p, Apply(p, s, a), b), c)
    ensures Legal(p, s, [a, b, c])
    ensures Run(p, s, [a, b, c]) == Apply(p, Apply(p, Apply(p, s, a), b), c)
  {
    RunSnoc(p, s, [], a);
    RunSnoc(p, s, [] + [a], b);
    RunSnoc(p, s, [] + [a] + [b], c);
    assert [] + [a] + [b] + [c] == [a, b, c];
  }

  /** With a cache that goes back safety fails: a reconcile that reads a version from before the
      deletion binds a ServiceAccount that is gone. */
  lemma StaleReadLeaksBinding(p: Params, s: State, sa: ServiceAccount) returns (run: seq<Event>)
    requires Init(s) && Untitled(s, sa.id) && Bindable(p, s, sa)
    ensures Legal(p, s, run)
    ensures Current(Run(p, s, run), sa.id) == None
    ensures HasTitle(BindingsAt(Run(p, s, run), RefOf(p, sa)), Title(sa.id))
  {
    var nn, gone := sa.id, sa.(deleting := true);
    var s1 := CreateRun(p, s, sa);
    assert forall ref :: BindingsAt(s1, ref) == BindingsAt(s, ref);
    run := [Create(nn, sa)];
    RunSnoc(p, s, run, Delete(nn));
    var s2 := Apply(p, s1, Delete(nn));
    run := run + [Delete(nn)];
    assert At(s2, nn) == Account([None, Some(sa), Some(gone)], 0, Idle);
    assert BindingsAt(s2, RefOf(p, gone)) == BindingsAt(s, RefOf(p, sa));
    var s3 := RemoveRun(p, s2, gone);
    RunConcat(p, s, run, [Read(nn, 2), Call(nn), Call(nn)]);
    run := run + [Read(nn, 2), Call(nn), Call(nn)];
    var s4 := BindRun(p, s3, 1, sa);
    RunConcat(p, s, run, [Read(nn, 1), Call(nn), Call(nn)]);
    run := run + [Read(nn, 1), Call(nn), Call(nn)];
  }

  /** With a group that changes safety fails: a ServiceAccount that is bound for one group, then moved
      to another and deleted, leaves the first group's binding behind. */
  lemma RegroupingLeaksBinding(p: Params, s: State, sa: ServiceAccount, moved: ServiceAccount) returns (run: seq<Event>)
    requires Init(s) && Untitled(s, sa.id) && Bindable(p, s, sa)
    requires EditAllowed(p, sa, moved) && GroupOf(moved).Some? && GroupOf(moved) != GroupOf(sa)
    requires moved.finalizers == {FINALIZER}
    ensures Legal(p, s, run)
    ensures Current(Run(p, s, run), sa.id) == None
    ensures HasTitle(BindingsAt(Run(p, s, run), RefOf(p, sa)), Title(sa.id))
  {
    var nn := sa.id;
    if RefOf(p, moved) == RefOf(p, sa) {
      GcpSaRefInjective(p.groupSaProject, GroupOf(moved).value, GroupOf(sa).value);
    }
    var s1 := CreateRun(p, s, sa);
    assert forall ref :: BindingsAt(s1, ref) == BindingsAt(s, ref);
    run := [Create(nn, sa)];
    var s2 := BindRun(p, s1, 1, sa);
    RunConcat(p, s, run, [Read(nn, 1), Call(nn), Call(nn)]);
    run := run + [Read(nn, 1), Call(nn), Call(nn)];
    var rest, s3 := MoveAndDeleteRun(p, s2, sa, moved);
    RunConcat(p, s, run, rest);
    run := run + rest;
  }

  /** Moving a stored ServiceAccount to a group where it has no binding, and deleting it, removes it
      and touches no policy. */
  lemma MoveAndDeleteRun(p: Params, s: State, sa: ServiceAccount, moved: ServiceAccount)
    returns (run: seq<Event>, t: State)
    requires IsName(sa.id) && At(s, sa.id) == Account([None, Some(sa)], 1, Idle)
    requires !sa.deleting && EditAllowed(p, sa, moved) && GroupOf(moved).Some? && moved.finalizers == {FINALIZER}
    requires !HasTitle(BindingsAt(s, RefOf(p, moved)), Title(sa.id))
    ensures Legal(p, s, run) && t == Run(p, s, run)
    ensures Current(t, sa.id) == None && t.policies == s.policies
  {
    var nn, gone := sa.id, moved.(deleting := true);
    RunSnoc(p, s, [], Edit(nn, moved));
    run := [] + [Edit(nn, moved)];
    var s1 := Apply(p, s, Edit(nn, moved));
    assert At(s1, nn) == Account([None, Some(sa), Some(moved)], 1, Idle);
    RunSnoc(p, s, run, Delete(nn));
    run := run + [Delete(nn)];
    var s2 := Apply(p, s1, Delete(nn));
    assert At(s2, nn) == Account([None, Some(sa), Some(moved), Some(gone)], 1, Idle);
    assert RefOf(p, gone) == RefOf(p, moved);
    t := RemoveRun(p, s2, gone);
    RunConcat(p, s, run, [Read(nn, 3), Call(nn), Call(nn)]);
    run := run + [Read(nn, 3), Call(nn), Call(nn)];
  }

  /** With a finalizer that somebody else takes away safety fails: a bound ServiceAccount is gone as
      soon as it is deleted. */
  lemma LostFinalizerLeaksBinding(p: Params, s: State, sa: ServiceAccount) returns (run: seq<Event>)
    requires Init(s) && Untitled(s, sa.id) && Bindable(p, s, sa)
    ensures Legal(p, s, run)
    ensures Current(Run(p, s, run), sa.id) == None
    ensures HasTitle(BindingsAt(Run(p, s, run), RefOf(p, sa)), Title(sa.id))
  {
    var nn, bare := sa.id, sa.(finalizers := {});
    var s1 := CreateRun(p, s, sa);
    assert forall ref :: BindingsAt(s1, ref) == BindingsAt(s, ref);
    run := [Create(nn, sa)];
    var s2 := BindRun(p, s1, 1, sa);
    RunConcat(p, s, run, [Read(nn, 1), Call(nn), Call(nn)]);
    run := run + [Read(nn, 1), Call(nn), Call(nn)];
    RunSnoc(p, s, run, Edit(nn, bare));
    run := run + [Edit(nn, bare)];
    var s3 := Apply(p, s2, Edit(nn, bare));
    RunSnoc(p, s, run, Delete(nn));
    run := run + [Delete(nn)];
  }
}
