/** What every run of the reconciliation protocol keeps for a ServiceAccount whose own events are
    steady, whatever happens to all the others. */
module IamSafety {
  import opened Options
  import opened ServiceAccounts
  import opened IamPolicy
  import opened IamMachine
  import opened IamHeld

  /** No other writer of policies adds a binding titled for the name. */
  predicate AddsNone(s: State, e: Event, nn: NamespacedName) {
    e.CreatePolicy? || e.EditPolicy? ==>
      forall b | b in e.bindings && b.title == Title(nn) :: b in BindingsAt(s, e.ref)
  }

  predicate NoneAdded(p: Params, s: State, run: seq<Event>, nn: NamespacedName)
    requires Legal(p, s, run)
    decreases |run|
  {
    run == [] || (AddsNone(s, run[0], nn) && NoneAdded(p, Apply(p, s, run[0]), run[1..], nn))
  }

  /** No policy holds a binding titled for the name. */
  ghost predicate Untitled(s: State, nn: NamespacedName) {
    forall ref :: !HasTitle(BindingsAt(s, ref), Title(nn))
  }

  /** An event that does not break the rules safety needs for a name: no edit of it changes its group
      once it has one, or takes the operator's finalizer away, its reconciler reads no version older
      than the one it has read last, and nobody else adds a binding titled for it. Events of other
      names may be any. */
  predicate SteadyEvent(s: State, e: Event, nn: NamespacedName) {
    AddsNone(s, e, nn) &&
    match e
    case Read(other, version) => other == nn ==> At(s, nn).floor <= version
    case Edit(other, sa) =>
      other == nn && Current(s, nn).Some? ==>
        var before := Current(s, nn).value;
        && (GroupOf(before).Some? ==> GroupOf(sa) == GroupOf(before))
        && (FINALIZER in before.finalizers ==> FINALIZER in sa.finalizers)
    case _ => true
  }

  predicate Steady(p: Params, s: State, run: seq<Event>, nn: NamespacedName)
    requires Legal(p, s, run)
    decreases |run|
  {
    run == [] || (SteadyEvent(s, run[0], nn) && Steady(p, Apply(p, s, run[0]), run[1..], nn))
  }

  /** The object of `sa` still exists, still carries the finalizer and still asks for the group. */
  predicate StillHeld(sa: ServiceAccount, later: Option<ServiceAccount>) {
    && later.Some?
    && FINALIZER in later.value.finalizers
    && GroupOf(later.value) == GroupOf(sa)
    && later.value.created == sa.created
  }

  /** Every armed version that may still be read is of the object that exists now. */
  ghost predicate ReadableArmedHeld(a: Account) {
    forall i | a.floor <= i < |a.history| :: a.history[i].Some? && Armed(a.history[i].value) ==>
      StillHeld(a.history[i].value, Last(a.history))
  }

  /** The version a reconcile holds may still be read; when it is about to remove, nothing older may
      be, and when it is about to drop the finalizer, the binding is gone. */
  ghost predicate PcOk(p: Params, s: State, nn: NamespacedName) {
    var a := At(s, nn);
    match a.pc
    case Idle => true
    case AddFinalizer(version, _) => a.floor <= version
    case FetchToRemove(version, _) => a.floor == version
    case WriteRemoval(version, _, _) => a.floor == version
    case DropFinalizer(version, sa) => a.floor == version && !HasTitle(BindingsAt(s, RefOf(p, sa)), Title(nn))
    case FetchToBind(version, _) => a.floor <= version
    case WriteBinding(version, _, _) => a.floor <= version
    case Annotate(version, _) => a.floor <= version
  }

  ghost predicate AccountOk(p: Params, s: State, nn: NamespacedName) {
    At(s, nn).floor < |At(s, nn).history| && ReadableArmedHeld(At(s, nn)) && PcOk(p, s, nn)
  }

  /** The object exists with the finalizer, asks for the group of this policy, and the binding is
      within the time allowed. */
  ghost predicate HeldBinding(p: Params, s: State, nn: NamespacedName, ref: string, b: Binding) {
    && Current(s, nn).Some?
    && FINALIZER in Current(s, nn).value.finalizers
    && GroupOf(Current(s, nn).value).Some?
    && ref == RefOf(p, Current(s, nn).value)
    && Bounded(p, Current(s, nn).value, b)
  }

  /** Finalizer safety: that holds of every binding titled for the name. */
  ghost predicate BindingsHeld(p: Params, s: State, nn: NamespacedName) {
    forall ref, b | ref in s.policies && b in s.policies[ref].bindings && b.title == Title(nn) ::
      HeldBinding(p, s, nn, ref, b)
  }

  ghost predicate NameOk(p: Params, s: State, nn: NamespacedName) {
    AccountOk(p, s, nn) && BindingsHeld(p, s, nn)
  }

  lemma InitOk(p: Params, s: State, nn: NamespacedName)
    requires Init(s) && Untitled(s, nn)
    ensures NameOk(p, s, nn)
  {
    assert forall ref | ref in s.policies :: !HasTitle(BindingsAt(s, ref), Title(nn));
  }

  /** Every binding titled for the name was there before. */
  ghost predicate NoneNew(s: State, s': State, nn: NamespacedName) {
    forall ref, b | ref in s'.policies && b in s'.policies[ref].bindings && b.title == Title(nn) ::
      ref in s.policies && b in s.policies[ref].bindings
  }

  /** A name whose account is untouched, and that gets no binding, stays in order. */
  lemma NameUntouched(p: Params, s: State, s': State, nn: NamespacedName)
    requires NameOk(p, s, nn) && At(s', nn) == At(s, nn) && NoneNew(s, s', nn)
    ensures NameOk(p, s', nn)
  {
  }

  /** The new version continues the old one: it keeps the finalizer, and with it the group. */
  predicate Continues(before: ServiceAccount, after: Option<ServiceAccount>) {
    FINALIZER in before.finalizers ==>
      && after.Some?
      && FINALIZER in after.value.finalizers
      && after.value.created == before.created
      && (GroupOf(before).Some? ==> GroupOf(after.value) == GroupOf(before))
  }

  /** Storing a new version keeps the history in order if it continues the current one, or if no
      armed version is readable any more. */
  lemma AppendOk(a: Account, sa: ServiceAccount)
    requires a.floor < |a.history| && ReadableArmedHeld(a)
    requires || (Last(a.history).Some? ==> Continues(Last(a.history).value, Stored(sa)))
             || (a.floor == |a.history| - 1 && Last(a.history).Some? && Last(a.history).value.deleting)
    ensures ReadableArmedHeld(Append(a, sa))
  {
    var b := Append(a, sa);
    forall i | b.floor <= i < |b.history| && b.history[i].Some? && Armed(b.history[i].value)
      ensures StillHeld(b.history[i].value, Last(b.history))
    {
      if i < |a.history| { assert b.history[i] == a.history[i]; }
    }
  }

  /** A name whose account gets a new version by someone else stays in order. */
  lemma AppendedNameOk(p: Params, s: State, nn: NamespacedName, sa: ServiceAccount)
    requires HeldOk(p, s, nn) && NameOk(p, s, nn)
    requires Current(s, nn).Some? ==> Continues(Current(s, nn).value, Stored(sa))
    ensures NameOk(p, Put(s, nn, Append(At(s, nn), sa)), nn)
  {
    AppendOk(At(s, nn), sa);
  }

  lemma ReadOk(p: Params, s: State, e: Event)
    requires e.Read? && NameOk(p, s, e.nn) && Enabled(p, s, e) && SteadyEvent(s, e, e.nn)
    ensures NameOk(p, Apply(p, s, e), e.nn)
  {
  }

  /** Giving up changes nothing that is stored. */
  lemma IdleOk(p: Params, s: State, nn: NamespacedName)
    requires NameOk(p, s, nn)
    ensures NameOk(p, Put(s, nn, At(s, nn).(pc := Idle)), nn)
  {
  }

  lemma FinalizerCallOk(p: Params, s: State, nn: NamespacedName)
    requires HeldOk(p, s, nn) && NameOk(p, s, nn) && At(s, nn).pc.AddFinalizer?
    ensures NameOk(p, ApplyCall(p, s, nn), nn)
  {
    var AddFinalizer(version, sa) := At(s, nn).pc;
    if IsCurrent(At(s, nn), version) {
      AppendOk(At(s, nn), WithFinalizer(sa));
    } else {
      IdleOk(p, s, nn);
    }
  }

  lemma DropFinalizerCallOk(p: Params, s: State, nn: NamespacedName)
    requires HeldOk(p, s, nn) && NameOk(p, s, nn) && At(s, nn).pc.DropFinalizer?
    ensures NameOk(p, ApplyCall(p, s, nn), nn)
  {
    var DropFinalizer(version, sa) := At(s, nn).pc;
    if IsCurrent(At(s, nn), version) {
      AppendOk(At(s, nn), WithoutFinalizer(sa));
    } else {
      IdleOk(p, s, nn);
    }
  }

  lemma AnnotateCallOk(p: Params, s: State, nn: NamespacedName)
    requires HeldOk(p, s, nn) && NameOk(p, s, nn) && At(s, nn).pc.Annotate?
    ensures NameOk(p, ApplyCall(p, s, nn), nn)
  {
    var Annotate(version, sa) := At(s, nn).pc;
    if IsCurrent(At(s, nn), version) {
      KeysDiffer();
      AppendOk(At(s, nn), WithWorkloadIdentity(p, sa));
    } else {
      IdleOk(p, s, nn);
    }
  }

  /** The calls that fetch a policy. */
  lemma FetchCallOk(p: Params, s: State, nn: NamespacedName)
    requires NameOk(p, s, nn)
    requires At(s, nn).pc.FetchToRemove? || At(s, nn).pc.FetchToBind?
    ensures NameOk(p, ApplyCall(p, s, nn), nn)
  {
  }

  /** The calls that write a policy leave the account in order... */
  lemma WriteCallAccountOk(p: Params, s: State, nn: NamespacedName)
    requires AccountOk(p, s, nn) && (At(s, nn).pc.WriteRemoval? || At(s, nn).pc.WriteBinding?)
    ensures AccountOk(p, ApplyCall(p, s, nn), nn)
    ensures At(ApplyCall(p, s, nn), nn).history == At(s, nn).history
  {
    if At(s, nn).pc.WriteRemoval? {
      OthersHasNoTitle(At(s, nn).pc.fetched.bindings, Title(nn));
    }
  }

  /** ...and the bindings: what a removal leaves was there before... */
  lemma RemovalHeld(p: Params, s: State, nn: NamespacedName)
    requires HeldOk(p, s, nn) && NameOk(p, s, nn) && At(s, nn).pc.WriteRemoval?
    ensures BindingsHeld(p, ApplyCall(p, s, nn), nn)
  {
    var s' := ApplyCall(p, s, nn);
    assert At(s', nn).history == At(s, nn).history;
    forall ref, b | ref in s'.policies && b in s'.policies[ref].bindings
      ensures ref in s.policies && b in s.policies[ref].bindings
    {
      LeftWasThere(p, s, nn, ref, b);
    }
  }

  lemma LeftWasThere(p: Params, s: State, nn: NamespacedName, ref: string, b: Binding)
    requires HeldOk(p, s, nn) && At(s, nn).pc.WriteRemoval?
    requires var s' := ApplyCall(p, s, nn); ref in s'.policies && b in s'.policies[ref].bindings
    ensures ref in s.policies && b in s.policies[ref].bindings
  {
    OthersHasNoTitle(At(s, nn).pc.fetched.bindings, Title(nn));
  }

  /** ...and when one is written, the object of the version that was read is still there. */
  lemma WrittenHeld(p: Params, s: State, nn: NamespacedName)
    requires HeldOk(p, s, nn) && NameOk(p, s, nn) && At(s, nn).pc.WriteBinding?
    ensures BindingsHeld(p, ApplyCall(p, s, nn), nn)
  {
    var s' := ApplyCall(p, s, nn);
    forall ref, b | ref in s'.policies && b in s'.policies[ref].bindings && b.title == Title(nn)
      ensures HeldBinding(p, s', nn, ref, b)
    {
      WrittenOrThere(p, s, nn, ref, b);
      if b == Wanted(p, nn, ExpressionFor(p.settings, At(s, nn).pc.sa).value) && ref == RefOf(p, At(s, nn).pc.sa) {
        NewBindingHeld(p, s, nn);
      }
    }
  }

  lemma NewBindingHeld(p: Params, s: State, nn: NamespacedName)
    requires HeldOk(p, s, nn) && AccountOk(p, s, nn) && At(s, nn).pc.WriteBinding?
    ensures var sa := At(s, nn).pc.sa;
            HeldBinding(p, s, nn, RefOf(p, sa), Wanted(p, nn, ExpressionFor(p.settings, sa).value))
  {
    var sa := At(s, nn).pc.sa;
    assert StillHeld(sa, Current(s, nn));
    WantedBounded(p, nn, sa);
  }

  lemma WrittenOrThere(p: Params, s: State, nn: NamespacedName, ref: string, b: Binding)
    requires HeldOk(p, s, nn) && At(s, nn).pc.WriteBinding?
    requires var s' := ApplyCall(p, s, nn); ref in s'.policies && b in s'.policies[ref].bindings
    ensures At(ApplyCall(p, s, nn), nn).history == At(s, nn).history
    ensures var sa := At(s, nn).pc.sa;
            || (ref in s.policies && b in s.policies[ref].bindings)
            || (ref == RefOf(p, sa) && b == Wanted(p, nn, ExpressionFor(p.settings, sa).value))
  {
  }

  /** The reconciler's own calls keep the name in order. */
  lemma CallOk(p: Params, s: State, nn: NamespacedName)
    requires HeldOk(p, s, nn) && NameOk(p, s, nn) && !At(s, nn).pc.Idle?
    ensures NameOk(p, ApplyCall(p, s, nn), nn)
  {
    match At(s, nn).pc
    case AddFinalizer(_, _) => FinalizerCallOk(p, s, nn);
    case FetchToRemove(_, _) => FetchCallOk(p, s, nn);
    case WriteRemoval(_, _, _) => WriteCallAccountOk(p, s, nn); RemovalHeld(p, s, nn);
    case DropFinalizer(_, _) => DropFinalizerCallOk(p, s, nn);
    case FetchToBind(_, _) => FetchCallOk(p, s, nn);
    case WriteBinding(_, _, _) => WriteCallAccountOk(p, s, nn); WrittenHeld(p, s, nn);
    case Annotate(_, _) => AnnotateCallOk(p, s, nn);
  }

  /** What users do to a name keeps it in order. */
  lemma UserEventOk(p: Params, s: State, e: Event)
    requires Enabled(p, s, e) && (e.Create? || e.Edit? || e.Delete?) && SteadyEvent(s, e, e.nn)
    requires HeldOk(p, s, e.nn) && NameOk(p, s, e.nn)
    ensures NameOk(p, Apply(p, s, e), e.nn)
  {
    match e
    case Create(nn, sa) => AppendedNameOk(p, s, nn, sa);
    case Edit(nn, sa) => AppendedNameOk(p, s, nn, sa);
    case Delete(nn) =>
      if !Current(s, nn).value.deleting {
        AppendedNameOk(p, s, nn, Current(s, nn).value.(deleting := true));
      }
  }

  /** Neither other writers of policies, if they keep to that, nor the reconcilers of other names add
      a binding titled for a name. */
  lemma OthersAddNone(p: Params, s: State, e: Event, nn: NamespacedName)
    requires AllHeldOk(p, s) && Enabled(p, s, e) && IsName(nn) && AddsNone(s, e, nn)
    requires e.CreatePolicy? || e.EditPolicy? || e.DeletePolicy? || e.nn != nn
    ensures NoneNew(s, Apply(p, s, e), nn)
  {
    if e.Call? {
      OtherCallAddsNone(p, s, e.nn, nn);
    }
  }

  lemma OtherCallAddsNone(p: Params, s: State, other: NamespacedName, nn: NamespacedName)
    requires HeldOk(p, s, other) && IsName(other) && IsName(nn) && other != nn
    ensures NoneNew(s, ApplyCall(p, s, other), nn)
  {
    var s' := ApplyCall(p, s, other);
    CallEditsOwn(p, s, other);
    forall ref, b | ref in s'.policies && b in s'.policies[ref].bindings && b.title == Title(nn)
      ensures ref in s.policies && b in s.policies[ref].bindings
    {
      if s'.policies[ref] != s.policies[ref] {
        OwnEditKeepsOthers(p, other, At(s, other).pc.sa, s.policies[ref].bindings, s'.policies[ref].bindings);
        TitledMembers(s'.policies[ref].bindings, Title(nn), b);
        TitledMembers(s.policies[ref].bindings, Title(nn), b);
      }
    }
  }

  /** Every event that is steady for a name keeps it in order. */
  lemma StepOk(p: Params, s: State, e: Event, nn: NamespacedName)
    requires AllHeldOk(p, s) && NameOk(p, s, nn) && IsName(nn)
    requires Enabled(p, s, e) && SteadyEvent(s, e, nn)
    ensures NameOk(p, Apply(p, s, e), nn)
  {
    assert HeldOk(p, s, nn);
    if e.CreatePolicy? || e.EditPolicy? || e.DeletePolicy? || e.nn != nn {
      OtherAccountStep(p, s, e, nn);
      OthersAddNone(p, s, e, nn);
      NameUntouched(p, s, Apply(p, s, e), nn);
    } else if e.Call? {
      CallOk(p, s, nn);
    } else if e.Read? {
      ReadOk(p, s, e);
    } else if e.Abort? {
      IdleOk(p, s, nn);
    } else {
      UserEventOk(p, s, e);
    }
  }

  lemma {:induction false} RunOk(p: Params, s: State, run: seq<Event>, nn: NamespacedName)
    requires AllHeldOk(p, s) && NameOk(p, s, nn) && IsName(nn)
    requires Legal(p, s, run) && Steady(p, s, run, nn)
    ensures NameOk(p, Run(p, s, run), nn)
    decreases |run|
  {
    if run != [] {
      StepOk(p, s, run[0], nn);
      HeldStep(p, s, run[0]);
      RunOk(p, Apply(p, s, run[0]), run[1..], nn);
    }
  }
}
