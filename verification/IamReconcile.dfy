/** One whole reconcile, undisturbed and without failures: what it reaches, and that repeating it
    writes nothing (internal/controller/serviceaccount_controller.go). */
module IamReconcile {
  import opened Options
  import opened Text
  import opened ServiceAccounts
  import opened IamPolicy
  import opened IamMachine
  import opened IamHeld

  /** An upper bound on the calls a reconcile still makes. */
  function CallsLeft(pc: Pc): nat {
    match pc
    case Idle => 0
    case Annotate(_, _) => 1
    case DropFinalizer(_, _) => 1
    case WriteBinding(_, _, _) => 2
    case WriteRemoval(_, _, _) => 2
    case FetchToBind(_, _) => 3
    case FetchToRemove(_, _) => 3
    case AddFinalizer(_, _) => 4
  }

  /** Every call brings the reconcile closer to its end. */
  lemma CallProgress(p: Params, s: State, nn: NamespacedName)
    requires !At(s, nn).pc.Idle?
    ensures CallsLeft(At(ApplyCall(p, s, nn), nn).pc) < CallsLeft(At(s, nn).pc)
  {
  }

  /** Makes the remaining calls of the reconcile of `nn`, one after the other. */
  function Finish(p: Params, s: State, nn: NamespacedName): State
    decreases CallsLeft(At(s, nn).pc)
  {
    if At(s, nn).pc.Idle? then s
    else
      CallProgress(p, s, nn);
      Finish(p, ApplyCall(p, s, nn), nn)
  }

  /** A reconcile may start, reading the latest version. */
  predicate CanStart(s: State, nn: NamespacedName) {
    IsName(nn) && At(s, nn).pc.Idle?
  }

  function Reconcile(p: Params, s: State, nn: NamespacedName): State
    requires CanStart(s, nn)
  {
    Finish(p, Apply(p, s, Read(nn, |At(s, nn).history| - 1)), nn)
  }

  /** The same stored objects and policies; only what the cache may return can differ. */
  predicate SameStored(s: State, t: State, nn: NamespacedName) {
    && t.policies == s.policies && t.nextEtag == s.nextEtag
    && At(t, nn).history == At(s, nn).history
    && forall other | other in t.accounts.Keys + s.accounts.Keys && other != nn :: At(t, other) == At(s, other)
  }

  /** A binding with the title is there, and the first one gives the role to this ServiceAccount
      alone, for as long as its requested duration says. */
  ghost predicate Bound(p: Params, s: State, nn: NamespacedName, sa: ServiceAccount) {
    && RefOf(p, sa) in s.policies
    && var own := Titled(s.policies[RefOf(p, sa)].bindings, Title(nn));
    && own != []
    && own[0].role == WI_ROLE
    && own[0].members == [K8sSaRef(p.clusterProject, nn)]
    && Grants(p.settings, sa, own[0].expression)
  }

  /** How many bindings with the title the policy of the group has. */
  function OwnCount(p: Params, s: State, nn: NamespacedName, sa: ServiceAccount): nat {
    |Titled(BindingsAt(s, RefOf(p, sa)), Title(nn))|
  }

  /** What a reconcile works towards: the finalizer, the binding and the workload-identity annotation. */
  ghost predicate Settled(p: Params, s: State, nn: NamespacedName) {
    && Current(s, nn).Some?
    && var sa := Current(s, nn).value;
    && Armed(sa)
    && Lookup(sa.annotations, WORKLOAD_IDENTITY) == EmailOf(p, sa)
    && Bound(p, s, nn, sa)
  }

  /** `t` differs from `s` only in the object of `nn` and in the policy of its group, where all
      bindings with other titles are kept in order. */
  ghost predicate OnlyOwnChanges(s: State, t: State, nn: NamespacedName, ref: string) {
    && t.policies.Keys == s.policies.Keys
    && (forall r | r in s.policies && r != ref :: t.policies[r] == s.policies[r])
    && Others(BindingsAt(t, ref), Title(nn)) == Others(BindingsAt(s, ref), Title(nn))
    && (forall other | other != nn :: At(t, other) == At(s, other))
  }

  /** The object after a reconcile that gets through: nothing but the finalizer and the annotation is
      touched. */
  function Edited(p: Params, sa: ServiceAccount): ServiceAccount {
    var email := GcpSaEmail(p.groupSaProject, if GroupOf(sa).Some? then GroupOf(sa).value else "");
    sa.(finalizers := sa.finalizers + {FINALIZER},
        annotations := if Lookup(sa.annotations, WORKLOAD_IDENTITY) == email then sa.annotations
                       else sa.annotations[WORKLOAD_IDENTITY := email])
  }

  /** Updating the finalizer or the workload identity does not change what is wanted. */
  lemma SameWish(p: Params, sa: ServiceAccount)
    ensures GroupOf(Edited(p, sa)) == GroupOf(sa) && GroupOf(WithFinalizer(sa)) == GroupOf(sa)
    ensures ExpressionFor(p.settings, Edited(p, sa)) == ExpressionFor(p.settings, sa)
    ensures ExpressionFor(p.settings, WithFinalizer(sa)) == ExpressionFor(p.settings, sa)
    ensures Lookup(Edited(p, sa).annotations, WORKLOAD_IDENTITY) == EmailOf(p, sa)
  {
    KeysDiffer();
  }

  /** The last call: set the annotation if it is not right yet. */
  lemma FinishAnnotate(p: Params, s: State, nn: NamespacedName, sa: ServiceAccount)
    requires Current(s, nn) == Some(sa) && Armed(sa)
    requires At(s, nn).pc == AfterBinding(p, |At(s, nn).history| - 1, sa)
    ensures var t := Finish(p, s, nn);
            && t.policies == s.policies
            && At(t, nn).pc.Idle?
            && (forall other | other != nn :: At(t, other) == At(s, other))
            && Current(t, nn) == Some(Edited(p, sa))
  {
    assert sa.finalizers + {FINALIZER} == sa.finalizers;
    if !At(s, nn).pc.Idle? {
      var t := ApplyCall(p, s, nn);
      assert At(t, nn).pc.Idle?;
      assert Finish(p, t, nn) == t;
    }
  }

  /** The calls that bring the binding in order: fetch the policy, and write it if it is not. */
  lemma FinishBinding(p: Params, s: State, nn: NamespacedName, sa: ServiceAccount) returns (t: State)
    requires At(s, nn).pc == FetchToBind(|At(s, nn).history| - 1, sa)
    requires RefOf(p, sa) in s.policies && !Unreadable(p.settings, sa)
    ensures Finish(p, s, nn) == Finish(p, t, nn)
    ensures At(t, nn) == At(s, nn).(pc := AfterBinding(p, |At(s, nn).history| - 1, sa))
    ensures Bound(p, t, nn, sa)
    ensures OwnCount(p, t, nn, sa) == if OwnCount(p, s, nn, sa) == 0 then 1 else OwnCount(p, s, nn, sa)
    ensures OnlyOwnChanges(s, t, nn, RefOf(p, sa))
  {
    var ref := RefOf(p, sa);
    ExpressionForIff(p.settings, sa, Always);
    var expression := ExpressionFor(p.settings, sa).value;
    ExpressionForIff(p.settings, sa, expression);
    var wanted := Wanted(p, nn, expression);
    var bindings := s.policies[ref].bindings;
    EnsureGivesWanted(bindings, wanted);
    EnsureKeepsOthers(bindings, wanted);
    InOrderIff(bindings, wanted);
    t := ApplyCall(p, s, nn);
    if !InOrder(bindings, wanted) {
      assert At(t, nn).pc == WriteBinding(|At(s, nn).history| - 1, sa, s.policies[ref]);
      assert Finish(p, s, nn) == Finish(p, t, nn);
      t := ApplyCall(p, t, nn);
    }
    assert BindingsAt(t, ref) == Ensure(bindings, wanted);
  }

  /** The first calls: read, and add the finalizer if it is missing. */
  lemma StartBinding(p: Params, s: State, nn: NamespacedName) returns (t: State, held: ServiceAccount)
    requires CanStart(s, nn) && Current(s, nn).Some?
    requires GroupOf(Current(s, nn).value).Some? && !Current(s, nn).value.deleting
    ensures Reconcile(p, s, nn) == Finish(p, t, nn)
    ensures held == WithFinalizer(Current(s, nn).value)
    ensures At(t, nn).pc == FetchToBind(|At(t, nn).history| - 1, held)
    ensures Current(t, nn) == Some(held) && Armed(held)
    ensures t.policies == s.policies && forall other | other != nn :: At(t, other) == At(s, other)
  {
    var sa := Current(s, nn).value;
    held := WithFinalizer(sa);
    t := Apply(p, s, Read(nn, |At(s, nn).history| - 1));
    if FINALIZER !in sa.finalizers {
      t := ApplyCall(p, t, nn);
    } else {
      assert held.finalizers == sa.finalizers;
    }
  }

  /** One reconcile reaches the goal: from any stored ServiceAccount that asks for a group whose
      policy exists, with a readable duration. A binding is added only if there was none. */
  lemma ReconcileSettles(p: Params, s: State, nn: NamespacedName)
    requires CanStart(s, nn) && Current(s, nn).Some?
    requires var sa := Current(s, nn).value;
             && GroupOf(sa).Some? && !sa.deleting
             && !Unreadable(p.settings, sa)
             && RefOf(p, sa) in s.policies
    ensures var sa, t := Current(s, nn).value, Reconcile(p, s, nn);
            && Settled(p, t, nn) && CanStart(t, nn)
            && Current(t, nn) == Some(Edited(p, sa))
            && OwnCount(p, t, nn, sa) == (if OwnCount(p, s, nn, sa) == 0 then 1 else OwnCount(p, s, nn, sa))
            && OnlyOwnChanges(s, t, nn, RefOf(p, sa))
  {
    var sa := Current(s, nn).value;
    SameWish(p, sa);
    var s1, held := StartBinding(p, s, nn);
    ReadableIff(p, sa);
    ReadableIff(p, held);
    var s2 := FinishBinding(p, s1, nn, held);
    FinishAnnotate(p, s2, nn, held);
    EditedTwice(p, sa);
    BoundForEdited(p, s2, Reconcile(p, s, nn), nn, sa);
  }

  lemma ReadableIff(p: Params, sa: ServiceAccount)
    ensures Unreadable(p.settings, sa) <==> ExpressionFor(p.settings, sa).None?
  {
    ExpressionForIff(p.settings, sa, Always);
  }

  /** The finalizer comes first, so it does not matter that the rest starts from an object that has it. */
  lemma EditedTwice(p: Params, sa: ServiceAccount)
    ensures Edited(p, WithFinalizer(sa)) == Edited(p, sa)
  {
    assert sa.finalizers + {FINALIZER} + {FINALIZER} == sa.finalizers + {FINALIZER};
  }

  /** What is bound for the version with the finalizer is bound for the final object. */
  lemma BoundForEdited(p: Params, s: State, t: State, nn: NamespacedName, sa: ServiceAccount)
    requires Bound(p, s, nn, WithFinalizer(sa)) && t.policies == s.policies
    ensures Bound(p, t, nn, Edited(p, sa)) && RefOf(p, Edited(p, sa)) == RefOf(p, sa)
  {
    SameWish(p, sa);
    var own := Titled(s.policies[RefOf(p, sa)].bindings, Title(nn));
    ExpressionForIff(p.settings, WithFinalizer(sa), own[0].expression);
    ExpressionForIff(p.settings, Edited(p, sa), own[0].expression);
  }

  /** If the Google service account of the group does not exist, a reconcile changes the object alone. */
  lemma ReconcileWithoutPolicy(p: Params, s: State, nn: NamespacedName)
    requires CanStart(s, nn) && Current(s, nn).Some?
    requires var sa := Current(s, nn).value; GroupOf(sa).Some? && !sa.deleting && RefOf(p, sa) !in s.policies
    ensures var t := Reconcile(p, s, nn);
            && t.policies == s.policies && (forall other | other != nn :: At(t, other) == At(s, other))
            && Current(t, nn) == Some(Edited(p, Current(s, nn).value))
  {
    var sa := Current(s, nn).value;
    SameWish(p, sa);
    EditedTwice(p, sa);
    var s1, held := StartBinding(p, s, nn);
    var s2 := ApplyCall(p, s1, nn);
    assert Finish(p, s1, nn) == Finish(p, s2, nn);
    FinishAnnotate(p, s2, nn, held);
  }

  /** There is a policy to edit for an object that asks for a group and stays, but its requested duration
      cannot be read. */
  predicate Hopeless(p: Params, s: State, nn: NamespacedName) {
    && Current(s, nn).Some?
    && var sa := Current(s, nn).value;
    && IMPERSONATE_GROUP in sa.annotations && !sa.deleting
    && RefOf(p, sa) in s.policies && Unreadable(p.settings, sa)
  }

  /** A requested duration that cannot be read writes no policy and sets no annotation; only the
      finalizer is there. */
  lemma ReconcileUnreadable(p: Params, s: State, nn: NamespacedName)
    requires CanStart(s, nn) && Hopeless(p, s, nn)
    ensures var sa, t := Current(s, nn).value, Reconcile(p, s, nn);
            && t.policies == s.policies && (forall other | other != nn :: At(t, other) == At(s, other))
            && Current(t, nn) == Some(sa.(finalizers := sa.finalizers + {FINALIZER}))
  {
    var sa := Current(s, nn).value;
    SameWish(p, sa);
    ReadableIff(p, sa);
    var s1, held := StartBinding(p, s, nn);
    var s2 := ApplyCall(p, s1, nn);
    assert At(s2, nn).pc.Idle?;
    assert Finish(p, s1, nn) == s2;
  }

  /** An object that is gone, asks for no group, or is being deleted without the finalizer is left alone. */
  lemma ReconcileIgnores(p: Params, s: State, nn: NamespacedName)
    requires CanStart(s, nn)
    requires var found := Current(s, nn);
             || found.None? || IMPERSONATE_GROUP !in found.value.annotations
             || (found.value.deleting && FINALIZER !in found.value.finalizers)
    ensures SameStored(s, Reconcile(p, s, nn), nn)
  {
    var t := Apply(p, s, Read(nn, |At(s, nn).history| - 1));
    assert At(t, nn).pc.Idle?;
    assert Finish(p, t, nn) == t;
  }

  /** Once settled, another reconcile writes nothing. */
  lemma SettledIsFixpoint(p: Params, s: State, nn: NamespacedName)
    requires CanStart(s, nn) && Settled(p, s, nn)
    ensures SameStored(s, Reconcile(p, s, nn), nn)
    ensures Settled(p, Reconcile(p, s, nn), nn) && CanStart(Reconcile(p, s, nn), nn)
  {
    var sa := Current(s, nn).value;
    var bindings := s.policies[RefOf(p, sa)].bindings;
    var expression := Titled(bindings, Title(nn))[0].expression;
    ExpressionForIff(p.settings, sa, expression);
    InOrderIff(bindings, Wanted(p, nn, expression));
    var s1 := Apply(p, s, Read(nn, |At(s, nn).history| - 1));
    assert At(s1, nn).pc == FetchToBind(|At(s, nn).history| - 1, sa);
    var s2 := ApplyCall(p, s1, nn);
    assert At(s2, nn).pc.Idle?;
    assert Finish(p, s2, nn) == s2;
  }

  /** The calls that clear the policy of the group: fetch it, and write it back without the title. */
  lemma FinishRemoval(p: Params, s: State, nn: NamespacedName, sa: ServiceAccount) returns (t: State)
    requires Current(s, nn) == Some(sa)
    requires At(s, nn).pc == FetchToRemove(|At(s, nn).history| - 1, sa)
    ensures Finish(p, s, nn) == Finish(p, t, nn)
    ensures At(t, nn) == At(s, nn).(pc := DropFinalizer(|At(s, nn).history| - 1, sa))
    ensures !HasTitle(BindingsAt(t, RefOf(p, sa)), Title(nn))
    ensures OnlyOwnChanges(s, t, nn, RefOf(p, sa))
  {
    var ref := RefOf(p, sa);
    OthersHasNoTitle(BindingsAt(s, ref), Title(nn));
    t := ApplyCall(p, s, nn);
    if At(t, nn).pc.WriteRemoval? {
      assert At(t, nn).pc == WriteRemoval(|At(s, nn).history| - 1, sa, s.policies[ref]);
      assert Finish(p, s, nn) == Finish(p, t, nn);
      t := ApplyCall(p, t, nn);
      assert BindingsAt(t, ref) == Others(BindingsAt(s, ref), Title(nn));
    }
  }

  /** A reconcile of a deleting ServiceAccount with the finalizer removes every binding with its
      title from its group's policy and then the finalizer, and touches nothing else. */
  lemma ReconcileReleases(p: Params, s: State, nn: NamespacedName)
    requires CanStart(s, nn) && Current(s, nn).Some?
    requires var sa := Current(s, nn).value; GroupOf(sa).Some? && sa.deleting && FINALIZER in sa.finalizers
    ensures var sa := Current(s, nn).value;
            var t := Reconcile(p, s, nn);
            && Current(t, nn) == (if sa.finalizers == {FINALIZER} then None
                                  else Some(sa.(finalizers := sa.finalizers - {FINALIZER})))
            && !HasTitle(BindingsAt(t, RefOf(p, sa)), Title(nn))
            && OnlyOwnChanges(s, t, nn, RefOf(p, sa))
  {
    var sa := Current(s, nn).value;
    var s1 := Apply(p, s, Read(nn, |At(s, nn).history| - 1));
    assert At(s1, nn).pc == FetchToRemove(|At(s, nn).history| - 1, sa);
    var s2 := FinishRemoval(p, s1, nn, sa);
    var s3 := ApplyCall(p, s2, nn);
    assert Reconcile(p, s, nn) == Finish(p, s2, nn) == Finish(p, s3, nn) == s3;
    assert forall other | other != nn :: At(s3, other) == At(s2, other) && At(s1, other) == At(s, other);
  }
}
