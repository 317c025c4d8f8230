/** What every run of the reconciliation protocol keeps, whatever groups, caches and finalizers do:
    what reconciles hold is stored, and a policy write is an edit of the stored policy. */
module IamHeld {
  import opened Options
  import opened Groups
  import opened ServiceAccounts
  import opened Validator
  import opened IamPolicy
  import opened IamMachine

  /** A version whose reconcile writes a binding: it asks for a group, is not being deleted, and
      carries the finalizer. */
  predicate Armed(sa: ServiceAccount) {
    GroupOf(sa).Some? && !sa.deleting && FINALIZER in sa.finalizers
  }

  /** Every stored version passed the webhook's duration rules. */
  ghost predicate VersionsEntitled(p: Params, a: Account) {
    forall i | 0 <= i < |a.history| :: a.history[i].Some? ==> Entitled(p.settings, a.history[i].value)
  }

  /** A fetched policy is the stored one as long as the etag is. */
  ghost predicate FetchedOk(s: State, ref: string, fetched: Policy) {
    && fetched.etag < s.nextEtag
    && (EtagMatches(s, ref, fetched) ==> s.policies[ref].bindings == fetched.bindings)
  }

  ghost predicate EtagsOk(s: State) {
    forall ref | ref in s.policies :: s.policies[ref].etag < s.nextEtag
  }

  /** The version a reconcile holds is a stored one that asks for a group. */
  ghost predicate Holds(a: Account, version: nat, sa: ServiceAccount) {
    version < |a.history| && a.history[version] == Some(sa) && GroupOf(sa).Some?
  }

  /** What a reconcile holds at a name: it is about to remove for a deleting version, to bind for an
      armed one, and a policy it fetched is the stored one as long as the etag is. */
  ghost predicate HeldOk(p: Params, s: State, nn: NamespacedName) {
    var a := At(s, nn);
    && VersionsEntitled(p, a)
    && match a.pc
       case Idle => true
       case AddFinalizer(version, sa) => Holds(a, version, sa) && !sa.deleting
       case FetchToRemove(version, sa) => Holds(a, version, sa) && sa.deleting
       case WriteRemoval(version, sa, fetched) =>
         Holds(a, version, sa) && sa.deleting && FetchedOk(s, RefOf(p, sa), fetched)
       case DropFinalizer(version, sa) => Holds(a, version, sa) && sa.deleting
       case FetchToBind(version, sa) => Holds(a, version, sa) && Armed(sa)
       case WriteBinding(version, sa, fetched) =>
         && Holds(a, version, sa) && Armed(sa)
         && FetchedOk(s, RefOf(p, sa), fetched)
         && ExpressionFor(p.settings, sa).Some?
       case Annotate(version, sa) => Holds(a, version, sa) && Armed(sa)
  }

  ghost predicate AllHeldOk(p: Params, s: State) {
    EtagsOk(s) && forall nn :: HeldOk(p, s, nn)
  }

  lemma InitHeld(p: Params, s: State)
    requires Init(s)
    ensures AllHeldOk(p, s)
  {
  }

  /** Etags are never reused, so a policy that others write is no longer the fetched one; and
      versions once stored stay in the history. */
  lemma HeldKept(p: Params, s: State, s': State, nn: NamespacedName)
    requires EtagsOk(s) && HeldOk(p, s, nn)
    requires At(s', nn).pc == At(s, nn).pc && At(s, nn).history <= At(s', nn).history
    requires VersionsEntitled(p, At(s', nn))
    requires s.nextEtag <= s'.nextEtag
    requires forall ref | ref in s'.policies ::
               (ref in s.policies && s'.policies[ref] == s.policies[ref]) || s'.policies[ref].etag >= s.nextEtag
    ensures HeldOk(p, s', nn)
  {
    assert forall i | 0 <= i < |At(s, nn).history| :: At(s', nn).history[i] == At(s, nn).history[i];
  }

  lemma EntitledIfAdmissible(p: Params, sa: ServiceAccount)
    requires Admissible(p, sa)
    ensures Entitled(p.settings, sa)
  {
    AdmittedIff(p.settings, Some(true), sa);
  }

  /** The operator's own updates stay entitled. */
  lemma OwnUpdatesEntitled(p: Params, sa: ServiceAccount)
    requires Entitled(p.settings, sa)
    ensures Entitled(p.settings, WithFinalizer(sa)) && Entitled(p.settings, WithWorkloadIdentity(p, sa))
    ensures Entitled(p.settings, WithoutFinalizer(sa)) && Entitled(p.settings, sa.(deleting := true))
  {
    KeysDiffer();
  }

  lemma AppendEntitled(p: Params, a: Account, sa: ServiceAccount)
    requires VersionsEntitled(p, a) && Entitled(p.settings, sa)
    ensures VersionsEntitled(p, Append(a, sa))
  {
  }

  lemma HeldAfterUpdate(p: Params, s: State, nn: NamespacedName)
    requires HeldOk(p, s, nn)
    requires At(s, nn).pc.AddFinalizer? || At(s, nn).pc.DropFinalizer? || At(s, nn).pc.Annotate?
    ensures HeldOk(p, ApplyCall(p, s, nn), nn)
  {
    var a, sa := At(s, nn), At(s, nn).pc.sa;
    OwnUpdatesEntitled(p, sa);
    match a.pc
    case AddFinalizer(_, _) => AppendEntitled(p, a, WithFinalizer(sa));
    case DropFinalizer(_, _) => AppendEntitled(p, a, WithoutFinalizer(sa));
    case Annotate(_, _) => AppendEntitled(p, a, WithWorkloadIdentity(p, sa));
  }

  lemma HeldAfterCall(p: Params, s: State, nn: NamespacedName)
    requires EtagsOk(s) && HeldOk(p, s, nn)
    ensures HeldOk(p, ApplyCall(p, s, nn), nn)
  {
    if At(s, nn).pc.AddFinalizer? || At(s, nn).pc.DropFinalizer? || At(s, nn).pc.Annotate? {
      HeldAfterUpdate(p, s, nn);
    }
  }

  /** Every event leaves a policy alone or gives it a new etag. */
  lemma PoliciesStep(p: Params, s: State, e: Event)
    requires EtagsOk(s) && Enabled(p, s, e)
    ensures EtagsOk(Apply(p, s, e)) && s.nextEtag <= Apply(p, s, e).nextEtag
    ensures var s' := Apply(p, s, e);
            forall ref | ref in s'.policies ::
              (ref in s.policies && s'.policies[ref] == s.policies[ref]) || s'.policies[ref].etag >= s.nextEtag
  {
  }

  lemma HeldAfterReadOrAbort(p: Params, s: State, e: Event)
    requires (e.Read? || e.Abort?) && Enabled(p, s, e) && HeldOk(p, s, e.nn)
    ensures HeldOk(p, Apply(p, s, e), e.nn)
  {
  }

  /** What users do to a name adds entitled versions and leaves its reconcile alone. */
  lemma UserStep(p: Params, s: State, e: Event)
    requires (e.Create? || e.Edit? || e.Delete?) && Enabled(p, s, e) && VersionsEntitled(p, At(s, e.nn))
    ensures var a, b := At(s, e.nn), At(Apply(p, s, e), e.nn);
            b.pc == a.pc && a.history <= b.history && VersionsEntitled(p, b)
  {
    match e
    case Create(nn, sa) => EntitledIfAdmissible(p, sa); AppendEntitled(p, At(s, nn), sa);
    case Edit(nn, sa) => EntitledIfAdmissible(p, sa); AppendEntitled(p, At(s, nn), sa);
    case Delete(nn) =>
      var sa := Current(s, nn).value;
      OwnUpdatesEntitled(p, sa);
      AppendEntitled(p, At(s, nn), sa.(deleting := true));
  }

  /** An event on another name, or on a policy, leaves the account of a name alone. */
  lemma OtherAccountStep(p: Params, s: State, e: Event, nn: NamespacedName)
    requires Enabled(p, s, e)
    requires e.CreatePolicy? || e.EditPolicy? || e.DeletePolicy? || e.nn != nn
    ensures At(Apply(p, s, e), nn) == At(s, nn)
  {
  }

  lemma HeldStep(p: Params, s: State, e: Event)
    requires AllHeldOk(p, s) && Enabled(p, s, e)
    ensures AllHeldOk(p, Apply(p, s, e))
  {
    var s' := Apply(p, s, e);
    PoliciesStep(p, s, e);
    forall nn ensures HeldOk(p, s', nn) {
      assert HeldOk(p, s, nn);
      if e.CreatePolicy? || e.EditPolicy? || e.DeletePolicy? || e.nn != nn {
        OtherAccountStep(p, s, e, nn);
        HeldKept(p, s, s', nn);
      } else if e.Call? {
        HeldAfterCall(p, s, nn);
      } else if e.Read? || e.Abort? {
        HeldAfterReadOrAbort(p, s, e);
      } else {
        UserStep(p, s, e);
        HeldKept(p, s, s', nn);
      }
    }
  }

  lemma {:induction false} HeldRun(p: Params, s: State, run: seq<Event>)
    requires AllHeldOk(p, s) && Legal(p, s, run)
    ensures AllHeldOk(p, Run(p, s, run))
    decreases |run|
  {
    if run != [] {
      HeldStep(p, s, run[0]);
      HeldRun(p, Apply(p, s, run[0]), run[1..]);
    }
  }

  /** What the policy writes of a name may do to the bindings committed just before. */
  ghost predicate OwnEdit(p: Params, nn: NamespacedName, sa: ServiceAccount, before: seq<Binding>,
                          after: seq<Binding>) {
    if sa.deleting then after == Others(before, Title(nn))
    else exists expression :: ExpressionFor(p.settings, sa) == Some(expression)
                              && after == Ensure(before, Wanted(p, nn, expression))
  }

  /** A committed policy write is the writer's edit of the stored bindings, thanks to the etag. */
  lemma CallEditsOwn(p: Params, s: State, nn: NamespacedName)
    requires HeldOk(p, s, nn)
    ensures var after := ApplyCall(p, s, nn);
            && after.policies.Keys == s.policies.Keys
            && forall ref | ref in s.policies && after.policies[ref] != s.policies[ref] ::
                 && !At(s, nn).pc.Idle?
                 && ref == RefOf(p, At(s, nn).pc.sa)
                 && OwnEdit(p, nn, At(s, nn).pc.sa, s.policies[ref].bindings, after.policies[ref].bindings)
  {
  }

  lemma OwnEditKeepsOthers(p: Params, nn: NamespacedName, sa: ServiceAccount, before: seq<Binding>, after: seq<Binding>)
    requires IsName(nn) && OwnEdit(p, nn, sa, before, after)
    ensures Others(after, Title(nn)) == Others(before, Title(nn))
    ensures forall other | IsName(other) && other != nn :: Titled(after, Title(other)) == Titled(before, Title(other))
  {
    if sa.deleting {
      OthersHasNoTitle(before, Title(nn));
    } else {
      EnsureKeepsOthers(before, Wanted(p, nn, ExpressionFor(p.settings, sa).value));
    }
    forall other | IsName(other) && other != nn
      ensures Titled(after, Title(other)) == Titled(before, Title(other))
    {
      if Title(other) == Title(nn) { TitleInjective(other, nn); }
      TitledThroughOthers(after, Title(nn), Title(other));
      TitledThroughOthers(before, Title(nn), Title(other));
    }
  }

  /** Go's duration parser rejects the empty string. */
  predicate EmptyIsNoDuration(p: Params) {
    p.settings.parseDuration("") == None
  }

  /** The binding written for `sa` grants no more than its group allows. */
  ghost predicate Bounded(p: Params, sa: ServiceAccount, b: Binding) {
    var config := if GroupOf(sa).Some? then GetConfig(p.settings.configs, GroupOf(sa).value) else None;
    EmptyIsNoDuration(p) && config.Some? && config.value.reasonRequired ==>
      b.expression.Until? && b.expression.second * SECOND <= sa.created * SECOND + config.value.maxDuration
  }

  /** The expression written for an armed, entitled version respects its group's limit. */
  lemma WantedBounded(p: Params, nn: NamespacedName, sa: ServiceAccount)
    requires Armed(sa) && Entitled(p.settings, sa) && ExpressionFor(p.settings, sa).Some?
    ensures Bounded(p, sa, Wanted(p, nn, ExpressionFor(p.settings, sa).value))
  {
    if EmptyIsNoDuration(p) && GetConfig(p.settings.configs, GroupOf(sa).value).value.reasonRequired {
      var text := sa.annotations[REQUESTED_DURATION];
      assert text != "";
      var instant := sa.created * SECOND + p.settings.parseDuration(text).value;
      assert instant / SECOND * SECOND <= instant;
    }
  }
}
