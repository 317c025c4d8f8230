/** The reconciler's code over mutable objects: it edits the fetched policy and its bindings in
    place and makes its API calls one after the other. Every API call may fail, other parties may
    act between any two calls, and each call is shown to be the next step of the machine
    (internal/controller/serviceaccount_controller.go). */
module IamReconciler {
  import opened Options
  import opened Text
  import opened ServiceAccounts
  import opened IamPolicy
  import opened IamMachine
  import opened IamSafety
  import opened IamTheorems
  import opened IamReconcile

  /** A binding as decoded from the API, which the code changes in place. */
  class BindingObject {
    var role: string
    var members: seq<string>
    var title: string
    var expression: Expression
    var description: string

    constructor (b: Binding)
      ensures View() == b
    {
      role, members, title, expression, description := b.role, b.members, b.title, b.expression, b.description;
    }

    function View(): Binding
      reads this
    {
      Binding(role, members, title, expression, description)
    }

    method Overwrite(other: BindingObject)
      modifies this
      ensures View() == old(other.View())
    {
      role, members, title, expression, description :=
        other.role, other.members, other.title, other.expression, other.description;
    }
  }

  /** A fetched policy. */
  class PolicyObject {
    const etag: nat
    var bindings: seq<BindingObject>
    var version: nat

    constructor (etag: nat)
      ensures this.etag == etag && bindings == []
    {
      this.etag := etag;
      bindings, version := [], 0;
    }

    function View(): (views: seq<Binding>)
      reads this, bindings
      ensures |views| == |bindings|
    {
      seq(|bindings|, i requires 0 <= i < |bindings| reads this, bindings => bindings[i].View())
    }

    /** No two positions share a binding. */
    ghost predicate Valid()
      reads this
    {
      forall i, j | 0 <= i < j < |bindings| :: bindings[i] != bindings[j]
    }
  }

  /** Decodes a response into new objects. */
  method Decode(stored: Policy) returns (policy: PolicyObject)
    ensures fresh(policy) && fresh(policy.bindings) && policy.Valid()
    ensures policy.etag == stored.etag && policy.View() == stored.bindings
  {
    policy := new PolicyObject(stored.etag);
    for k := 0 to |stored.bindings|
      invariant fresh(policy) && fresh(policy.bindings) && policy.Valid()
      invariant policy.etag == stored.etag && policy.View() == stored.bindings[..k]
    {
      var b := new BindingObject(stored.bindings[k]);
      policy.bindings := policy.bindings + [b];
    }
  }

  /** Deletes every binding with the title, keeping the others in order. */
  method DeleteTitled(policy: PolicyObject, title: string)
    requires policy.Valid()
    modifies policy
    ensures policy.Valid() && forall b | b in policy.bindings :: b in old(policy.bindings)
    ensures policy.View() == Others(old(policy.View()), title)
    ensures policy.version == old(policy.version)
  {
    var all, kept := policy.bindings, [];
    ghost var views := policy.View();
    for k := 0 to |all|
      invariant policy.bindings == all && policy.version == old(policy.version)
      invariant forall b | b in kept :: b in all[..k]
      invariant forall i, j | 0 <= i < j < |kept| :: kept[i] != kept[j]
      invariant ViewsOf(kept) == Others(views[..k], title)
    {
      assert views[..k + 1] == views[..k] + [views[k]];
      OthersConcat(views[..k], [views[k]], title);
      if all[k].title != title {
        assert all[k] !in all[..k];
        kept := kept + [all[k]];
      }
    }
    assert views[..|all|] == views;
    policy.bindings := kept;
    assert policy.View() == ViewsOf(kept);
  }

  ghost function ViewsOf(bindings: seq<BindingObject>): seq<Binding>
    reads bindings
  {
    seq(|bindings|, i requires 0 <= i < |bindings| reads bindings => bindings[i].View())
  }

  /** The first binding with the title, if any. */
  method FindTitled(policy: PolicyObject, title: string) returns (found: BindingObject?)
    ensures found == null <==> IndexOf(policy.View(), title) == |policy.bindings|
    ensures found != null ==> found == policy.bindings[IndexOf(policy.View(), title)]
  {
    for k := 0 to |policy.bindings|
      invariant forall i | 0 <= i < k :: policy.View()[i].title != title
    {
      if policy.bindings[k].title == title {
        assert policy.View()[k].title == title;
        return policy.bindings[k];
      }
    }
    return null;
  }

  /** Brings the policy in line with what is wanted for a title: appends the wanted binding, drops
      the existing one's title, overwrites the existing binding, or leaves everything alone. */
  method EnsureCorrectBinding(policy: PolicyObject, binding: BindingObject?, wanted: BindingObject?)
    returns (modified: bool)
    requires policy.Valid()
    requires binding != null ==> binding in policy.bindings
    requires wanted != null ==> wanted !in policy.bindings && |wanted.members| == 1
    modifies policy, if binding != null then {binding} else {}
    ensures binding == null && wanted == null ==> !modified && policy.View() == old(policy.View())
    ensures binding == null && wanted != null ==> modified && policy.View() == old(policy.View()) + [old(wanted.View())]
    ensures binding != null && wanted == null ==>
              modified && policy.View() == Others(old(policy.View()), old(binding.title))
    ensures binding != null && wanted != null ==>
              && (modified <==>
                    || old(binding.role) != WI_ROLE
                    || old(binding.members) != old(wanted.members)
                    || old(binding.expression) != old(wanted.expression))
              && policy.bindings == old(policy.bindings)
              && forall i | 0 <= i < |policy.bindings| ::
                   policy.View()[i]
                   == if policy.bindings[i] == binding && modified then old(wanted.View()) else old(policy.View())[i]
    ensures policy.Valid() && policy.version == old(policy.version)
  {
    if binding == null {
      if wanted == null {
        return false;
      }
      policy.bindings := policy.bindings + [wanted];
      return true;
    }
    if wanted == null {
      DeleteTitled(policy, binding.title);
      return true;
    }
    modified := false;
    if binding.role != WI_ROLE {
      modified := true;
    }
    if |binding.members| != 1 || binding.members[0] != wanted.members[0] {
      modified := true;
    }
    if binding.expression != wanted.expression {
      modified := true;
    }
    if modified {
      binding.Overwrite(wanted);
    }
  }

  /** Puts the wanted binding into a fetched policy. */
  method EnsureWanted(policy: PolicyObject, wanted: Binding) returns (modified: bool)
    requires policy.Valid() && wanted.role == WI_ROLE && |wanted.members| == 1
    modifies policy, policy.bindings
    ensures policy.Valid()
    ensures modified == !InOrder(old(policy.View()), wanted)
    ensures policy.View() == Ensure(old(policy.View()), wanted)
    ensures var own := Titled(policy.View(), wanted.title);
            && own != [] && own[0].role == WI_ROLE
            && own[0].members == wanted.members && own[0].expression == wanted.expression
  {
    ghost var views, k := policy.View(), IndexOf(policy.View(), wanted.title);
    var binding := FindTitled(policy, wanted.title);
    var wantedObject := new BindingObject(wanted);
    modified := EnsureCorrectBinding(policy, binding, wantedObject);
    if binding == null {
      assert policy.View() == views + [wanted];
    } else {
      assert policy.View() == if modified then views[k := wanted] else views;
    }
    EnsureGivesWanted(views, wanted);
  }

  /** How a call or a reconcile ends. */
  datatype Outcome = Done | Requeue | Error

  /** The answer to an update: accepted, refused because of the resourceVersion, or failed. */
  datatype Sent = Accepted | Conflict | Failed

  datatype Read = ReadFailed | ReadNotFound | ReadFound(version: nat, sa: ServiceAccount)
  datatype Fetch = FetchFailed | FetchNotFound | FetchFound(policy: PolicyObject)

  /** The update a reconcile is about to send. */
  function PendingUpdate(p: Params, pc: Pc): Option<(nat, ServiceAccount)> {
    match pc
    case AddFinalizer(version, sa) => Some((version, WithFinalizer(sa)))
    case DropFinalizer(version, sa) => Some((version, WithoutFinalizer(sa)))
    case Annotate(version, sa) => Some((version, WithWorkloadIdentity(p, sa)))
    case _ => None
  }

  /** How an update leaves the reconcile that sent it. */
  function AfterUpdate(pc: Pc, sent: Sent): Outcome {
    match sent
    case Accepted => Done
    case Conflict => if pc.Annotate? then Requeue else Error
    case Failed => Error
  }

  /** The policy write a reconcile is about to send: where, against which etag, and what. */
  function PendingWrite(p: Params, nn: NamespacedName, pc: Pc): Option<(string, nat, seq<Binding>)> {
    match pc
    case WriteRemoval(version, sa, fetched) =>
      Some((RefOf(p, sa), fetched.etag, Others(fetched.bindings, Title(nn))))
    case WriteBinding(version, sa, fetched) =>
      if ExpressionFor(p.settings, sa).None? then None
      else Some((RefOf(p, sa), fetched.etag,
           Ensure(fetched.bindings, Wanted(p, nn, ExpressionFor(p.settings, sa).value))))
    case _ => None
  }

  /** How an event of a reconciler leaves its reconcile, if it ends it. Only a conflict on the
      workload-identity annotation asks for another reconcile at once; a refused write, a failed
      call and a duration that cannot be read are errors. */
  function EndOf(p: Params, s: State, e: Event): Outcome {
    match e
    case Abort(_) => Error
    case Call(nn) =>
      var a := At(s, nn);
      (match a.pc
       case AddFinalizer(version, _) => if IsCurrent(a, version) then Done else Error
       case DropFinalizer(version, _) => if IsCurrent(a, version) then Done else Error
       case Annotate(version, _) =>
         if IsCurrent(a, version) then Done else if Current(s, nn).Some? then Requeue else Error
       case WriteRemoval(_, sa, fetched) => if EtagMatches(s, RefOf(p, sa), fetched) then Done else Error
       case WriteBinding(_, sa, fetched) => if EtagMatches(s, RefOf(p, sa), fetched) then Done else Error
       case FetchToBind(_, sa) =>
         if Fetched(s, RefOf(p, sa)).Some? && ExpressionFor(p.settings, sa).None? then Error else Done
       case _ => Done)
    case _ => Done
  }

  /** Said by what the event does: giving up is an error. A write is done exactly if it takes effect,
      and a fetch unless it finds a policy for a duration that cannot be read. Only an annotation that
      takes no effect, although the object is there, asks for another reconcile. */
  lemma EndMeans(p: Params, s: State, e: Event)
    requires Enabled(p, s, e) && (e.Read? || e.Call? || e.Abort?)
    ensures var t, pc := Apply(p, s, e), At(s, e.nn).pc;
            && (e.Read? ==> EndOf(p, s, e).Done?)
            && (e.Abort? ==> EndOf(p, s, e).Error?)
            && (EndOf(p, s, e).Requeue? <==>
                  && e.Call? && pc.Annotate? && Current(s, e.nn).Some?
                  && At(t, e.nn).history == At(s, e.nn).history)
            && (e.Call? && (pc.AddFinalizer? || pc.DropFinalizer? || pc.Annotate?) ==>
                  (EndOf(p, s, e).Done? <==> |At(t, e.nn).history| == |At(s, e.nn).history| + 1))
            && (e.Call? && pc.WriteRemoval? ==> (EndOf(p, s, e).Done? <==> t.nextEtag == s.nextEtag + 1))
            && (e.Call? && pc.WriteBinding? && !Unreadable(p.settings, pc.sa) ==>
                  (EndOf(p, s, e).Done? <==> t.nextEtag == s.nextEtag + 1))
            && (e.Call? && pc.FetchToRemove? ==> EndOf(p, s, e).Done?)
            && (e.Call? && pc.FetchToBind? ==>
                  (EndOf(p, s, e).Done? <==> RefOf(p, pc.sa) !in s.policies || !Unreadable(p.settings, pc.sa)))
  {
    if e.Call? && !At(s, e.nn).pc.Idle? {
      ReadableIff(p, At(s, e.nn).pc.sa);
    }
  }

  /** The events of the reconciler of `nn`. */
  predicate IsOwn(e: Event, nn: NamespacedName) {
    (e.Read? || e.Call? || e.Abort?) && e.nn == nn
  }

  predicate NoneOwn(run: seq<Event>, nn: NamespacedName) {
    forall e | e in run :: !IsOwn(e, nn)
  }

  lemma OtherKeepsPc(p: Params, s: State, e: Event, nn: NamespacedName)
    requires Enabled(p, s, e) && !IsOwn(e, nn)
    ensures At(Apply(p, s, e), nn).pc == At(s, nn).pc
    ensures At(s, nn).history <= At(Apply(p, s, e), nn).history
  {
    if e.Call? {
      CallKeepsOthers(p, s, e.nn, nn);
    }
  }

  lemma CallKeepsOthers(p: Params, s: State, nn: NamespacedName, other: NamespacedName)
    requires other != nn
    ensures At(ApplyCall(p, s, nn), other) == At(s, other)
  {
  }

  /** Others never move the reconcile of `nn`, and they only add versions to its history. */
  lemma {:induction false} OthersKeepPc(p: Params, s: State, run: seq<Event>, nn: NamespacedName)
    requires Legal(p, s, run) && NoneOwn(run, nn)
    ensures At(Run(p, s, run), nn).pc == At(s, nn).pc
    ensures At(s, nn).history <= At(Run(p, s, run), nn).history
    decreases |run|
  {
    if run != [] {
      OtherKeepsPc(p, s, run[0], nn);
      OthersKeepPc(p, Apply(p, s, run[0]), run[1..], nn);
    }
  }

  /** Where a fetch leads, and how it leaves the reconcile if it ends it. */
  lemma FetchCall(p: Params, s: State, nn: NamespacedName)
    requires At(s, nn).pc.FetchToRemove? || At(s, nn).pc.FetchToBind?
    ensures var sa := At(s, nn).pc.sa;
            var found := Fetched(s, RefOf(p, sa));
            && At(ApplyCall(p, s, nn), nn).pc == AfterFetch(p, found, nn, At(s, nn).pc)
            && EndOf(p, s, Call(nn))
               == if At(s, nn).pc.FetchToBind? && found.Some? && ExpressionFor(p.settings, sa).None?
                  then Error else Done
  {
  }

  function AfterFetch(p: Params, found: Option<Policy>, nn: NamespacedName, pc: Pc): Pc {
    match pc
    case FetchToRemove(version, sa) => AfterFetchToRemove(found, nn, version, sa)
    case FetchToBind(version, sa) => AfterFetchToBind(p, found, nn, version, sa)
    case _ => Idle
  }

  /** The API server and IAM, shared with everyone else. `trace` is the run so far. When `quiet`,
      nobody else acts, no call fails and reads are up to date. */
  class Api {
    const p: Params
    const quiet: bool
    var state: State
    ghost const start: State
    ghost var trace: seq<Event>

    ghost predicate Valid()
      reads this
    {
      Legal(p, start, trace) && state == Run(p, start, trace)
    }

    function PcOf(nn: NamespacedName): Pc
      reads this
    {
      At(state, nn).pc
    }

    /** How the last event of the run, if it is one of `nn`, leaves the reconcile of `nn`. */
    ghost function End(nn: NamespacedName): Option<Outcome>
      requires Valid()
      reads this
    {
      var k := |trace| - 1;
      if trace == [] || !IsOwn(trace[k], nn) then None else Some(EndOf(p, Before(p, start, trace, k), trace[k]))
    }

    constructor (p: Params, quiet: bool, state: State)
      ensures Valid() && this.p == p && this.quiet == quiet && this.state == state
      ensures start == state && trace == []
    {
      this.p, this.quiet, this.state := p, quiet, state;
      start, trace := state, [];
    }

    method Happen(e: Event)
      requires Valid() && Enabled(p, state, e)
      modifies this
      ensures Valid() && trace == old(trace) + [e] && state == Apply(p, old(state), e)
      ensures e.Read? || e.Call? || e.Abort? ==> End(e.nn) == Some(EndOf(p, old(state), e))
    {
      RunSnoc(p, start, trace, e);
      state := Apply(p, state, e);
      trace := trace + [e];
      assert trace[..|trace| - 1] == old(trace);
    }

    /** Other parties act. */
    method Interfere(nn: NamespacedName)
      requires Valid()
      modifies this
      ensures Valid() && old(trace) <= trace && NoneOwn(trace[|old(trace)|..], nn)
      ensures PcOf(nn) == old(PcOf(nn))
      ensures old(At(state, nn)).history <= At(state, nn).history
      ensures quiet ==> state == old(state)
    {
      if !quiet {
        assert Legal(p, state, []) && NoneOwn([], nn);
        var run: seq<Event> :| Legal(p, state, run) && NoneOwn(run, nn);
        OthersKeepPc(p, state, run, nn);
        RunConcat(p, start, trace, run);
        state := Run(p, state, run);
        trace := trace + run;
      }
    }

    method MayFail() returns (fails: bool)
      ensures quiet ==> !fails
    {
      fails := *;
      fails := fails && !quiet;
    }

    /** Gives up on the reconcile after an error. */
    method GiveUp(nn: NamespacedName)
      requires Valid() && IsName(nn) && !PcOf(nn).Idle?
      modifies this
      ensures Valid() && old(trace) <= trace && PcOf(nn).Idle?
      ensures At(state, nn) == old(At(state, nn)).(pc := Idle) && End(nn) == Some(Error)
    {
      Happen(Abort(nn));
    }

    /** Reads a cached version. */
    method Get(nn: NamespacedName) returns (r: Read)
      requires Valid() && CanStart(state, nn)
      modifies this
      ensures Valid() && old(trace) <= trace
      ensures r.ReadFound? ==> PcOf(nn) == AfterRead(r.version, r.sa)
      ensures !r.ReadFound? ==> PcOf(nn).Idle?
      ensures if r.ReadFailed? then NoneOwn(trace[|old(trace)|..], nn) else End(nn) == Some(Done)
      ensures quiet ==> r.ReadFound? == Current(old(state), nn).Some?
      ensures quiet ==> state.policies == old(state).policies && At(state, nn).history == At(old(state), nn).history
      ensures quiet && r.ReadFound? ==>
                r.version == |old(At(state, nn)).history| - 1 && Current(old(state), nn) == Some(r.sa)
      ensures quiet ==>
                !r.ReadFailed? && state == Apply(p, old(state), Event.Read(nn, |old(At(state, nn)).history| - 1))
    {
      Interfere(nn);
      var fails := MayFail();
      if fails {
        return ReadFailed;
      }
      var a := At(state, nn);
      var version := |a.history| - 1;
      if !quiet {
        version :| 0 <= version < |a.history|;
      }
      Happen(Event.Read(nn, version));
      match a.history[version]
      case None => return ReadNotFound;
      case Some(sa) => return ReadFound(version, sa);
    }

    /** Sends the pending update; `newVersion` is the version an accepted one gets. */
    method Update(nn: NamespacedName, version: nat, sa: ServiceAccount) returns (sent: Sent, newVersion: nat)
      requires Valid() && IsName(nn) && PendingUpdate(p, PcOf(nn)) == Some((version, sa))
      modifies this
      ensures Valid() && old(trace) <= trace
      ensures !sent.Accepted? ==> PcOf(nn).Idle?
      ensures sent.Accepted? ==> PcOf(nn) == if old(PcOf(nn)).AddFinalizer? then FetchToBind(newVersion, sa) else Idle
      ensures End(nn) == Some(AfterUpdate(old(PcOf(nn)), sent))
      ensures quiet && IsCurrent(At(old(state), nn), version) ==>
                sent.Accepted? && newVersion == |At(old(state), nn).history|
      ensures quiet ==> state == ApplyCall(p, old(state), nn)
    {
      Interfere(nn);
      newVersion := 0;
      var fails := MayFail();
      if fails {
        GiveUp(nn);
        return Failed, 0;
      }
      sent := if IsCurrent(At(state, nn), version) then Accepted
              else if Current(state, nn).Some? then Conflict
              else Failed;
      newVersion := |At(state, nn).history|;
      Happen(Call(nn));
    }

    /** Fetches the policy of a Google service account. */
    method GetIamPolicy(nn: NamespacedName, ref: string) returns (r: Fetch)
      requires Valid() && IsName(nn)
      requires PcOf(nn).FetchToRemove? || PcOf(nn).FetchToBind?
      requires ref == RefOf(p, PcOf(nn).sa)
      modifies this
      ensures Valid() && old(trace) <= trace
      ensures r.FetchFailed? ==> PcOf(nn).Idle? && !quiet && End(nn) == Some(Error)
      ensures quiet ==> (r.FetchFound? <==> ref in old(state).policies)
      ensures quiet && r.FetchFound? ==> r.policy.etag == old(state).policies[ref].etag
      ensures quiet ==> state.policies == old(state).policies && At(state, nn).history == At(old(state), nn).history
      ensures PcOf(nn).Idle? && r.FetchNotFound? ==> End(nn) == Some(Done)
      ensures PcOf(nn).Idle? && r.FetchFound? ==>
                End(nn) == Some(if ExpressionFor(p.settings, old(PcOf(nn)).sa).None? then Error else Done)
      ensures r.FetchFound? ==> fresh(r.policy) && fresh(r.policy.bindings) && r.policy.Valid()
      ensures !r.FetchFailed? ==>
                var found := if r.FetchFound? then Some(Policy(r.policy.etag, r.policy.View())) else None;
                PcOf(nn) == AfterFetch(p, found, nn, old(PcOf(nn)))
      ensures quiet ==> state == ApplyCall(p, old(state), nn)
    {
      Interfere(nn);
      var fails := MayFail();
      if fails {
        GiveUp(nn);
        return FetchFailed;
      }
      var found := Fetched(state, ref);
      FetchCall(p, state, nn);
      Happen(Call(nn));
      match found
      case None => return FetchNotFound;
      case Some(stored) =>
        var policy := Decode(stored);
        return FetchFound(policy);
    }

    /** Sends the pending policy write. */
    method SetIamPolicy(nn: NamespacedName, ref: string, policy: PolicyObject) returns (ok: bool)
      requires Valid() && IsName(nn)
      requires PendingWrite(p, nn, PcOf(nn)) == Some((ref, policy.etag, policy.View()))
      modifies this
      ensures Valid() && old(trace) <= trace
      ensures !ok ==> PcOf(nn).Idle?
      ensures End(nn) == Some(if ok then Done else Error)
      ensures quiet && ref in old(state).policies && old(state).policies[ref].etag == policy.etag ==> ok
      ensures quiet ==> At(state, nn).history == At(old(state), nn).history
      ensures ok ==> PcOf(nn) == match old(PcOf(nn))
                                 case WriteRemoval(version, sa, _) => DropFinalizer(version, sa)
                                 case WriteBinding(version, sa, _) => AfterBinding(p, version, sa)
                                 case _ => Idle
      ensures quiet ==> state == ApplyCall(p, old(state), nn)
    {
      Interfere(nn);
      var fails := MayFail();
      if fails {
        GiveUp(nn);
        return false;
      }
      ok := ref in state.policies && state.policies[ref].etag == policy.etag;
      Happen(Call(nn));
    }
  }

  class ServiceAccountReconciler {
    const api: Api

    constructor (api: Api)
      ensures this.api == api
    {
      this.api := api;
    }

    /** One step, when nothing interferes, does not change where the reconcile ends. */
    twostate lemma StepsOn(nn: NamespacedName)
      requires api.quiet ==> api.state == ApplyCall(api.p, old(api.state), nn) && !old(api.PcOf(nn)).Idle?
      ensures api.quiet ==> Finish(api.p, api.state, nn) == Finish(api.p, old(api.state), nn)
    {
    }

    method UpdateIamPolicy(nn: NamespacedName, policy: PolicyObject, ref: string) returns (outcome: Outcome)
      requires api.Valid() && IsName(nn)
      requires PendingWrite(api.p, nn, api.PcOf(nn)) == Some((ref, policy.etag, policy.View()))
      modifies api, policy
      ensures api.Valid() && old(api.trace) <= api.trace
      ensures !outcome.Done? ==> api.PcOf(nn).Idle?
      ensures api.PcOf(nn).Idle? ==> api.End(nn) == Some(outcome)
      ensures outcome.Done? ==> api.PcOf(nn) == match old(api.PcOf(nn))
                                                case WriteRemoval(version, sa, _) => DropFinalizer(version, sa)
                                                case WriteBinding(version, sa, _) => AfterBinding(api.p, version, sa)
                                                case _ => Idle
      ensures api.quiet && ref in old(api.state).policies && old(api.state).policies[ref].etag == policy.etag ==>
                outcome.Done?
      ensures api.quiet ==> At(api.state, nn).history == At(old(api.state), nn).history
      ensures api.quiet ==> Finish(api.p, api.state, nn) == Finish(api.p, old(api.state), nn)
    {
      policy.version := 3;
      assert policy.View() == old(policy.View());
      label beforeWrite:
      var ok := api.SetIamPolicy(nn, ref, policy);
      StepsOn@beforeWrite(nn);
      return if ok then Done else Error;
    }

    method UpdateServiceAccount(nn: NamespacedName, version: nat, sa: ServiceAccount)
      returns (sent: Sent, newVersion: nat)
      requires api.Valid() && IsName(nn) && PendingUpdate(api.p, api.PcOf(nn)) == Some((version, sa))
      modifies api
      ensures api.Valid() && old(api.trace) <= api.trace
      ensures !sent.Accepted? ==> api.PcOf(nn).Idle?
      ensures sent.Accepted? ==>
                api.PcOf(nn) == if old(api.PcOf(nn)).AddFinalizer? then FetchToBind(newVersion, sa) else Idle
      ensures api.End(nn) == Some(AfterUpdate(old(api.PcOf(nn)), sent))
      ensures api.quiet && IsCurrent(At(old(api.state), nn), version) ==>
                && sent.Accepted? && newVersion == |At(old(api.state), nn).history|
                && (Stored(sa).Some? ==> IsCurrent(At(api.state, nn), newVersion))
                && api.state.policies == old(api.state).policies
      ensures api.quiet ==> Finish(api.p, api.state, nn) == Finish(api.p, old(api.state), nn)
    {
      sent, newVersion := api.Update(nn, version, sa);
      StepsOn(nn);
    }

    /** Removes the ServiceAccount's bindings from its group's policy. */
    method RemoveIamBinding(group: string, nn: NamespacedName) returns (outcome: Outcome)
      requires api.Valid() && IsName(nn) && api.PcOf(nn).FetchToRemove?
      requires GroupOf(api.PcOf(nn).sa) == Some(group)
      modifies api
      ensures api.Valid() && old(api.trace) <= api.trace
      ensures !outcome.Done? ==> api.PcOf(nn).Idle?
      ensures api.PcOf(nn).Idle? ==> api.End(nn) == Some(outcome)
      ensures outcome.Done? ==> api.PcOf(nn) == DropFinalizer(old(api.PcOf(nn)).version, old(api.PcOf(nn)).sa)
      ensures api.quiet ==> outcome.Done? && At(api.state, nn).history == At(old(api.state), nn).history
      ensures api.quiet ==> Finish(api.p, api.state, nn) == Finish(api.p, old(api.state), nn)
    {
      var ref := GcpSaRef(api.p.groupSaProject, group);
      var r := api.GetIamPolicy(nn, ref);
      StepsOn(nn);
      match r
      case FetchFailed => return Error;
      case FetchNotFound => return Done;
      case FetchFound(policy) =>
        var lenBefore := |policy.bindings|;
        ghost var fetched := policy.View();
        OthersHasNoTitle(fetched, Title(nn));
        OthersUnchangedIff(fetched, Title(nn));
        DeleteTitled(policy, Title(nn));
        if |policy.bindings| == lenBefore {
          return Done;
        }
        outcome := UpdateIamPolicy(nn, policy, ref);
    }

    /** Makes sure the ServiceAccount's binding is in its group's policy; `found` says that there is
        a policy. */
    method HandleGcpSa(sa: ServiceAccount, group: string, nn: NamespacedName)
      returns (outcome: Outcome, ghost found: bool)
      requires api.Valid() && IsName(nn) && api.PcOf(nn).FetchToBind?
      requires sa == api.PcOf(nn).sa && GroupOf(sa) == Some(group)
      modifies api
      ensures api.Valid() && old(api.trace) <= api.trace
      ensures !outcome.Done? ==> api.PcOf(nn).Idle?
      ensures api.PcOf(nn).Idle? ==> api.End(nn) == Some(outcome)
      ensures outcome.Done? ==> api.PcOf(nn) == AfterBinding(api.p, old(api.PcOf(nn)).version, sa)
      ensures found && Unreadable(api.p.settings, sa) ==> outcome.Error?
      ensures api.quiet ==> found == (RefOf(api.p, sa) in old(api.state).policies)
      ensures api.quiet ==> (outcome.Done? <==> !found || !Unreadable(api.p.settings, sa))
      ensures api.quiet ==> At(api.state, nn).history == At(old(api.state), nn).history
      ensures api.quiet ==> Finish(api.p, api.state, nn) == Finish(api.p, old(api.state), nn)
    {
      var ref := GcpSaRef(api.p.groupSaProject, group);
      var r := api.GetIamPolicy(nn, ref);
      StepsOn(nn);
      found := r.FetchFound?;
      match r
      case FetchFailed => return Error, found;
      case FetchNotFound => return Done, found;
      case FetchFound(policy) =>
        ReadableIff(api.p, sa);
        var expression := ExpressionFor(api.p.settings, sa);
        if expression.None? {
          return Error, found;
        }
        ghost var fetched := policy.View();
        var wantedView := Wanted(api.p, nn, expression.value);
        var modified := EnsureWanted(policy, wantedView);
        if !modified {
          return Done, found;
        }
        outcome := UpdateIamPolicy(nn, policy, ref);
    }

    /** The branch for a deleting ServiceAccount: the binding first, then the finalizer. */
    method Release(version: nat, sa: ServiceAccount, group: string, nn: NamespacedName) returns (outcome: Outcome)
      requires api.Valid() && IsName(nn) && api.PcOf(nn) == FetchToRemove(version, sa)
      requires GroupOf(sa) == Some(group)
      modifies api
      ensures api.Valid() && old(api.trace) <= api.trace
      ensures api.PcOf(nn).Idle? && api.End(nn) == Some(outcome)
      ensures api.quiet && IsCurrent(At(old(api.state), nn), version) ==> outcome.Done?
      ensures api.quiet ==> Finish(api.p, api.state, nn) == Finish(api.p, old(api.state), nn)
    {
      outcome := RemoveIamBinding(group, nn);
      if outcome.Done? {
        var sent, _ := UpdateServiceAccount(nn, version, WithoutFinalizer(sa));
        if !sent.Accepted? {
          return Error;
        }
      }
    }

    /** One reconcile. Whatever others do meanwhile, it makes exactly calls of the machine and ends;
        undisturbed it does what `Reconcile` says. */
    method Run(nn: NamespacedName) returns (outcome: Outcome)
      requires api.Valid() && CanStart(api.state, nn)
      modifies api
      ensures api.Valid() && old(api.trace) <= api.trace
      ensures api.PcOf(nn).Idle?
      // It returns what its last event calls for; a failed read leaves no event.
      ensures || api.End(nn) == Some(outcome)
              || (outcome.Error? && !api.quiet && NoneOwn(api.trace[|old(api.trace)|..], nn))
      // Undisturbed, only a duration that cannot be read, for a group with a policy, is an error.
      ensures api.quiet ==> outcome == if Hopeless(api.p, old(api.state), nn) then Error else Done
      ensures api.quiet ==> api.state == Reconcile(api.p, old(api.state), nn)
    {
      var r := api.Get(nn);
      ghost var goal := Finish(api.p, api.state, nn);
      assert api.quiet ==> goal == Reconcile(api.p, old(api.state), nn);
      if r.ReadFailed? {
        return Error;
      }
      if r.ReadNotFound? {
        return Done;
      }
      var version, sa := r.version, r.sa;
      if IMPERSONATE_GROUP !in sa.annotations {
        return Done;
      }
      var group := sa.annotations[IMPERSONATE_GROUP];
      if !sa.deleting {
        outcome := Establish(version, sa, group, nn);
      } else {
        if FINALIZER in sa.finalizers {
          outcome := Release(version, sa, group, nn);
          return;
        }
        return Done;
      }
    }

    /** The branch for a ServiceAccount that stays: the finalizer, the binding, the annotation. */
    method Establish(version: nat, read: ServiceAccount, group: string, nn: NamespacedName) returns (outcome: Outcome)
      requires api.Valid() && IsName(nn) && api.PcOf(nn) == AfterRead(version, read)
      requires GroupOf(read) == Some(group) && !read.deleting
      modifies api
      ensures api.Valid() && old(api.trace) <= api.trace
      ensures api.PcOf(nn).Idle? && api.End(nn) == Some(outcome)
      ensures api.quiet && IsCurrent(At(old(api.state), nn), version) ==>
                outcome == if RefOf(api.p, read) in old(api.state).policies && Unreadable(api.p.settings, read)
                           then Error else Done
      ensures api.quiet ==> api.state == Finish(api.p, old(api.state), nn)
    {
      var held, sa := version, read;
      if FINALIZER !in sa.finalizers {
        sa := WithFinalizer(sa);
        var sent;
        sent, held := UpdateServiceAccount(nn, version, sa);
        if !sent.Accepted? {
          return Error;
        }
      }
      var bound, _ := HandleGcpSa(sa, group, nn);
      if !bound.Done? {
        return bound;
      }
      outcome := SetWorkloadIdentity(held, sa, group, nn);
    }

    /** The last step: the workload-identity annotation, if it is not right already. */
    method SetWorkloadIdentity(version: nat, sa: ServiceAccount, group: string, nn: NamespacedName)
      returns (outcome: Outcome)
      requires api.Valid() && IsName(nn) && api.PcOf(nn) == AfterBinding(api.p, version, sa)
      requires GroupOf(sa) == Some(group)
      modifies api
      ensures api.Valid() && old(api.trace) <= api.trace && api.PcOf(nn).Idle?
      ensures if old(api.PcOf(nn)).Idle?
              then outcome.Done? && api.trace == old(api.trace)
              else api.End(nn) == Some(outcome)
      ensures api.quiet && IsCurrent(At(old(api.state), nn), version) ==> outcome.Done?
      ensures api.quiet ==> api.state == Finish(api.p, old(api.state), nn)
    {
      if Lookup(sa.annotations, WORKLOAD_IDENTITY) == GcpSaEmail(api.p.groupSaProject, group) {
        return Done;
      }
      var sent, _ := UpdateServiceAccount(nn, version, WithWorkloadIdentity(api.p, sa));
      return match sent case Accepted => Done case Conflict => Requeue case Failed => Error;
    }
  }

  /** The code is safe: whenever an API it talks to started from an initial state, what is stored
      at any moment between its calls satisfies finalizer safety, for every name whose own events
      were steady so far. */
  lemma CodeIsSafe(api: Api, nn: NamespacedName, ref: string)
    requires api.Valid() && Init(api.start) && Untitled(api.start, nn) && IsName(nn)
    requires Steady(api.p, api.start, api.trace, nn)
    requires HasTitle(BindingsAt(api.state, ref), Title(nn))
    ensures Current(api.state, nn).Some?
    ensures FINALIZER in Current(api.state, nn).value.finalizers
    ensures ref == RefOf(api.p, Current(api.state, nn).value)
  {
    FinalizerSafety(api.p, api.start, api.trace, nn, ref);
  }
}
