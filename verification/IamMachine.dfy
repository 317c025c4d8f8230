/** The ServiceAccount reconciliation protocol as a machine of atomic API calls. Any number of
    ServiceAccounts are reconciled concurrently, one reconcile at a time per name, against shared
    IAM policies, while users and other policy writers act at any point
    (internal/controller/serviceaccount_controller.go).

    A name's stored versions form a history; a resourceVersion is a position in it, and an absent
    object is a version too. An etag is a number that is never reused. */
module IamMachine {
  import opened Options
  import opened Text
  import opened ServiceAccounts
  import opened Validator
  import opened IamPolicy

  datatype Params = Params(groupSaProject: string, clusterProject: string, settings: Settings)

  type History = h: seq<Option<ServiceAccount>> | |h| > 0 witness [None]

  datatype Policy = Policy(etag: nat, bindings: seq<Binding>)

  /** The API call a reconcile makes next, with the version it holds and the policy it fetched. */
  datatype Pc =
    | Idle
    | AddFinalizer(version: nat, sa: ServiceAccount)
    | FetchToRemove(version: nat, sa: ServiceAccount)
    | WriteRemoval(version: nat, sa: ServiceAccount, fetched: Policy)
    | DropFinalizer(version: nat, sa: ServiceAccount)
    | FetchToBind(version: nat, sa: ServiceAccount)
    | WriteBinding(version: nat, sa: ServiceAccount, fetched: Policy)
    | Annotate(version: nat, sa: ServiceAccount)

  /** `floor` is the version the reconciler has read last. */
  datatype Account = Account(history: History, floor: nat, pc: Pc)

  datatype State = State(accounts: map<NamespacedName, Account>, policies: map<string, Policy>, nextEtag: nat)

  datatype Event =
    // The reconciler of a name: it reads a version, makes its next call, or gives up on an error.
    | Read(nn: NamespacedName, version: nat)
    | Call(nn: NamespacedName)
    | Abort(nn: NamespacedName)
    // Users and other controllers.
    | Create(nn: NamespacedName, sa: ServiceAccount)
    | Edit(nn: NamespacedName, sa: ServiceAccount)
    | Delete(nn: NamespacedName)
    // Other writers of IAM policies.
    | CreatePolicy(ref: string, bindings: seq<Binding>)
    | EditPolicy(ref: string, bindings: seq<Binding>)
    | DeletePolicy(ref: string)

  const NEVER_CREATED := Account([None], 0, Idle)

  function At(s: State, nn: NamespacedName): Account {
    if nn in s.accounts then s.accounts[nn] else NEVER_CREATED
  }

  function Current(s: State, nn: NamespacedName): Option<ServiceAccount> {
    Last(At(s, nn).history)
  }

  function Last(h: History): Option<ServiceAccount> {
    h[|h| - 1]
  }

  function Put(s: State, nn: NamespacedName, a: Account): State {
    s.(accounts := s.accounts[nn := a])
  }

  function PutPolicy(s: State, ref: string, bindings: seq<Binding>): State {
    s.(policies := s.policies[ref := Policy(s.nextEtag, bindings)], nextEtag := s.nextEtag + 1)
  }

  function BindingsAt(s: State, ref: string): seq<Binding> {
    if ref in s.policies then s.policies[ref].bindings else []
  }

  /** The policy of the group a ServiceAccount asks for. */
  function RefOf(p: Params, sa: ServiceAccount): string {
    GcpSaRef(p.groupSaProject, if GroupOf(sa).Some? then GroupOf(sa).value else "")
  }

  function EmailOf(p: Params, sa: ServiceAccount): string {
    GcpSaEmail(p.groupSaProject, if GroupOf(sa).Some? then GroupOf(sa).value else "")
  }

  /** What the API server keeps: a deleting object without finalizers disappears. */
  function Stored(sa: ServiceAccount): Option<ServiceAccount> {
    if sa.deleting && sa.finalizers == {} then None else Some(sa)
  }

  function Append(a: Account, sa: ServiceAccount): Account {
    a.(history := a.history + [Stored(sa)])
  }

  /** An update carrying this version is not a conflict. */
  predicate IsCurrent(a: Account, version: nat) {
    version == |a.history| - 1 && a.history[version].Some?
  }

  /** A policy write carrying this etag is not a conflict. */
  predicate EtagMatches(s: State, ref: string, fetched: Policy) {
    ref in s.policies && s.policies[ref].etag == fetched.etag
  }

  /** The condition of the binding; None when the requested duration cannot be parsed. The instant
      is cut to whole seconds, as the date-time format of section 5.6 of RFC 3339 without a
      fraction does. */
  function ExpressionFor(settings: Settings, sa: ServiceAccount): Option<Expression> {
    var duration := Lookup(sa.annotations, REQUESTED_DURATION);
    if duration == "" then Some(Always)
    else match settings.parseDuration(duration)
         case None => None
         case Some(d) => Some(Until((sa.created * SECOND + d) / SECOND))
  }

  /** The requested duration is there but cannot be read. */
  predicate Unreadable(settings: Settings, sa: ServiceAccount) {
    var text := Lookup(sa.annotations, REQUESTED_DURATION);
    text != "" && settings.parseDuration(text).None?
  }

  /** What the expression of a binding has to say for a version: without a requested duration it is
      always true, and with one it ends in the second in which creation plus duration falls. */
  ghost predicate Grants(settings: Settings, sa: ServiceAccount, e: Expression) {
    var text := Lookup(sa.annotations, REQUESTED_DURATION);
    if text == "" then e.Always?
    else
      var duration := settings.parseDuration(text);
      && duration.Some? && e.Until?
      && e.second * SECOND <= sa.created * SECOND + duration.value < (e.second + 1) * SECOND
  }

  /** The expression for a version is the only one that says so; there is none exactly if the duration
      cannot be read. */
  lemma ExpressionForIff(settings: Settings, sa: ServiceAccount, e: Expression)
    ensures ExpressionFor(settings, sa) == Some(e) <==> Grants(settings, sa, e)
    ensures ExpressionFor(settings, sa).None? <==> Unreadable(settings, sa)
  {
    var text := Lookup(sa.annotations, REQUESTED_DURATION);
    if text != "" && settings.parseDuration(text).Some? {
      var instant := sa.created * SECOND + settings.parseDuration(text).value;
      assert instant / SECOND * SECOND <= instant < (instant / SECOND + 1) * SECOND;
      if Grants(settings, sa, e) {
        SameSecond(instant, instant / SECOND, e.second);
      }
    }
  }

  lemma SameSecond(instant: int, a: int, b: int)
    requires a * SECOND <= instant < (a + 1) * SECOND
    requires b * SECOND <= instant < (b + 1) * SECOND
    ensures a == b
  {
  }

  function Wanted(p: Params, nn: NamespacedName, expression: Expression): Binding {
    Binding(WI_ROLE, [K8sSaRef(p.clusterProject, nn)], Title(nn), expression, "")
  }

  function WithFinalizer(sa: ServiceAccount): ServiceAccount {
    sa.(finalizers := sa.finalizers + {FINALIZER})
  }

  function WithoutFinalizer(sa: ServiceAccount): ServiceAccount {
    sa.(finalizers := sa.finalizers - {FINALIZER})
  }

  function WithWorkloadIdentity(p: Params, sa: ServiceAccount): ServiceAccount {
    sa.(annotations := sa.annotations[WORKLOAD_IDENTITY := EmailOf(p, sa)])
  }

  /** Where a reconcile goes after reading a version. */
  function AfterRead(version: nat, sa: ServiceAccount): Pc {
    if GroupOf(sa).None? then Idle
    else if !sa.deleting then
      if FINALIZER in sa.finalizers then FetchToBind(version, sa) else AddFinalizer(version, sa)
    else
      if FINALIZER in sa.finalizers then FetchToRemove(version, sa) else Idle
  }

  /** Where a reconcile goes once the binding is in order. */
  function AfterBinding(p: Params, version: nat, sa: ServiceAccount): Pc {
    if Lookup(sa.annotations, WORKLOAD_IDENTITY) == EmailOf(p, sa) then Idle else Annotate(version, sa)
  }

  /** The policy an IAM fetch returns, None for a Google service account that does not exist. */
  function Fetched(s: State, ref: string): Option<Policy> {
    if ref in s.policies then Some(s.policies[ref]) else None
  }

  function AfterFetchToRemove(found: Option<Policy>, nn: NamespacedName, version: nat, sa: ServiceAccount): Pc {
    if found.None? || !HasTitle(found.value.bindings, Title(nn)) then DropFinalizer(version, sa)
    else WriteRemoval(version, sa, found.value)
  }

  function AfterFetchToBind(p: Params, found: Option<Policy>, nn: NamespacedName, version: nat,
                            sa: ServiceAccount): Pc {
    if found.None? then AfterBinding(p, version, sa)
    else match ExpressionFor(p.settings, sa)
         case None => Idle
         case Some(expression) =>
           if InOrder(found.value.bindings, Wanted(p, nn, expression)) then AfterBinding(p, version, sa)
           else WriteBinding(version, sa, found.value)
  }

  /** The next API call of the reconcile of `nn`. A conflicting write ends the reconcile. */
  function ApplyCall(p: Params, s: State, nn: NamespacedName): State {
    var a := At(s, nn);
    match a.pc
    case Idle => s
    case AddFinalizer(version, sa) =>
      if IsCurrent(a, version)
      then Put(s, nn, Append(a, WithFinalizer(sa)).(pc := FetchToBind(|a.history|, WithFinalizer(sa))))
      else Put(s, nn, a.(pc := Idle))
    case FetchToRemove(version, sa) =>
      Put(s, nn, a.(pc := AfterFetchToRemove(Fetched(s, RefOf(p, sa)), nn, version, sa)))
    case WriteRemoval(version, sa, fetched) =>
      if EtagMatches(s, RefOf(p, sa), fetched)
      then PutPolicy(Put(s, nn, a.(pc := DropFinalizer(version, sa))), RefOf(p, sa),
           Others(fetched.bindings, Title(nn)))
      else Put(s, nn, a.(pc := Idle))
    case DropFinalizer(version, sa) =>
      if IsCurrent(a, version)
      then Put(s, nn, Append(a, WithoutFinalizer(sa)).(pc := Idle))
      else Put(s, nn, a.(pc := Idle))
    case FetchToBind(version, sa) =>
      Put(s, nn, a.(pc := AfterFetchToBind(p, Fetched(s, RefOf(p, sa)), nn, version, sa)))
    case WriteBinding(version, sa, fetched) =>
      if EtagMatches(s, RefOf(p, sa), fetched) && ExpressionFor(p.settings, sa).Some?
      then PutPolicy(Put(s, nn, a.(pc := AfterBinding(p, version, sa))), RefOf(p, sa),
                     Ensure(fetched.bindings, Wanted(p, nn, ExpressionFor(p.settings, sa).value)))
      else Put(s, nn, a.(pc := Idle))
    case Annotate(version, sa) =>
      if IsCurrent(a, version)
      then Put(s, nn, Append(a, WithWorkloadIdentity(p, sa)).(pc := Idle))
      else Put(s, nn, a.(pc := Idle))
  }

  function Apply(p: Params, s: State, e: Event): State
    requires Enabled(p, s, e)
  {
    match e
    case Read(nn, version) =>
      var a := At(s, nn).(floor := version);
      Put(s, nn, match a.history[version]
                 case None => a
                 case Some(sa) => a.(pc := AfterRead(version, sa)))
    case Call(nn) => ApplyCall(p, s, nn)
    case Abort(nn) => Put(s, nn, At(s, nn).(pc := Idle))
    case Create(nn, sa) => Put(s, nn, Append(At(s, nn), sa))
    case Edit(nn, sa) => Put(s, nn, Append(At(s, nn), sa))
    case Delete(nn) =>
      var sa := Current(s, nn).value;
      if sa.deleting then s else Put(s, nn, Append(At(s, nn), sa.(deleting := true)))
    case CreatePolicy(ref, bindings) => PutPolicy(s, ref, bindings)
    case EditPolicy(ref, bindings) => PutPolicy(s, ref, bindings)
    case DeletePolicy(ref) => s.(policies := s.policies - {ref})
  }

  /** The validating webhook admits this object for some answer of the group directory. */
  predicate Admissible(p: Params, sa: ServiceAccount) {
    Decide(p.settings, Some(true), sa).Admits()
  }

  /** Edits by others: identity, creation time and deletion mark do not change; no finalizer is added
      while deleting; the webhook is passed. */
  predicate EditAllowed(p: Params, before: ServiceAccount, after: ServiceAccount) {
    && after.id == before.id
    && after.created == before.created
    && after.deleting == before.deleting
    && (before.deleting ==> after.finalizers <= before.finalizers)
    && Admissible(p, after)
  }

  predicate Enabled(p: Params, s: State, e: Event) {
    match e
    case Read(nn, version) =>
      // A cached read may return any stored version.
      IsName(nn) && At(s, nn).pc.Idle? && version < |At(s, nn).history|
    case Call(nn) => IsName(nn) && !At(s, nn).pc.Idle?
    case Abort(nn) => IsName(nn) && !At(s, nn).pc.Idle?
    case Create(nn, sa) =>
      IsName(nn) && Current(s, nn).None? && sa.id == nn && !sa.deleting && Admissible(p, sa)
    case Edit(nn, sa) => IsName(nn) && Current(s, nn).Some? && EditAllowed(p, Current(s, nn).value, sa)
    case Delete(nn) => IsName(nn) && Current(s, nn).Some?
    case CreatePolicy(ref, bindings) => ref !in s.policies
    case EditPolicy(ref, bindings) => ref in s.policies
    case DeletePolicy(ref) => ref in s.policies
  }

  /** No ServiceAccount has been created yet; policies may hold any bindings. */
  ghost predicate Init(s: State) {
    && s.accounts == map[]
    && (forall ref | ref in s.policies :: s.policies[ref].etag < s.nextEtag)
  }

  /** Every event of the run is enabled when it happens. */
  predicate Legal(p: Params, s: State, run: seq<Event>)
    decreases |run|
  {
    run == [] || (Enabled(p, s, run[0]) && Legal(p, Apply(p, s, run[0]), run[1..]))
  }

  function Run(p: Params, s: State, run: seq<Event>): State
    requires Legal(p, s, run)
    decreases |run|
  {
    if run == [] then s else Run(p, Apply(p, s, run[0]), run[1..])
  }

  /** Runs compose. */
  lemma {:induction false} RunConcat(p: Params, s: State, a: seq<Event>, b: seq<Event>)
    requires Legal(p, s, a)
    ensures Legal(p, s, a + b) <==> Legal(p, Run(p, s, a), b)
    ensures Legal(p, s, a + b) ==> Run(p, s, a + b) == Run(p, Run(p, s, a), b)
    decreases |a|
  {
    if a == [] {
      assert a + b == b;
    } else {
      assert (a + b)[1..] == a[1..] + b;
      RunConcat(p, Apply(p, s, a[0]), a[1..], b);
    }
  }

  /** One more enabled event makes a longer run. */
  lemma RunSnoc(p: Params, s: State, run: seq<Event>, e: Event)
    requires Legal(p, s, run) && Enabled(p, Run(p, s, run), e)
    ensures Legal(p, s, run + [e])
    ensures Run(p, s, run + [e]) == Apply(p, Run(p, s, run), e)
  {
    var t := Run(p, s, run);
    assert [e][1..] == [];
    assert Legal(p, Apply(p, t, e), []);
    RunConcat(p, s, run, [e]);
  }

  /** Prefixes of runs are runs, and the next event leads from one to the next. */
  lemma {:induction false} RunPrefix(p: Params, s: State, run: seq<Event>, k: nat)
    requires Legal(p, s, run) && k <= |run|
    ensures Legal(p, s, run[..k])
    ensures k < |run| ==> && Legal(p, s, run[..k + 1])
                          && Enabled(p, Run(p, s, run[..k]), run[k])
                          && Run(p, s, run[..k + 1]) == Apply(p, Run(p, s, run[..k]), run[k])
    decreases |run|
  {
    if k > 0 {
      RunPrefix(p, Apply(p, s, run[0]), run[1..], k - 1);
      assert run[..k][1..] == run[1..][..k - 1];
      if k < |run| {
        assert run[..k + 1][1..] == run[1..][..k];
      }
    } else if run != [] {
      assert run[..1] == [run[0]];
      assert [run[0]][1..] == [];
    }
  }
}
