/** The IAM-probe suspend and revive protocol of one StatefulSet as a machine of atomic API calls.
    The StatefulSet and its probe Job each have a history of stored versions; a cached read may
    return any of them, and everyone else acts at any point
    (internal/controller/job_controller.go, internal/controller/statefulset_webhook.go). */
module ProbeMachine {
  import opened Options
  import opened Decimal
  import opened StatefulSets

  /** `probing`: a probe image is configured. */
  datatype Params = Params(probing: bool)

  /** A stored StatefulSet, with the replica count of the request that stored it; `scaled` says that
      its replicas have been set through the scale subresource since. */
  datatype Version = Version(sfs: Sfs, submitted: int, scaled: bool)

  /** A probe Job; `born` is the length of the StatefulSet's history when it was created. */
  datatype Job = Job(born: nat, finalizer: bool, completed: bool, deleting: bool)

  type History = h: seq<Option<Version>> | |h| > 0 witness [None]
  type Jobs = j: seq<Option<Job>> | |j| > 0 witness [None]

  /** The API call the Job reconciler makes next, with what it has read. */
  datatype Pc =
    | Idle
    | FetchSfs(jobVersion: nat, job: Job)
    | DeleteJob(jobVersion: nat, job: Job)
    | CreateConfigMap(jobVersion: nat, job: Job, version: nat, sfs: Sfs)
    | UpdateSfs(jobVersion: nat, job: Job, version: nat, sfs: Sfs)
    | DropFinalizer(jobVersion: nat, job: Job)

  datatype State = State(history: History, jobs: Jobs, configMap: bool, pc: Pc)

  datatype Event =
    // The Job reconciler.
    | ReadJob(jobVersion: nat)
    | ReadSfs(version: nat)
    | Call
    | Revive(admitted: Sfs)
    | Abort
    // Users and controllers. A submission passes the webhook, which may create the probe Job;
    // what is admitted may still fail to be stored.
    | Submit(submitted: Sfs, admitted: Sfs, launched: bool, stored: bool)
    // Writes to the status and scale subresources, which do not pass the webhook.
    | WriteStatus
    | Scale(replicas: int)
    | MarkDeleting
    | RemoveSfs
    | CompleteJob
    | RequestJobDeletion
    | PutConfigMap
    | RemoveConfigMap

  function LastVersion(h: History): Option<Version> {
    h[|h| - 1]
  }

  function Current(s: State): Option<Version> {
    LastVersion(s.history)
  }

  function CurrentJob(s: State): Option<Job> {
    s.jobs[|s.jobs| - 1]
  }

  /** The webhook may turn one object into the other: status and replicas follow its rule; the pod
      template may change in ways that do not matter here. */
  predicate AdmittedAs(p: Params, submitted: Sfs, admitted: Sfs) {
    var expected := AfterWebhook(p.probing, submitted);
    && admitted.name == submitted.name
    && admitted.deleting == expected.deleting
    && admitted.annotations == expected.annotations
    && admitted.replicas == expected.replicas
    && (!IsMutated(submitted) ==> admitted == submitted)
  }

  /** A deletion request: with a finalizer the object is only marked. */
  function DeleteRequested(job: Job): Option<Job> {
    if job.finalizer then Some(job.(deleting := true)) else None
  }

  /** What the API server keeps when the finalizer is dropped. */
  function Released(job: Job): Option<Job> {
    if job.deleting then None else Some(job.(finalizer := false))
  }

  predicate IsCurrent(s: State, version: nat) {
    version == |s.history| - 1 && s.history[version].Some?
  }

  predicate IsCurrentJob(s: State, jobVersion: nat) {
    jobVersion == |s.jobs| - 1 && s.jobs[jobVersion].Some?
  }

  /** Where the reconciler goes after reading the Job: only completed, finalized Jobs matter. */
  function AfterReadJob(jobVersion: nat, found: Option<Job>): Pc {
    if found.Some? && found.value.completed && found.value.finalizer
    then FetchSfs(jobVersion, found.value)
    else Idle
  }

  /** Where it goes after reading the StatefulSet. */
  function AfterReadSfs(jobVersion: nat, job: Job, version: nat, found: Option<Sfs>): Pc {
    match found
    case None => DeleteJob(jobVersion, job)
    case Some(sfs) =>
      if IsDone(sfs) then DropFinalizer(jobVersion, job)
      else if ServiceIndex(sfs) == |sfs.containers| then Idle
      else CreateConfigMap(jobVersion, job, version, sfs)
  }

  function SfsAt(s: State, version: nat): Option<Sfs>
    requires version < |s.history|
  {
    match s.history[version]
    case None => None
    case Some(v) => Some(v.sfs)
  }

  function ApplyCall(s: State): State {
    match s.pc
    case DeleteJob(_, _) =>
      if CurrentJob(s).None? then s.(pc := Idle)
      else s.(jobs := s.jobs + [DeleteRequested(CurrentJob(s).value)], pc := Idle)
    case CreateConfigMap(jobVersion, job, version, sfs) =>
      if s.configMap then s.(pc := Idle)
      else s.(configMap := true, pc := UpdateSfs(jobVersion, job, version, sfs))
    case DropFinalizer(jobVersion, job) =>
      if IsCurrentJob(s, jobVersion) then s.(jobs := s.jobs + [Released(job)], pc := Idle)
      else s.(pc := Idle)
    case _ => s
  }

  function ApplyRevive(s: State, admitted: Sfs): State
    requires s.pc.UpdateSfs?
  {
    if IsCurrent(s, s.pc.version)
    then s.(history := s.history + [Some(Version(admitted, admitted.replicas, false))],
            pc := DropFinalizer(s.pc.jobVersion, s.pc.job))
    else s.(pc := Idle)
  }

  function Apply(p: Params, s: State, e: Event): State
    requires Enabled(p, s, e)
  {
    match e
    case ReadJob(v) => s.(pc := AfterReadJob(v, s.jobs[v]))
    case ReadSfs(v) => s.(pc := AfterReadSfs(s.pc.jobVersion, s.pc.job, v, SfsAt(s, v)))
    case Call => ApplyCall(s)
    case Revive(admitted) => ApplyRevive(s, admitted)
    case Abort => s.(pc := Idle)
    case Submit(submitted, admitted, launched, stored) =>
      var s' := if launched then s.(jobs := s.jobs + [Some(Job(|s.history|, true, false, false))]) else s;
      if stored then s'.(history := s'.history + [Some(Version(admitted, submitted.replicas, false))]) else s'
    case WriteStatus => s.(history := s.history + [Current(s)])
    case Scale(replicas) =>
      var v := Current(s).value;
      s.(history := s.history + [Some(v.(sfs := v.sfs.(replicas := replicas), scaled := true))])
    case MarkDeleting =>
      var v := Current(s).value;
      s.(history := s.history + [Some(v.(sfs := v.sfs.(deleting := true)))])
    case RemoveSfs => s.(history := s.history + [None])
    case CompleteJob => s.(jobs := s.jobs + [Some(CurrentJob(s).value.(completed := true))])
    case RequestJobDeletion => s.(jobs := s.jobs + [DeleteRequested(CurrentJob(s).value)])
    case PutConfigMap => s.(configMap := true)
    case RemoveConfigMap => s.(configMap := false)
  }

  predicate Enabled(p: Params, s: State, e: Event) {
    match e
    case ReadJob(v) => s.pc.Idle? && v < |s.jobs|
    case ReadSfs(v) => s.pc.FetchSfs? && v < |s.history|
    case Call => s.pc.DeleteJob? || s.pc.CreateConfigMap? || s.pc.DropFinalizer?
    case Revive(admitted) =>
      && s.pc.UpdateSfs?
      && ServiceIndex(s.pc.sfs) < |s.pc.sfs.containers|
      && AdmittedAs(p, Revived(s.pc.sfs), admitted)
    case Abort => !s.pc.Idle?
    case Submit(submitted, admitted, launched, stored) =>
      && IsInt32(submitted.replicas)
      && submitted.deleting == (Current(s).Some? && Current(s).value.sfs.deleting)
      && AdmittedAs(p, submitted, admitted)
      // The webhook creates the Job if it suspends, and the create fails if there is one.
      && (launched ==> IsMutated(submitted) && p.probing && !IsDone(submitted) && CurrentJob(s).None?)
    case WriteStatus => Current(s).Some?
    case Scale(replicas) => Current(s).Some? && IsInt32(replicas)
    case MarkDeleting => Current(s).Some?
    case RemoveSfs => Current(s).Some?
    case CompleteJob => CurrentJob(s).Some?
    case RequestJobDeletion => CurrentJob(s).Some?
    case PutConfigMap => true
    case RemoveConfigMap => true
  }

  /** Neither the StatefulSet nor its Job has ever existed. */
  predicate Init(s: State) {
    s == State([None], [None], false, Idle)
  }

  predicate Legal(p: Params, s: State, run: seq<Event>)
    decreases |run|
  {
    run == [] || (Enabled(p, s, run[0]) && Legal(p, Apply(p, s, run[0]), run[1..]))
  }

  function Run(p: Params, s: State, run: seq<Event>): State
    requires Legal(p, s, run)
    decreases |run|
  {
    if run == [] then s else Run(p, Apply(p, s, run[0]), run[1..])
  }

  /** Runs compose. */
  lemma {:induction false} RunConcat(p: Params, s: State, a: seq<Event>, b: seq<Event>)
    requires Legal(p, s, a)
    ensures Legal(p, s, a + b) <==> Legal(p, Run(p, s, a), b)
    ensures Legal(p, s, a + b) ==> Run(p, s, a + b) == Run(p, Run(p, s, a), b)
    decreases |a|
  {
    if a == [] {
      assert a + b == b;
    } else {
      assert (a + b)[1..] == a[1..] + b;
      RunConcat(p, Apply(p, s, a[0]), a[1..], b);
    }
  }

  /** Prefixes of runs are runs. */
  lemma {:induction false} RunPrefix(p: Params, s: State, run: seq<Event>, k: nat)
    requires Legal(p, s, run) && k <= |run|
    ensures Legal(p, s, run[..k])
    decreases |run|
  {
    if k > 0 {
      RunPrefix(p, Apply(p, s, run[0]), run[1..], k - 1);
      assert run[..k][1..] == run[1..][..k - 1];
    }
  }

  lemma RunSnoc(p: Params, s: State, run: seq<Event>, e: Event)
    requires Legal(p, s, run) && Enabled(p, Run(p, s, run), e)
    ensures Legal(p, s, run + [e])
    ensures Run(p, s, run + [e]) == Apply(p, Run(p, s, run), e)
  {
    var t := Run(p, s, run);
    assert [e][1..] == [];
    assert Legal(p, Apply(p, t, e), []);
    RunConcat(p, s, run, [e]);
  }
}
