/** The Job reconciler's code: it edits the StatefulSet it has read in place and makes its API calls
    one after the other. Every call may fail and others may act between any two calls; each call is
    shown to be a step of the machine (internal/controller/job_controller.go). */
module JobReconciler {
  import opened Options
  import opened Text
  import opened Decimal
  import opened Buckets
  import opened StatefulSets
  import opened ProbeMachine
  import opened ProbeTheorems
  import opened ProbeRuns

  /** A StatefulSet as decoded from the API. */
  class StatefulSetObject {
    const name: string
    const deleting: bool
    var annotations: map<string, string>
    var replicas: int
    var volumes: seq<Volume>
    var containers: seq<PodContainer>

    constructor (sfs: Sfs)
      ensures View() == sfs
    {
      name, deleting, annotations := sfs.name, sfs.deleting, sfs.annotations;
      replicas, volumes, containers := sfs.replicas, sfs.volumes, sfs.containers;
    }

    function View(): Sfs
      reads this
    {
      Sfs(name, deleting, annotations, replicas, volumes, containers)
    }
  }

  datatype Outcome = Done | Requeue | Error

  datatype Sent = Accepted | Conflict | NotFound | Failed

  /** How an update leaves the reconcile that sent it, if that ends with it. */
  function AfterSent(sent: Sent): Outcome {
    match sent
    case Accepted => Done
    case Conflict => Requeue
    case NotFound => Error
    case Failed => Error
  }

  datatype JobRead = JobFailed | JobMissing | JobFound(version: nat, job: Job)
  datatype SfsRead = SfsFailed | SfsMissing | SfsFound(version: nat, sfs: StatefulSetObject)

  /** How an event of the reconciler leaves its reconcile, if it ends it. A conflict asks for another
      reconcile at once; a missing service container, a ConfigMap that is there already, a failed
      call and an update of something that is gone are errors. */
  function EndOf(p: Params, s: State, e: Event): Outcome
    requires Enabled(p, s, e)
  {
    match e
    case Abort => Error
    case ReadSfs(v) =>
      var found := SfsAt(s, v);
      if found.Some? && !IsDone(found.value) && ServiceIndex(found.value) == |found.value.containers|
      then Error else Done
    case Call =>
      (match s.pc
       case CreateConfigMap(_, _, _, _) => if s.configMap then Error else Done
       case DropFinalizer(jobVersion, _) =>
         if IsCurrentJob(s, jobVersion) then Done else if CurrentJob(s).Some? then Requeue else Error
       case _ => Done)
    case Revive(_) => if IsCurrent(s, s.pc.version) then Done else if Current(s).Some? then Requeue else Error
    case _ => Done
  }

  /** Said by what the event does: a write is done exactly if it takes effect, and one that takes none,
      although its object is there, asks for another reconcile; but creating a ConfigMap that is there
      is an error, and so is a suspended StatefulSet without its service container. */
  lemma EndMeans(p: Params, s: State, e: Event)
    requires Enabled(p, s, e)
    ensures var t, pc := Apply(p, s, e), s.pc;
            && (e.ReadJob? ==> EndOf(p, s, e).Done?)
            && (e.Abort? ==> EndOf(p, s, e).Error?)
            && (e.ReadSfs? ==>
                  (EndOf(p, s, e).Done? <==> t.pc.DeleteJob? || t.pc.DropFinalizer? || t.pc.CreateConfigMap?)
                  && !EndOf(p, s, e).Requeue?)
            && (e.Call? && pc.DeleteJob? ==> EndOf(p, s, e).Done?)
            && (e.Call? && pc.CreateConfigMap? ==> EndOf(p, s, e) == if s.configMap then Error else Done)
            && (e.Call? && pc.DropFinalizer? ==>
                  && (EndOf(p, s, e).Done? <==> |t.jobs| == |s.jobs| + 1)
                  && (EndOf(p, s, e).Requeue? <==> |t.jobs| == |s.jobs| && CurrentJob(s).Some?))
            && (e.Revive? ==>
                  && (EndOf(p, s, e).Done? <==> |t.history| == |s.history| + 1)
                  && (EndOf(p, s, e).Requeue? <==> |t.history| == |s.history| && Current(s).Some?))
  {
  }

  /** The steps of the Job reconciler. */
  predicate IsOwn(e: Event) {
    e.ReadJob? || e.ReadSfs? || e.Call? || e.Revive? || e.Abort?
  }

  predicate NoneOwn(run: seq<Event>) {
    forall e | e in run :: !IsOwn(e)
  }

  /** Others never move the reconciler and only add versions. */
  lemma {:induction false} OthersKeepPc(p: Params, s: State, run: seq<Event>)
    requires Legal(p, s, run) && NoneOwn(run)
    ensures Run(p, s, run).pc == s.pc
    ensures s.history <= Run(p, s, run).history && s.jobs <= Run(p, s, run).jobs
    decreases |run|
  {
    if run != [] {
      assert !IsOwn(run[0]);
      OthersKeepPc(p, Apply(p, s, run[0]), run[1..]);
    }
  }

  /** The API server; when `quiet`, nobody else acts, no call fails and reads are up to date. */
  class Api {
    const p: Params
    const quiet: bool
    var state: State
    ghost const start: State
    ghost var trace: seq<Event>

    ghost predicate Valid()
      reads this
    {
      Legal(p, start, trace) && state == Run(p, start, trace)
    }

    /** How the last event of the run, if it is one of the reconciler, leaves the reconcile. */
    ghost function End(): Option<Outcome>
      requires Valid()
      reads this
    {
      var k := |trace| - 1;
      if trace == [] || !IsOwn(trace[k]) then None
      else
        RunPrefix(p, start, trace, k);
        assert trace == trace[..k] + [trace[k]];
        RunConcat(p, start, trace[..k], [trace[k]]);
        Some(EndOf(p, Run(p, start, trace[..k]), trace[k]))
    }

    constructor (p: Params, quiet: bool, state: State)
      ensures Valid() && this.p == p && this.quiet == quiet && this.state == state
      ensures start == state && trace == []
    {
      this.p, this.quiet, this.state := p, quiet, state;
      start, trace := state, [];
    }

    method Happen(e: Event)
      requires Valid() && Enabled(p, state, e)
      modifies this
      ensures Valid() && trace == old(trace) + [e] && state == Apply(p, old(state), e)
      ensures IsOwn(e) ==> End() == Some(EndOf(p, old(state), e))
    {
      RunSnoc(p, start, trace, e);
      state := Apply(p, state, e);
      trace := trace + [e];
      assert trace[..|trace| - 1] == old(trace);
    }

    /** Other parties act. */
    method Interfere()
      requires Valid()
      modifies this
      ensures Valid() && old(trace) <= trace && NoneOwn(trace[|old(trace)|..])
      ensures state.pc == old(state.pc)
      ensures quiet ==> state == old(state)
    {
      if !quiet {
        assert Legal(p, state, []) && NoneOwn([]);
        var run: seq<Event> :| Legal(p, state, run) && NoneOwn(run);
        OthersKeepPc(p, state, run);
        RunConcat(p, start, trace, run);
        state := Run(p, state, run);
        trace := trace + run;
      }
    }

    method MayFail() returns (fails: bool)
      ensures quiet ==> !fails
    {
      fails := *;
      fails := fails && !quiet;
    }

    /** Reads a cached version of the Job. */
    method GetJob() returns (r: JobRead)
      requires Valid() && state.pc.Idle?
      modifies this
      ensures Valid() && old(trace) <= trace
      ensures state.pc == if r.JobFound? then AfterReadJob(r.version, Some(r.job)) else Idle
      ensures if r.JobFailed? then NoneOwn(trace[|old(trace)|..]) else End() == Some(Done)
      ensures quiet ==> !r.JobFailed? && state == Apply(p, old(state), ReadJob(|old(state).jobs| - 1))
    {
      Interfere();
      var fails := MayFail();
      if fails {
        return JobFailed;
      }
      var version := |state.jobs| - 1;
      if !quiet {
        version :| 0 <= version < |state.jobs|;
      }
      var found := state.jobs[version];
      Happen(ReadJob(version));
      match found
      case None => return JobMissing;
      case Some(job) => return JobFound(version, job);
    }

    /** Reads a cached version of the StatefulSet. */
    method GetSfs() returns (r: SfsRead)
      requires Valid() && state.pc.FetchSfs?
      modifies this
      ensures Valid() && old(trace) <= trace
      ensures r.SfsFound? ==>
                && fresh(r.sfs)
                && state.pc == AfterReadSfs(old(state.pc).jobVersion, old(state.pc).job, r.version, Some(r.sfs.View()))
      ensures r.SfsMissing? ==> state.pc == DeleteJob(old(state.pc).jobVersion, old(state.pc).job)
      ensures r.SfsFailed? ==> state.pc == Idle && !quiet && End() == Some(Error)
      ensures r.SfsFound? && state.pc.Idle? ==> End() == Some(Error)
      ensures quiet ==> state == Apply(p, old(state), ReadSfs(|old(state).history| - 1))
      ensures quiet && r.SfsFound? ==>
                && IsCurrent(old(state), r.version) && Current(old(state)).value.sfs == r.sfs.View()
      ensures quiet && r.SfsMissing? ==> Current(old(state)).None?
    {
      Interfere();
      var fails := MayFail();
      if fails {
        Happen(Abort);
        return SfsFailed;
      }
      var version := |state.history| - 1;
      if !quiet {
        version :| 0 <= version < |state.history|;
      }
      var found := SfsAt(state, version);
      Happen(ReadSfs(version));
      match found
      case None => return SfsMissing;
      case Some(sfs) =>
        var sfsObject := new StatefulSetObject(sfs);
        return SfsFound(version, sfsObject);
    }

    /** Requests the deletion of the Job. */
    method RequestDeletion() returns (sent: Sent)
      requires Valid() && state.pc.DeleteJob?
      modifies this
      ensures Valid() && old(trace) <= trace && state.pc.Idle?
      ensures End() == Some(if sent.Failed? then Error else Done) && (quiet ==> !sent.Failed?)
      ensures quiet ==> state == ApplyCall(old(state))
    {
      Interfere();
      var fails := MayFail();
      if fails {
        Happen(Abort);
        return Failed;
      }
      sent := if CurrentJob(state).None? then NotFound else Accepted;
      Happen(Call);
    }

    /** Creates the refresh ConfigMap, which fails if it is there. */
    method Create() returns (ok: bool)
      requires Valid() && state.pc.CreateConfigMap?
      modifies this
      ensures Valid() && old(trace) <= trace
      ensures ok ==>
                var was := old(state.pc);
                state.pc == UpdateSfs(was.jobVersion, was.job, was.version, was.sfs)
      ensures !ok ==> state.pc == Idle
      ensures !ok ==> End() == Some(Error)
      ensures quiet ==> ok == !old(state.configMap) && state == ApplyCall(old(state))
    {
      Interfere();
      var fails := MayFail();
      if fails {
        Happen(Abort);
        return false;
      }
      ok := !state.configMap;
      Happen(Call);
    }

    /** Sends the revived StatefulSet, which passes the webhook. */
    method Update(sfs: StatefulSetObject) returns (sent: Sent, ghost revived: Sfs)
      requires Valid() && state.pc.UpdateSfs?
      requires ServiceIndex(state.pc.sfs) < |state.pc.sfs.containers| && sfs.View() == Revived(state.pc.sfs)
      modifies this
      ensures Valid() && old(trace) <= trace
      ensures state.pc == if sent.Accepted? then DropFinalizer(old(state.pc).jobVersion, old(state.pc).job) else Idle
      ensures End() == Some(AfterSent(sent))
      ensures quiet && IsCurrent(old(state), old(state.pc).version) ==> sent.Accepted?
      ensures quiet ==> AdmittedAs(p, Revived(old(state.pc).sfs), revived) && state == ApplyRevive(old(state), revived)
    {
      Interfere();
      var fails := MayFail();
      if fails {
        Happen(Abort);
        return Failed, sfs.View();
      }
      RevivedPassesWebhook(p.probing, state.pc.sfs);
      assert AdmittedAs(p, sfs.View(), sfs.View());
      var admitted :| AdmittedAs(p, sfs.View(), admitted);
      revived := admitted;
      sent := if IsCurrent(state, state.pc.version) then Accepted
              else if Current(state).Some? then Conflict
              else NotFound;
      Happen(Revive(admitted));
    }

    /** Sends the Job without the finalizer. */
    method UpdateJob(version: nat, job: Job) returns (sent: Sent)
      requires Valid() && state.pc.DropFinalizer?
      requires version == state.pc.jobVersion && job == state.pc.job.(finalizer := false)
      modifies this
      ensures Valid() && old(trace) <= trace && state.pc.Idle?
      ensures End() == Some(AfterSent(sent))
      ensures quiet && IsCurrentJob(old(state), version) ==> sent.Accepted?
      ensures quiet ==> state == ApplyCall(old(state))
    {
      Interfere();
      var fails := MayFail();
      if fails {
        Happen(Abort);
        return Failed;
      }
      sent := if IsCurrentJob(state, version) then Accepted else if CurrentJob(state).Some? then Conflict else NotFound;
      Happen(Call);
    }
  }

  /** An object the webhook may make of the update that revives this version. */
  predicate IsUpdateOf(p: Params, found: Option<Version>, revived: Option<Sfs>) {
    revived.Some? ==>
      && found.Some? && ServiceIndex(found.value.sfs) < |found.value.sfs.containers|
      && AdmittedAs(p, Revived(found.value.sfs), revived.value)
  }

  class Reconciler {
    const api: Api

    constructor (api: Api)
      ensures this.api == api
    {
      this.api := api;
    }

    /** Drops the finalizer from the Job. */
    method DropJobFinalizer(version: nat, job: Job) returns (outcome: Outcome)
      requires api.Valid() && api.state.pc == DropFinalizer(version, job)
      modifies api
      ensures api.Valid() && old(api.trace) <= api.trace && api.state.pc.Idle?
      ensures api.End() == Some(outcome)
      ensures api.quiet && IsCurrentJob(old(api.state), version) ==> outcome.Done?
      ensures api.quiet ==> api.state == ApplyCall(old(api.state))
    {
      var sent := api.UpdateJob(version, job.(finalizer := false));
      return AfterSent(sent);
    }

    /** Status and replicas are set on the object before the service container is looked up. */
    method Restore(sfs: StatefulSetObject)
      modifies sfs
      ensures sfs.View() == Restored(old(sfs.View()))
    {
      var replicas := Parse(TrimPrefix(Lookup(sfs.annotations, PROBE_STATUS), RUNNING_PREFIX));
      sfs.replicas := if replicas.Some? then ToInt32(replicas.value) else 1;
      sfs.annotations := sfs.annotations[PROBE_STATUS := DONE];
    }

    /** The refresh volume, and its mount in the service container. */
    method AddRefresh(sfs: StatefulSetObject, k: nat)
      requires k < |sfs.containers|
      modifies sfs
      ensures sfs.View() == old(sfs.View()).(
                volumes := old(sfs.volumes) + [RefreshVolume(old(sfs.View()))],
                containers := old(sfs.containers)[
                  k := old(sfs.containers[k]).(mounts := old(sfs.containers[k]).mounts + [RefreshMount()])])
    {
      sfs.volumes := sfs.volumes + [RefreshVolume(sfs.View())];
      var c := sfs.containers[k];
      sfs.containers := sfs.containers[k := c.(mounts := c.mounts + [RefreshMount()])];
    }

    /** One reconcile. Whatever others do meanwhile, it makes only steps of the machine and ends;
        undisturbed it does what `Undisturbed` says, for some object the webhook makes of its update. */
    method Reconcile() returns (outcome: Outcome, ghost revived: Option<Sfs>)
      requires api.Valid() && api.state.pc.Idle?
      modifies api
      ensures api.Valid() && old(api.trace) <= api.trace && api.state.pc.Idle?
      // It returns what its last event calls for; a failed read of the Job leaves no event.
      ensures || api.End() == Some(outcome)
              || (outcome.Error? && !api.quiet && NoneOwn(api.trace[|old(api.trace)|..]))
      ensures api.quiet ==>
                && api.state == Undisturbed(old(api.state), revived)
                && IsUpdateOf(api.p, Current(old(api.state)), revived)
      // Only a suspended StatefulSet that cannot be revived is an error then.
      ensures api.quiet ==>
                outcome == if Completed(old(api.state)) && Hopeless(old(api.state)) then Error else Done
      // A completed Job of a StatefulSet that is gone is marked for deletion.
      ensures api.quiet && Completed(old(api.state)) && Current(old(api.state)).None? ==>
                CurrentJob(api.state) == Some(CurrentJob(old(api.state)).value.(deleting := true))
    {
      revived := None;
      var j := api.GetJob();
      if !j.JobFound? {
        return if j.JobFailed? then Error else Done, None;
      }
      if !j.job.completed || !j.job.finalizer {
        return Done, None;
      }
      outcome, revived := HandleJob(j.version, j.job);
      MissingMarksJob(old(api.state), revived);
    }

    /** The rest of a reconcile, once a completed Job with the finalizer has been read. */
    method HandleJob(jobVersion: nat, job: Job) returns (outcome: Outcome, ghost revived: Option<Sfs>)
      requires api.Valid() && api.state.pc == FetchSfs(jobVersion, job)
      modifies api
      ensures api.Valid() && old(api.trace) <= api.trace && api.state.pc.Idle?
      ensures api.End() == Some(outcome)
      ensures api.quiet ==>
                && api.state == FinishCalls(FoundSfs(old(api.state)), revived)
                && IsUpdateOf(api.p, Current(old(api.state)), revived)
      ensures api.quiet && IsCurrentJob(old(api.state), jobVersion) ==>
                outcome == if Hopeless(old(api.state)) then Error else Done
    {
      var r := api.GetSfs();
      if r.SfsFailed? {
        return Error, None;
      }
      assert api.quiet ==> api.state == FoundSfs(old(api.state));
      if r.SfsMissing? {
        var deleted := api.RequestDeletion();
        return if deleted.Failed? then Error else Done, None;
      }
      var sfs := r.sfs;
      if Lookup(sfs.annotations, PROBE_STATUS) == StatefulSets.DONE {
        revived := None;
        outcome := DropJobFinalizer(jobVersion, job);
        return;
      }
      outcome, revived := Revive(sfs, jobVersion, job, r.version);
    }

    /** The rest of a reconcile, once a StatefulSet that is not done has been read. */
    method Revive(sfs: StatefulSetObject, jobVersion: nat, job: Job, version: nat)
      returns (outcome: Outcome, ghost revived: Option<Sfs>)
      requires api.Valid() && !IsDone(sfs.View())
      requires api.state.pc == AfterReadSfs(jobVersion, job, version, Some(sfs.View()))
      requires api.state.pc.Idle? ==> api.End() == Some(Error)
      modifies api, sfs
      ensures api.Valid() && old(api.trace) <= api.trace && api.state.pc.Idle?
      ensures api.End() == Some(outcome)
      ensures api.quiet && IsCurrentJob(old(api.state), jobVersion) && IsCurrent(old(api.state), version) ==>
                outcome == if old(api.state.configMap) || old(api.state.pc.Idle?) then Error else Done
      ensures api.quiet ==>
                && api.state == FinishCalls(old(api.state), revived)
                && IsUpdateOf(api.p, Some(Version(old(sfs.View()), 0, false)), revived)
    {
      ghost var readSfs := sfs.View();
      revived := None;
      StatusKeyDiffers();
      Restore(sfs);
      var k := IndexOfContainer(sfs.containers, Lookup(sfs.annotations, SERVICE_CONTAINER));
      assert k == ServiceIndex(readSfs);
      if k == |sfs.containers| {
        return Error, None;
      }
      var created := api.Create();
      if !created {
        return Error, None;
      }
      AddRefresh(sfs, k);
      assert sfs.View() == Revived(readSfs);
      var sent; ghost var admitted;
      sent, admitted := api.Update(sfs);
      revived := Some(admitted);
      if !sent.Accepted? {
        return AfterSent(sent), revived;
      }
      outcome := DropJobFinalizer(jobVersion, job);
    }
  }

  /** The code is safe: at any moment, a Job of the API it talks to that it has let go of means that a
      `done` version was stored; if its reads for the Job were fresh, at or after the Job's creation,
      or as the last version before. */
  lemma CodeIsSafe(api: Api, j: nat)
    requires api.Valid() && Init(api.start)
    requires j < |api.state.jobs| && api.state.jobs[j].Some? && LetGo(api.state, j)
    ensures DoneSince(api.state.history, 0)
    ensures var born := api.state.jobs[j].value.born;
            FreshRun(api.p, api.start, api.trace, born) ==>
              DoneAt(api.state.history, born - 1) || DoneSince(api.state.history, born)
  {
    JobFinalizerSafety(api.p, api.start, api.trace, j);
  }
}
