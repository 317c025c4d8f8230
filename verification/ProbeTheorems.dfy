/** The guarantees of the suspend and revive protocol, over all runs. */
module ProbeTheorems {
  import opened Options
  import opened Decimal
  import opened StatefulSets
  import opened ProbeMachine

  /** A version with status `done` was stored at or after the given position. */
  ghost predicate DoneSince(h: History, from: nat) {
    exists i :: from <= i < |h| && h[i].Some? && IsDone(h[i].value.sfs)
  }

  /** The reads of the StatefulSet made for a Job with this creation time use a cache that is no older
      than the creation of the Job: the last version stored by then, or a later one. */
  predicate FreshRun(p: Params, s: State, run: seq<Event>, born: nat)
    requires Legal(p, s, run)
    decreases |run|
  {
    run == []
    || ((run[0].ReadSfs? && s.pc.job.born == born ==> born <= run[0].version + 1)
        && FreshRun(p, Apply(p, s, run[0]), run[1..], born))
  }

  /** Where to look for the version that justifies dropping a Job's finalizer: anywhere, or from the
      last version before the Job's creation on for Jobs whose reads are fresh. */
  function Since(watched: Option<nat>, job: Job): nat {
    if watched == Some(job.born) && job.born > 0 then job.born - 1 else 0
  }

  /** A version that passed the mutating webhook with a probe image configured. */
  ghost predicate VersionOk(p: Params, v: Version) {
    p.probing && IsMutated(v.sfs) && !IsDone(v.sfs) ==>
      (v.sfs.replicas == 0 || v.scaled) && IsInt32(v.submitted) && SavedReplicas(v.sfs) == v.submitted
  }

  ghost predicate VersionsOk(p: Params, h: History) {
    forall i | 0 <= i < |h| && h[i].Some? :: VersionOk(p, h[i].value)
  }

  /** A Job loses its finalizer only after a `done` version was stored. */
  ghost predicate JobOk(watched: Option<nat>, h: History, job: Job) {
    0 < job.born <= |h| && (!job.finalizer ==> DoneSince(h, Since(watched, job)))
  }

  ghost predicate JobsOk(watched: Option<nat>, s: State) {
    forall j | 0 <= j < |s.jobs| && s.jobs[j].Some? :: JobOk(watched, s.history, s.jobs[j].value)
  }

  /** A Job is gone only after a `done` version was stored since it was created. */
  ghost predicate GoneOk(watched: Option<nat>, s: State) {
    forall j | 0 <= j < |s.jobs| - 1 && s.jobs[j].Some? && s.jobs[j + 1].None? ::
      DoneSince(s.history, Since(watched, s.jobs[j].value))
  }

  /** The Job version a reconcile holds is stored, completed and has the finalizer. */
  ghost predicate HoldsJob(s: State, jobVersion: nat, job: Job) {
    && jobVersion < |s.jobs|
    && s.jobs[jobVersion] == Some(job)
    && job.completed && job.finalizer
  }

  ghost predicate HoldsSfs(s: State, version: nat, sfs: Sfs) {
    && version < |s.history| && SfsAt(s, version) == Some(sfs)
    && !IsDone(sfs) && ServiceIndex(sfs) < |sfs.containers|
  }

  ghost predicate PcOk(watched: Option<nat>, s: State) {
    match s.pc
    case Idle => true
    case FetchSfs(jv, job) => HoldsJob(s, jv, job)
    case DeleteJob(jv, job) => HoldsJob(s, jv, job)
    case CreateConfigMap(jv, job, v, sfs) => HoldsJob(s, jv, job) && HoldsSfs(s, v, sfs)
    case UpdateSfs(jv, job, v, sfs) => HoldsJob(s, jv, job) && HoldsSfs(s, v, sfs)
    case DropFinalizer(jv, job) => HoldsJob(s, jv, job) && DoneSince(s.history, Since(watched, job))
  }

  ghost predicate Inv(p: Params, s: State, watched: Option<nat>) {
    && VersionsOk(p, s.history)
    && JobsOk(watched, s) && GoneOk(watched, s)
    && PcOk(watched, s)
  }

  lemma DoneSinceMonotone(h: History, h': History, from: nat)
    requires h <= h' && DoneSince(h, from)
    ensures DoneSince(h', from)
  {
    var i :| from <= i < |h| && h[i].Some? && IsDone(h[i].value.sfs);
    assert h'[i] == h[i];
  }

  /** Storing one more StatefulSet version keeps everything that was in order. */
  lemma StoreOk(p: Params, s: State, watched: Option<nat>, found: Option<Version>)
    requires Inv(p, s, watched) && (found.Some? ==> VersionOk(p, found.value))
    ensures Inv(p, s.(history := s.history + [found]), watched)
  {
    var s' := s.(history := s.history + [found]);
    assert s.history <= s'.history;
    forall from: nat | DoneSince(s.history, from) ensures DoneSince(s'.history, from) {
      DoneSinceMonotone(s.history, s'.history, from);
    }
  }

  /** So does storing one more version of the Job, if it may be there. */
  lemma StoreJobOk(p: Params, s: State, watched: Option<nat>, found: Option<Job>)
    requires Inv(p, s, watched)
    requires found.Some? ==> JobOk(watched, s.history, found.value)
    requires found.None? && CurrentJob(s).Some? ==> DoneSince(s.history, Since(watched, CurrentJob(s).value))
    ensures Inv(p, s.(jobs := s.jobs + [found]), watched)
  {
  }

  /** The webhook's rule makes the admitted object a good version. */
  lemma AdmittedOk(p: Params, submitted: Sfs, admitted: Sfs)
    requires IsInt32(submitted.replicas) && AdmittedAs(p, submitted, admitted)
    ensures VersionOk(p, Version(admitted, submitted.replicas, false))
  {
    StatusKeyDiffers();
    if p.probing && IsMutated(submitted) && !IsDone(submitted) {
      SuspendSavesReplicas(submitted);
      assert StatusOf(admitted) == StatusOf(Suspend(submitted));
    }
  }

  lemma ReadOk(p: Params, s: State, watched: Option<nat>, e: Event)
    requires Inv(p, s, watched) && Enabled(p, s, e) && (e.ReadJob? || e.ReadSfs?)
    requires e.ReadSfs? && watched == Some(s.pc.job.born) ==> s.pc.job.born <= e.version + 1
    ensures Inv(p, Apply(p, s, e), watched)
  {
  }

  lemma CallOk(p: Params, s: State, watched: Option<nat>)
    requires Inv(p, s, watched) && Enabled(p, s, Call)
    ensures Inv(p, Apply(p, s, Call), watched)
  {
    match s.pc
    case DeleteJob(_, _) =>
      if CurrentJob(s).Some? { StoreJobOk(p, s, watched, DeleteRequested(CurrentJob(s).value)); }
    case CreateConfigMap(_, _, _, _) =>
    case DropFinalizer(jv, job) =>
      if IsCurrentJob(s, jv) { StoreJobOk(p, s, watched, Released(job)); }
    case _ =>
  }

  lemma ReviveOk(p: Params, s: State, watched: Option<nat>, admitted: Sfs)
    requires Inv(p, s, watched) && Enabled(p, s, Revive(admitted))
    ensures Inv(p, Apply(p, s, Revive(admitted)), watched)
  {
    if IsCurrent(s, s.pc.version) {
      RevivedPassesWebhook(p.probing, s.pc.sfs);
      var found := Some(Version(admitted, admitted.replicas, false));
      StoreOk(p, s, watched, found);
      var h := s.history + [found];
      assert h[|s.history|] == found && IsDone(admitted);
      assert DoneSince(h, Since(watched, s.pc.job));
    }
  }

  lemma EnvironmentOk(p: Params, s: State, watched: Option<nat>, e: Event)
    requires Inv(p, s, watched) && Enabled(p, s, e)
    requires e.Submit? || e.WriteStatus? || e.Scale? || e.MarkDeleting? || e.RemoveSfs? || e.Abort?
             || e.CompleteJob? || e.RequestJobDeletion? || e.PutConfigMap? || e.RemoveConfigMap?
    ensures Inv(p, Apply(p, s, e), watched)
  {
    match e
    case Submit(submitted, admitted, launched, stored) =>
      AdmittedOk(p, submitted, admitted);
      if launched { StoreJobOk(p, s, watched, Some(Job(|s.history|, true, false, false))); }
      var s' := if launched then s.(jobs := s.jobs + [Some(Job(|s.history|, true, false, false))]) else s;
      if stored { StoreOk(p, s', watched, Some(Version(admitted, submitted.replicas, false))); }
    case WriteStatus => StoreOk(p, s, watched, Current(s));
    case Scale(replicas) =>
      var v := Current(s).value;
      StoreOk(p, s, watched, Some(v.(sfs := v.sfs.(replicas := replicas), scaled := true)));
    case MarkDeleting =>
      var v := Current(s).value;
      StoreOk(p, s, watched, Some(v.(sfs := v.sfs.(deleting := true))));
    case RemoveSfs => StoreOk(p, s, watched, None);
    case CompleteJob => StoreJobOk(p, s, watched, Some(CurrentJob(s).value.(completed := true)));
    case RequestJobDeletion => StoreJobOk(p, s, watched, DeleteRequested(CurrentJob(s).value));
    case _ =>
  }

  lemma {:induction false} RunOk(p: Params, s: State, watched: Option<nat>, run: seq<Event>)
    requires Inv(p, s, watched) && Legal(p, s, run) && (watched.Some? ==> FreshRun(p, s, run, watched.value))
    ensures Inv(p, Run(p, s, run), watched)
    decreases |run|
  {
    if run != [] {
      var e := run[0];
      if e.ReadJob? || e.ReadSfs? {
        ReadOk(p, s, watched, e);
      } else if e.Call? {
        CallOk(p, s, watched);
      } else if e.Revive? {
        ReviveOk(p, s, watched, e.admitted);
      } else {
        EnvironmentOk(p, s, watched, e);
      }
      RunOk(p, Apply(p, s, e), watched, run[1..]);
    }
  }

  /** Suspension: with a probe image configured, every stored version that asks for a group and is
      not being deleted is `done` or has no replicas, as long as nobody scales it past the webhook. */
  lemma SuspensionInvariant(p: Params, s: State, run: seq<Event>, i: nat)
    requires Init(s) && Legal(p, s, run) && p.probing
    requires i < |Run(p, s, run).history| && Run(p, s, run).history[i].Some?
    requires IsMutated(Run(p, s, run).history[i].value.sfs)
    ensures var v := Run(p, s, run).history[i].value; IsDone(v.sfs) || v.sfs.replicas == 0 || v.scaled
  {
    RunOk(p, s, None, run);
  }

  /** The reconciler has let go of this Job: a version without the finalizer, or the last one before
      the Job was gone. */
  predicate LetGo(s: State, j: nat)
    requires j < |s.jobs| && s.jobs[j].Some?
  {
    !s.jobs[j].value.finalizer || (j + 1 < |s.jobs| && s.jobs[j + 1].None?)
  }

  predicate DoneAt(h: History, i: int) {
    0 <= i < |h| && h[i].Some? && IsDone(h[i].value.sfs)
  }

  /** Job finalizer safety: the reconciler lets go of a Job only after a StatefulSet version with
      status `done` was stored. If its reads for the Job were fresh, that is the last version before
      the Job's creation or one stored since; so it is one stored since, if the StatefulSet was not
      `done` already when the Job was created. */
  lemma JobFinalizerSafety(p: Params, s: State, run: seq<Event>, j: nat)
    requires Init(s) && Legal(p, s, run)
    requires j < |Run(p, s, run).jobs| && Run(p, s, run).jobs[j].Some?
    ensures var t := Run(p, s, run); LetGo(t, j) ==> DoneSince(t.history, 0)
    ensures var t := Run(p, s, run);
            var born := t.jobs[j].value.born;
            && 0 < born <= |t.history|
            && (LetGo(t, j) && FreshRun(p, s, run, born) ==> DoneAt(t.history, born - 1) || DoneSince(t.history, born))
  {
    RunOk(p, s, None, run);
    var t := Run(p, s, run);
    var born := t.jobs[j].value.born;
    if LetGo(t, j) && FreshRun(p, s, run, born) {
      RunOk(p, s, Some(born), run);
      var i :| born - 1 <= i < |t.history| && t.history[i].Some? && IsDone(t.history[i].value.sfs);
      assert i == born - 1 || DoneSince(t.history, born);
    }
  }
}
