/** What particular stretches of a run of the probe protocol do: which replica count comes back,
    when a revive gets through, and when it never does. */
module ProbeRuns {
  import opened Options
  import opened Decimal
  import opened StatefulSets
  import opened ProbeMachine
  import opened ProbeTheorems

  // ----- Replica conservation -----

  /** Nothing in this stretch stores another submission. The StatefulSet may be deleted, revives may
      be refused, and Jobs, caches and ConfigMaps may do anything. */
  predicate NoNewSubmission(run: seq<Event>) {
    forall e | e in run :: !(e.Submit? && e.stored)
  }

  /** Meanwhile the stored object keeps the status of the submission, unless it is revived. */
  lemma {:induction false} StatusKept(p: Params, s: State, run: seq<Event>, annotations: map<string, string>)
    requires Legal(p, s, run) && NoNewSubmission(run)
    requires Current(s).Some? ==> Current(s).value.sfs.annotations == annotations || IsDone(Current(s).value.sfs)
    ensures var t := Run(p, s, run);
            Current(t).Some? ==> Current(t).value.sfs.annotations == annotations || IsDone(Current(t).value.sfs)
    decreases |run|
  {
    if run != [] {
      if run[0].Revive? {
        RevivedPassesWebhook(p.probing, s.pc.sfs);
      }
      StatusKept(p, Apply(p, s, run[0]), run[1..], annotations);
    }
  }

  /** The webhook admits and the API server stores this submission in state `s`. */
  predicate Submits(p: Params, s: State, submitted: Sfs, admitted: Sfs, launched: bool) {
    && IsMutated(submitted) && !IsDone(submitted)
    && Enabled(p, s, Submit(submitted, admitted, launched, true))
  }

  /** The reconciler's update is accepted in state `s`. */
  predicate RevivesTo(p: Params, s: State, revived: Sfs) {
    Enabled(p, s, Revive(revived)) && IsCurrent(s, s.pc.version)
  }

  /** Exact replica conservation: after any run, a submission that is suspended, and any stretch
      without another stored submission (so also after any number of revives that were refused, and
      recoveries from them), an accepted revive brings back exactly the submitted count, for every
      int32. */
  lemma ReplicaConservation(p: Params, s: State, before: seq<Event>, submitted: Sfs, admitted: Sfs, launched: bool,
                            between: seq<Event>, revived: Sfs)
    requires p.probing && Init(s) && Legal(p, s, before) && Submits(p, Run(p, s, before), submitted, admitted, launched)
    requires var s1 := Apply(p, Run(p, s, before), Submit(submitted, admitted, launched, true));
             && NoNewSubmission(between) && Legal(p, s1, between)
             && RevivesTo(p, Run(p, s1, between), revived)
    ensures var s1 := Apply(p, Run(p, s, before), Submit(submitted, admitted, launched, true));
            var after := Apply(p, Run(p, s1, between), Revive(revived));
            && Current(after) == Some(Version(revived, revived.replicas, false))
            && IsDone(revived) && revived.replicas == submitted.replicas
  {
    var s0 := Run(p, s, before);
    RunOk(p, s, None, before);
    EnvironmentOk(p, s0, None, Submit(submitted, admitted, launched, true));
    RestoredCount(p, Apply(p, s0, Submit(submitted, admitted, launched, true)), submitted, admitted, between, revived);
  }

  /** From the state in which the suspended object is stored. */
  lemma RestoredCount(p: Params, s1: State, submitted: Sfs, admitted: Sfs, between: seq<Event>, revived: Sfs)
    requires p.probing && Inv(p, s1, None) && Current(s1) == Some(Version(admitted, submitted.replicas, false))
    requires IsMutated(submitted) && !IsDone(submitted) && IsInt32(submitted.replicas)
    requires AdmittedAs(p, submitted, admitted)
    requires NoNewSubmission(between) && Legal(p, s1, between) && RevivesTo(p, Run(p, s1, between), revived)
    ensures IsDone(revived) && revived.replicas == submitted.replicas
  {
    var s2 := Run(p, s1, between);
    RunOk(p, s1, None, between);
    StatusKept(p, s1, between, admitted.annotations);
    SuspendSavesReplicas(submitted);
    assert Current(s2).value.sfs == s2.pc.sfs && !IsDone(s2.pc.sfs);
    assert StatusOf(s2.pc.sfs) == StatusOf(Suspend(submitted));
    RevivedPassesWebhook(p.probing, s2.pc.sfs);
  }

  /** So the original count comes back exactly if the last submission before the revive carried it;
      submitting the suspended object itself makes the revive restore the replicas it has then, which
      are 0 unless it was scaled past the webhook. */
  lemma ResubmissionRestoresZero(p: Params, s: State, before: seq<Event>, admitted: Sfs, launched: bool,
                                 between: seq<Event>, revived: Sfs)
    requires p.probing && Init(s) && Legal(p, s, before) && Current(Run(p, s, before)).Some?
    requires var suspended := Current(Run(p, s, before)).value.sfs;
             Submits(p, Run(p, s, before), suspended, admitted, launched)
    requires var s1 := Apply(p, Run(p, s, before),
                 Submit(Current(Run(p, s, before)).value.sfs, admitted, launched, true));
             && NoNewSubmission(between) && Legal(p, s1, between)
             && RevivesTo(p, Run(p, s1, between), revived)
    ensures revived.replicas == Current(Run(p, s, before)).value.sfs.replicas
    ensures !Current(Run(p, s, before)).value.scaled ==> revived.replicas == 0
  {
    RunOk(p, s, None, before);
    ReplicaConservation(p, s, before, Current(Run(p, s, before)).value.sfs, admitted, launched, between, revived);
  }

  // ----- Progress -----

  /** An undisturbed reconcile that reads the latest versions and meets no error, up to its update. */
  function ReconcileEvents(s: State, revived: Sfs): seq<Event> {
    [ReadJob(|s.jobs| - 1), ReadSfs(|s.history| - 1), Call, Revive(revived), Call]
  }

  /** Progress: with a completed Job, no refresh ConfigMap and the service container present, one
      undisturbed reconcile stores `done` with the saved count and releases the Job. */
  lemma ReviveProgress(p: Params, s: State, revived: Sfs)
    requires s.pc.Idle?
    requires CurrentJob(s).Some? && CurrentJob(s).value.completed && CurrentJob(s).value.finalizer
    requires Current(s).Some? && !IsDone(Current(s).value.sfs)
    requires ServiceIndex(Current(s).value.sfs) < |Current(s).value.sfs.containers|
    requires !s.configMap
    requires AdmittedAs(p, Revived(Current(s).value.sfs), revived)
    ensures Legal(p, s, ReconcileEvents(s, revived))
    ensures var t := Run(p, s, ReconcileEvents(s, revived));
            && Current(t).Some? && IsDone(Current(t).value.sfs)
            && Current(t).value.sfs.replicas == SavedReplicas(Current(s).value.sfs)
            && (CurrentJob(t).None? || !CurrentJob(t).value.finalizer)
            && t.configMap && t.pc.Idle?
            && t == Undisturbed(s, Some(revived))
  {
    var sfs, job := Current(s).value.sfs, CurrentJob(s).value;
    var jv, v := |s.jobs| - 1, |s.history| - 1;
    var s1 := Apply(p, s, ReadJob(jv));
    var s2 := Apply(p, s1, ReadSfs(v));
    assert s2.pc == CreateConfigMap(jv, job, v, sfs);
    var s3 := Apply(p, s2, Call);
    assert s3.pc == UpdateSfs(jv, job, v, sfs);
    var s4 := Apply(p, s3, Revive(revived));
    assert s4.pc == DropFinalizer(jv, job) && Current(s4) == Some(Version(revived, revived.replicas, false));
    RevivedPassesWebhook(p.probing, sfs);
    FiveEvents(p, s, ReadJob(jv), ReadSfs(v), Call, Revive(revived), Call);
  }

  lemma FiveEvents(p: Params, s: State, a: Event, b: Event, c: Event, d: Event, e: Event)
    requires Enabled(p, s, a) && Enabled(p, Apply(p, s, a), b)
    requires var s2 := Apply(p, Apply(p, s, a), b);
             && Enabled(p, s2, c) && Enabled(p, Apply(p, s2, c), d) && Enabled(p, Apply(p, Apply(p, s2, c), d), e)
    ensures Legal(p, s, [a, b, c, d, e])
    ensures Run(p, s, [a, b, c, d, e]) == Apply(p, Apply(p, Apply(p, Apply(p, Apply(p, s, a), b), c), d), e)
  {
    RunSnoc(p, s, [], a);
    RunSnoc(p, s, [] + [a], b);
    RunSnoc(p, s, [] + [a] + [b], c);
    RunSnoc(p, s, [] + [a] + [b] + [c], d);
    RunSnoc(p, s, [] + [a] + [b] + [c] + [d], e);
    assert [] + [a] + [b] + [c] + [d] + [e] == [a, b, c, d, e];
  }

  /** The rest of an undisturbed reconcile that meets no error; `revived` is what the webhook makes
      of the update, if there is one. */
  function FinishCalls(s: State, revived: Option<Sfs>): State {
    var s1 := ApplyCall(s);
    if !s.pc.CreateConfigMap? || !s1.pc.UpdateSfs? || revived.None? then s1
    else
      var s2 := ApplyRevive(s1, revived.value);
      if s2.pc.DropFinalizer? then ApplyCall(s2) else s2
  }

  /** A whole undisturbed reconcile that reads the latest versions. */
  function Undisturbed(s: State, revived: Option<Sfs>): State {
    var jv := |s.jobs| - 1;
    var s1 := s.(pc := AfterReadJob(jv, s.jobs[jv]));
    if s1.pc.FetchSfs? then FinishCalls(FoundSfs(s1), revived) else s1
  }

  /** The latest version of the StatefulSet has been read. */
  function FoundSfs(s: State): State
    requires s.pc.FetchSfs?
  {
    var v := |s.history| - 1;
    s.(pc := AfterReadSfs(s.pc.jobVersion, s.pc.job, v, SfsAt(s, v)))
  }

  /** The Job is completed and still has the finalizer, so that a reconcile acts on it. */
  predicate Completed(s: State) {
    CurrentJob(s).Some? && CurrentJob(s).value.completed && CurrentJob(s).value.finalizer
  }

  /** The StatefulSet is suspended, and its service container is missing or the ConfigMap is there. */
  predicate Hopeless(s: State) {
    && Current(s).Some? && !IsDone(Current(s).value.sfs)
    && (s.configMap || ServiceIndex(Current(s).value.sfs) == |Current(s).value.sfs.containers|)
  }

  /** A missing StatefulSet: the Job is asked to go and keeps the finalizer; nothing else is touched. */
  lemma MissingMarksJob(s: State, revived: Option<Sfs>)
    ensures Completed(s) && Current(s).None? ==>
              && Undisturbed(s, revived)
                 == s.(jobs := s.jobs + [Some(CurrentJob(s).value.(deleting := true))], pc := Idle)
              && Undisturbed(s, revived).jobs[|s.jobs|].value.finalizer
  {
  }

  /** A StatefulSet that is `done`: the Job loses the finalizer, and is gone if it was asked to go. */
  lemma DoneReleasesJob(s: State, revived: Option<Sfs>)
    requires Completed(s) && Current(s).Some? && IsDone(Current(s).value.sfs)
    ensures var job, t := CurrentJob(s).value, Undisturbed(s, revived);
            && t.history == s.history && t.configMap == s.configMap && t.pc.Idle?
            && |t.jobs| == |s.jobs| + 1 && t.jobs[..|s.jobs|] == s.jobs
            && CurrentJob(t) == if job.deleting then None else Some(job.(finalizer := false))
  {
  }

  /** A Job that is not there, not completed, or without the finalizer: nothing is touched. */
  lemma OtherJobsIgnored(s: State, revived: Option<Sfs>)
    requires s.pc.Idle? && !Completed(s)
    ensures Undisturbed(s, revived) == s
  {
  }

  /** A suspended StatefulSet that cannot be revived: nothing is touched. */
  lemma HopelessIgnored(s: State)
    requires Completed(s) && Hopeless(s)
    ensures Undisturbed(s, None) == s.(pc := Idle)
  {
  }

  /** No other undisturbed reconcile asks a Job to go. */
  lemma OnlyMissingMarks(s: State, revived: Option<Sfs>, k: nat)
    requires s.pc.Idle? && |s.jobs| <= k < |Undisturbed(s, revived).jobs|
    requires Undisturbed(s, revived).jobs[k].Some? && Undisturbed(s, revived).jobs[k].value.deleting
    ensures Completed(s) && Current(s).None?
  {
  }

  /** When an undisturbed reconcile gets a suspended StatefulSet through: exactly if its Job is
      completed and still has the finalizer, there is no refresh ConfigMap yet, and the service
      container is found. */
  lemma RevivesIff(p: Params, s: State, revived: Sfs)
    requires s.pc.Idle? && CurrentJob(s).Some?
    requires Current(s).Some? && !IsDone(Current(s).value.sfs)
    requires ServiceIndex(Current(s).value.sfs) < |Current(s).value.sfs.containers| ==>
               AdmittedAs(p, Revived(Current(s).value.sfs), revived)
    ensures var t := Undisturbed(s, Some(revived));
            Current(t).Some? && IsDone(Current(t).value.sfs) <==>
              && CurrentJob(s).value.completed && CurrentJob(s).value.finalizer
              && !s.configMap
              && ServiceIndex(Current(s).value.sfs) < |Current(s).value.sfs.containers|
  {
    var sfs := Current(s).value.sfs;
    if ServiceIndex(sfs) < |sfs.containers| {
      RevivedPassesWebhook(p.probing, sfs);
    }
  }

  // ----- The limit of progress -----

  /** The refresh ConfigMap is there, the stored StatefulSet is not done, and the reconciler is not
      past creating the ConfigMap. */
  predicate Stuck(s: State) {
    s.configMap && Current(s).Some? && !IsDone(Current(s).value.sfs) && !s.pc.UpdateSfs?
  }

  /** The steps of the Job reconciler. */
  predicate IsReconcilerStep(e: Event) {
    e.ReadJob? || e.ReadSfs? || e.Call? || e.Revive? || e.Abort?
  }

  /** The events that end the stuck state: the ConfigMap or the StatefulSet disappears, or somebody
      stores a StatefulSet that claims to be done. */
  predicate Unsticks(e: Event) {
    e.RemoveConfigMap? || e.RemoveSfs? || (e.Submit? && e.stored && IsDone(e.admitted))
  }

  /** Exactly those end it: neither a reconcile, nor a submission that is suspended, nor anything
      that happens to the Job does. */
  lemma StuckEndsIff(p: Params, s: State, e: Event)
    requires Stuck(s) && Enabled(p, s, e)
    ensures Stuck(Apply(p, s, e)) <==> !Unsticks(e)
  {
  }

  /** However often the Job is reconciled, and whatever else happens, the StatefulSet stays suspended
      until one of those events. */
  lemma {:induction false} StuckIsAbsorbing(p: Params, s: State, run: seq<Event>)
    requires Stuck(s) && Legal(p, s, run) && forall e | e in run :: !Unsticks(e)
    ensures Stuck(Run(p, s, run))
    decreases |run|
  {
    if run != [] {
      StuckEndsIff(p, s, run[0]);
      StuckIsAbsorbing(p, Apply(p, s, run[0]), run[1..]);
    }
  }

  /** The reconciler by itself does not store anything. */
  lemma {:induction false} StuckReconcilesStoreNothing(p: Params, s: State, run: seq<Event>)
    requires Stuck(s) && Legal(p, s, run) && forall e | e in run :: IsReconcilerStep(e)
    ensures Stuck(Run(p, s, run)) && Run(p, s, run).history == s.history
    decreases |run|
  {
    if run != [] {
      assert IsReconcilerStep(run[0]);
      StuckEndsIff(p, s, run[0]);
      StuckReconcilesStoreNothing(p, Apply(p, s, run[0]), run[1..]);
    }
  }

  /** The way in: a submission between the creation of the ConfigMap and the update makes the update
      conflict. */
  lemma ConflictGetsStuck(p: Params, s: State, revived: Sfs, submitted: Sfs, admitted: Sfs)
    requires Inv(p, s, None) && p.probing && s.pc.UpdateSfs? && s.configMap
    requires Enabled(p, s, Revive(revived))
    requires Enabled(p, s, Submit(submitted, admitted, false, true))
    requires IsMutated(submitted) && !IsDone(submitted)
    ensures var s1 := Apply(p, s, Submit(submitted, admitted, false, true));
            && Enabled(p, s1, Revive(revived))
            && Stuck(Apply(p, s1, Revive(revived)))
            && Apply(p, s1, Revive(revived)).pc.Idle?
  {
    SuspendSavesReplicas(submitted);
    var s1 := Apply(p, s, Submit(submitted, admitted, false, true));
    assert StatusOf(admitted) == StatusOf(Suspend(submitted));
  }

  /** Another way in, without any conflict: once the ConfigMap is there, as it is after every revive,
      any later suspended submission is stuck at once. */
  lemma SuspendedAgainIsStuck(p: Params, s: State, submitted: Sfs, admitted: Sfs, launched: bool)
    requires s.configMap && !s.pc.UpdateSfs? && p.probing && Submits(p, s, submitted, admitted, launched)
    ensures Stuck(Apply(p, s, Submit(submitted, admitted, launched, true)))
  {
    SuspendSavesReplicas(submitted);
    assert StatusOf(admitted) == StatusOf(Suspend(submitted));
  }

  /** So whatever is revived once is not revived again until the ConfigMap goes: until then no update
      is even tried. */
  lemma {:induction false} RevivedOnce(p: Params, s: State, run: seq<Event>)
    requires s.configMap && !s.pc.UpdateSfs?
    requires Legal(p, s, run) && forall e | e in run :: !e.RemoveConfigMap?
    ensures forall e | e in run :: !e.Revive?
    ensures Run(p, s, run).configMap && !Run(p, s, run).pc.UpdateSfs?
    decreases |run|
  {
    if run != [] {
      assert run == [run[0]] + run[1..];
      RevivedOnce(p, Apply(p, s, run[0]), run[1..]);
    }
  }

  /** From the very beginning to a reconcile that has created the ConfigMap. */
  lemma RunToUpdate(p: Params, s: State, submitted: Sfs, admitted: Sfs) returns (run: seq<Event>, t: State)
    requires Init(s) && Submits(p, s, submitted, admitted, true) && ServiceIndex(admitted) < |admitted.containers|
    requires p.probing
    ensures Legal(p, s, run) && t == Run(p, s, run)
    ensures t.pc.UpdateSfs? && t.pc.sfs == admitted && t.configMap
    ensures Current(t) == Some(Version(admitted, submitted.replicas, false))
  {
    SuspendSavesReplicas(submitted);
    assert StatusOf(admitted) == StatusOf(Suspend(submitted));
    var s1 := SuspendedRun(p, s, submitted, admitted);
    run := [Submit(submitted, admitted, true, true), CompleteJob];
    var done := Job(1, true, true, false);
    RunSnoc(p, s, run, ReadJob(2));
    run := run + [ReadJob(2)];
    var s2 := Apply(p, s1, ReadJob(2));
    RunSnoc(p, s, run, ReadSfs(1));
    run := run + [ReadSfs(1)];
    var s3 := Apply(p, s2, ReadSfs(1));
    assert s3.pc == CreateConfigMap(2, done, 1, admitted);
    RunSnoc(p, s, run, Call);
    run := run + [Call];
    t := Apply(p, s3, Call);
  }

  lemma SuspendedRun(p: Params, s: State, submitted: Sfs, admitted: Sfs) returns (t: State)
    requires Init(s) && Submits(p, s, submitted, admitted, true)
    ensures var run := [Submit(submitted, admitted, true, true), CompleteJob]; Legal(p, s, run) && t == Run(p, s, run)
    ensures t == State([None, Some(Version(admitted, submitted.replicas, false))],
                       [None, Some(Job(1, true, false, false)), Some(Job(1, true, true, false))], false, Idle)
  {
    var submit := Submit(submitted, admitted, true, true);
    RunSnoc(p, s, [], submit);
    RunSnoc(p, s, [] + [submit], CompleteJob);
    assert [] + [submit] + [CompleteJob] == [submit, CompleteJob];
    t := Apply(p, Apply(p, s, submit), CompleteJob);
  }

  /** And it is reachable: from the very beginning, for any StatefulSet with its service container. */
  lemma StuckIsReachable(p: Params, s: State, submitted: Sfs, admitted: Sfs) returns (run: seq<Event>)
    requires Init(s) && p.probing
    requires Submits(p, s, submitted, admitted, true) && ServiceIndex(admitted) < |admitted.containers|
    ensures Legal(p, s, run) && Stuck(Run(p, s, run)) && Run(p, s, run).pc.Idle?
  {
    var t;
    run, t := RunToUpdate(p, s, submitted, admitted);
    RunOk(p, s, None, run);
    var again, revived := Submit(submitted, admitted, false, true), Revived(admitted);
    RevivedPassesWebhook(p.probing, admitted);
    ConflictGetsStuck(p, t, revived, submitted, admitted);
    RunSnoc(p, s, run, again);
    run := run + [again];
    RunSnoc(p, s, run, Revive(revived));
    run := run + [Revive(revived)];
  }

  // ----- Losing the original count -----

  /** Conservation of the original count fails from the very beginning, for any submission with its
      service container: submitting the suspended object once more, and then an undisturbed
      reconcile, end `done` with no replicas. */
  lemma ZeroIsReachable(p: Params, s: State, submitted: Sfs, admitted: Sfs) returns (run: seq<Event>)
    requires Init(s) && p.probing
    requires Submits(p, s, submitted, admitted, true) && ServiceIndex(admitted) < |admitted.containers|
    ensures Legal(p, s, run)
    ensures var t := Run(p, s, run);
            && Current(t).Some? && IsDone(Current(t).value.sfs) && Current(t).value.sfs.replicas == 0
            && t.pc.Idle?
  {
    SuspendSavesReplicas(submitted);
    assert StatusOf(admitted) == StatusOf(Suspend(submitted));
    var s1 := SuspendedRun(p, s, submitted, admitted);
    run := [Submit(submitted, admitted, true, true), CompleteJob];
    var again := Suspend(admitted);
    StatusKeyDiffers();
    SuspendSavesReplicas(admitted);
    RunSnoc(p, s, run, Submit(admitted, again, false, true));
    run := run + [Submit(admitted, again, false, true)];
    var s2 := Apply(p, s1, Submit(admitted, again, false, true));
    RevivedPassesWebhook(p.probing, again);
    ReviveProgress(p, s2, Revived(again));
    RunConcat(p, s, run, ReconcileEvents(s2, Revived(again)));
    run := run + ReconcileEvents(s2, Revived(again));
  }

  // ----- Suspended without a Job -----

  /** A suspended StatefulSet without a Job, and none was ever completed that a cached read could
      still return. */
  predicate Orphaned(s: State) {
    && Current(s).Some? && !IsDone(Current(s).value.sfs)
    && CurrentJob(s).None?
    && (forall j | 0 <= j < |s.jobs| && s.jobs[j].Some? :: !s.jobs[j].value.completed || !s.jobs[j].value.finalizer)
    && s.pc.Idle?
  }

  /** It is reachable: when creating the Job fails the object is admitted suspended all the same. */
  lemma OrphanIsReachable(p: Params, s: State, submitted: Sfs, admitted: Sfs)
    requires Init(s) && p.probing && Submits(p, s, submitted, admitted, false)
    ensures Legal(p, s, [Submit(submitted, admitted, false, true)])
    ensures var t := Run(p, s, [Submit(submitted, admitted, false, true)]);
            Orphaned(t) && Current(t).value.sfs.replicas == 0
  {
    SuspendSavesReplicas(submitted);
    assert StatusOf(admitted) == StatusOf(Suspend(submitted));
    RunSnoc(p, s, [], Submit(submitted, admitted, false, true));
    assert [] + [Submit(submitted, admitted, false, true)] == [Submit(submitted, admitted, false, true)];
  }

  /** What ends it: a submission that creates a Job or stores a `done` object, or the removal of the
      StatefulSet. */
  predicate EndsOrphan(e: Event) {
    e.RemoveSfs? || (e.Submit? && (e.launched || (e.stored && IsDone(e.admitted))))
  }

  lemma OrphanEndsIff(p: Params, s: State, e: Event)
    requires Orphaned(s) && Enabled(p, s, e)
    ensures Orphaned(Apply(p, s, e)) <==> !EndsOrphan(e)
  {
    var t := Apply(p, s, e);
    if e.Submit? && e.launched {
      assert t.jobs[|t.jobs| - 1].Some?;
    }
  }

  /** However often anything else happens it stays suspended, and without a stored submission nothing
      is scaled up. */
  lemma {:induction false} OrphanStays(p: Params, s: State, run: seq<Event>)
    requires Orphaned(s) && Legal(p, s, run) && forall e | e in run :: !EndsOrphan(e)
    ensures Orphaned(Run(p, s, run))
    ensures NoNewSubmission(run) && (forall e | e in run :: !e.Scale?) ==>
              Current(Run(p, s, run)).value.sfs.replicas == Current(s).value.sfs.replicas
    decreases |run|
  {
    if run != [] {
      OrphanEndsIff(p, s, run[0]);
      OrphanStays(p, Apply(p, s, run[0]), run[1..]);
    }
  }

  // ----- Letting go of a Job too early -----

  /** With a stale read a Job can lose its finalizer before its own StatefulSet is revived, even if
      that was not `done` when the Job was created: the reconciler reads a `done` version of a
      StatefulSet of the same name that is long gone. */
  lemma StaleReadDropsEarly(p: Params, s: State, old': Sfs, submitted: Sfs, admitted: Sfs) returns (run: seq<Event>)
    requires Init(s) && p.probing
    requires IsMutated(old') && IsDone(old') && IsInt32(old'.replicas)
    requires IsMutated(submitted) && !IsDone(submitted) && IsInt32(submitted.replicas)
    requires AdmittedAs(p, submitted, admitted)
    ensures Legal(p, s, run)
    ensures var t := Run(p, s, run);
            && CurrentJob(t).Some? && !CurrentJob(t).value.finalizer
            && !DoneAt(t.history, CurrentJob(t).value.born - 1) && !DoneSince(t.history, CurrentJob(t).value.born)
            && Current(t) == Some(Version(admitted, submitted.replicas, false))
  {
    SuspendSavesReplicas(submitted);
    assert StatusOf(admitted) == StatusOf(Suspend(submitted));
    var first, second := Submit(old', old', false, true), Submit(submitted, admitted, true, true);
    run := [first, RemoveSfs, second, CompleteJob];
    var s1 := ReplacedRun(p, s, old', submitted, admitted);
    var done := Job(3, true, true, false);
    RunSnoc(p, s, run, ReadJob(2));
    run := run + [ReadJob(2)];
    var s2 := Apply(p, s1, ReadJob(2));
    RunSnoc(p, s, run, ReadSfs(1));
    run := run + [ReadSfs(1)];
    var s3 := Apply(p, s2, ReadSfs(1));
    assert s3.pc == DropFinalizer(2, done);
    RunSnoc(p, s, run, Call);
    run := run + [Call];
  }

  /** If the StatefulSet was `done` when the Job was created, it takes no stale read: when storing the
      submission that created the Job fails, the reconciler reads the latest version, which is still
      `done`, and lets go of the Job; no `done` version has been stored since its creation. */
  lemma UnstoredSubmissionDropsEarly(p: Params, s: State, old': Sfs, submitted: Sfs, admitted: Sfs)
    returns (run: seq<Event>)
    requires Init(s) && p.probing
    requires IsMutated(old') && IsDone(old') && IsInt32(old'.replicas)
    requires IsMutated(submitted) && !IsDone(submitted) && IsInt32(submitted.replicas)
    requires AdmittedAs(p, submitted, admitted)
    ensures Legal(p, s, run)
    ensures var t := Run(p, s, run);
            && CurrentJob(t).Some? && !CurrentJob(t).value.finalizer
            && FreshRun(p, s, run, CurrentJob(t).value.born)
            && !DoneSince(t.history, CurrentJob(t).value.born)
  {
    var first, second := Submit(old', old', false, true), Submit(submitted, admitted, true, false);
    var s1 := Apply(p, s, first);
    var s2 := Apply(p, s1, second);
    var s3 := Apply(p, s2, CompleteJob);
    var s4 := Apply(p, s3, ReadJob(2));
    var s5 := Apply(p, s4, ReadSfs(1));
    assert s5.pc == DropFinalizer(2, Job(2, true, true, false));
    FreshCons(p, s5, Call, [], 2);
    FreshCons(p, s4, ReadSfs(1), [Call] + [], 2);
    run := [ReadSfs(1)] + ([Call] + []);
    FreshCons(p, s3, ReadJob(2), run, 2);
    run := [ReadJob(2)] + run;
    FreshCons(p, s2, CompleteJob, run, 2);
    run := [CompleteJob] + run;
    FreshCons(p, s1, second, run, 2);
    run := [second] + run;
    FreshCons(p, s, first, run, 2);
    run := [first] + run;
  }

  /** An event in front of a run. */
  lemma FreshCons(p: Params, s: State, e: Event, run: seq<Event>, born: nat)
    requires Enabled(p, s, e) && Legal(p, Apply(p, s, e), run) && FreshRun(p, Apply(p, s, e), run, born)
    requires e.ReadSfs? && s.pc.job.born == born ==> born <= e.version + 1
    ensures Legal(p, s, [e] + run) && FreshRun(p, s, [e] + run, born)
    ensures Run(p, s, [e] + run) == Run(p, Apply(p, s, e), run)
  {
    assert ([e] + run)[1..] == run;
  }

  /** A `done` StatefulSet is removed and another one of the same name is suspended and probed. */
  lemma ReplacedRun(p: Params, s: State, old': Sfs, submitted: Sfs, admitted: Sfs) returns (t: State)
    requires Init(s) && p.probing && IsMutated(old') && IsDone(old') && IsInt32(old'.replicas)
    requires IsMutated(submitted) && !IsDone(submitted) && IsInt32(submitted.replicas)
    requires AdmittedAs(p, submitted, admitted)
    ensures var run := [Submit(old', old', false, true), RemoveSfs, Submit(submitted, admitted, true, true),
                CompleteJob];
            Legal(p, s, run) && t == Run(p, s, run)
    ensures t == State([None, Some(Version(old', old'.replicas, false)), None,
                        Some(Version(admitted, submitted.replicas, false))],
                       [None, Some(Job(3, true, false, false)), Some(Job(3, true, true, false))], false, Idle)
  {
    var first, second := Submit(old', old', false, true), Submit(submitted, admitted, true, true);
    RunSnoc(p, s, [], first);
    RunSnoc(p, s, [] + [first], RemoveSfs);
    RunSnoc(p, s, [] + [first] + [RemoveSfs], second);
    RunSnoc(p, s, [] + [first] + [RemoveSfs] + [second], CompleteJob);
    assert [] + [first] + [RemoveSfs] + [second] + [CompleteJob] == [first, RemoveSfs, second, CompleteJob];
    t := Apply(p, Apply(p, Apply(p, Apply(p, s, first), RemoveSfs), second), CompleteJob);
  }
}
