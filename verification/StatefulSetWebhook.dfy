/** The mutating webhook for StatefulSets, editing the submitted object in place
    (internal/controller/statefulset_webhook.go). What it looks up elsewhere — the ServiceAccount,
    the group's project, shared and standard buckets, the clock — comes in as parameters. */
module StatefulSetWebhook {
  import opened Options
  import opened Text
  import opened Decimal
  import opened Groups
  import opened VolumeNames
  import opened Buckets
  import opened PodSpecs
  import opened PodAnnotations
  import opened ServiceAccounts
  import opened StatefulSets
  import opened Validator
  import Probe = ProbeMachine

  const MOUNT_STANDARD_BUCKETS := "dapla.ssb.no/mount-standard-buckets"
  const MOUNT_SHARED_BUCKETS := "dapla.ssb.no/mount-shared-buckets"
  const TEAM_LABEL := "dapla.ssb.no/team"
  const GROUP_LABEL := "dapla.ssb.no/group"
  const PROBE_JOB_ANNOTATION := "dapla.ssb.no/statefulset-probe-name"

  /** The mutator's configuration; an empty name or image switches its feature off. */
  datatype Mutator = Mutator(
    configs: seq<AccessGroupConfig>,
    parseDuration: string -> Option<int>,
    md5: Md5,
    probeImage: string,
    precreatorImage: Option<string>,
    groupEnvName: string,
    projectEnvName: string)

  /** What a request finds outside: the annotations of the ServiceAccount (None if it cannot be read)
      and whether an update of it is accepted; the group's standard project; the buckets the shared and standard
      lookups add; and the current time in nanoseconds. */
  datatype Surroundings = Surroundings(
    serviceAccount: Option<Notes>,
    updateAccepted: bool,
    project: Option<string>,
    sharedBuckets: BucketMap,
    standardBuckets: BucketMap,
    now: int)

  /** An annotation map, which may be nil. */
  type Notes = Option<map<string, string>>

  datatype Response = Allowed | Errored | Denied | Patched

  /** The probe Job the webhook asks for. */
  datatype ProbeJob = ProbeJob(name: string, annotations: map<string, string>, serviceAccount: string,
                               image: string, finalizers: set<string>)

  /** A ServiceAccount as read from the API. */
  class ServiceAccountObject {
    var annotations: Notes

    constructor (annotations: Notes)
      ensures this.annotations == annotations
    {
      this.annotations := annotations;
    }
  }

  class PodTemplate {
    const spec: PodSpec
    const serviceAccountName: string
    var annotations: Notes
    var labels: Notes

    constructor (spec: PodSpec, serviceAccountName: string, annotations: Notes, labels: Notes)
      ensures this.spec == spec && this.serviceAccountName == serviceAccountName
      ensures this.annotations == annotations && this.labels == labels
    {
      this.spec, this.serviceAccountName := spec, serviceAccountName;
      this.annotations, this.labels := annotations, labels;
    }
  }

  class StatefulSet {
    const name: string
    const created: int
    const deleting: bool
    const template: PodTemplate
    var annotations: map<string, string>
    var replicas: int

    constructor (name: string, created: int, deleting: bool, template: PodTemplate, annotations: map<string, string>,
                 replicas: int)
      ensures this.name == name && this.created == created && this.deleting == deleting && this.template == template
      ensures this.annotations == annotations && this.replicas == replicas
    {
      this.name, this.created, this.deleting, this.template := name, created, deleting, template;
      this.annotations, this.replicas := annotations, replicas;
    }

    /** The position of the service container, or the number of containers. */
    function ServiceAt(): (k: nat)
      ensures k <= |template.spec.containers|
      reads this, template.spec
    {
      FirstNamed(template.spec.containers, Lookup(annotations, SERVICE_CONTAINER))
    }
  }

  method EnsurePodAnnotations(template: PodTemplate)
    modifies template`annotations
    ensures template.annotations == Some(EnsuredAnnotations(old(template.annotations)))
  {
    var annotations := if template.annotations.None? then map[] else template.annotations.value;
    annotations := annotations[GCSFUSE_VOLUMES := "true"];
    if EXCLUDED_RANGES !in annotations {
      annotations := annotations[EXCLUDED_RANGES := GCSFUSE_RANGE];
    } else {
      var ranges := Split(annotations[EXCLUDED_RANGES], ',');
      if GCSFUSE_RANGE !in ranges {
        annotations := annotations[EXCLUDED_RANGES := Join(ranges + [GCSFUSE_RANGE], ',')];
      } else {
        assert annotations == annotations[EXCLUDED_RANGES := annotations[EXCLUDED_RANGES]];
      }
    }
    template.annotations := Some(annotations);
  }

  /** Copies the wanted annotations to the ServiceAccount, visiting them in an arbitrary order, and
      sends an update only if something changed; `sent` says whether it did. */
  method HandleServiceAccount(sa: ServiceAccountObject, wanted: map<string, string>, updateAccepted: bool)
    returns (ok: bool, sent: bool)
    modifies sa
    ensures sa.annotations == Some(NotesAfter(old(sa.annotations), wanted))
    ensures sent <==> sa.annotations != old(sa.annotations)
    ensures ok == (sent ==> updateAccepted)
  {
    if sa.annotations.None? {
      sa.annotations := Some(wanted);
      return updateAccepted, true;
    }
    var before := sa.annotations.value;
    var order := AnyOrder(wanted.Keys);
    ghost var part: map<string, string> := map[];
    sent := false;
    assert Merged(before, map[]) == before;
    for i := 0 to |order|
      invariant forall k :: k in part <==> k in order[..i]
      invariant forall k | k in part :: k in wanted && part[k] == wanted[k]
      invariant sa.annotations == Some(Merged(before, part))
      invariant sent <==> Merged(before, part) != before
    {
      var key := order[i];
      Text.TakeSnoc(order, i);
      assert key in order && key !in order[..i];
      MergeStep(before, part, key, wanted[key]);
      MergeGrows(before, part, key, wanted[key]);
      if Lookup(sa.annotations.value, key) != wanted[key] {
        sent := true;
        sa.annotations := Some(sa.annotations.value[key := wanted[key]]);
      }
      part := part[key := wanted[key]];
    }
    assert order[..|order|] == order;
    assert part == wanted;
    ok := sent ==> updateAccepted;
  }

  /** Annotations of a ServiceAccount, whose map may be nil, after copying the wanted ones. */
  function NotesAfter(notes: Notes, wanted: map<string, string>): map<string, string> {
    if notes.None? then wanted else Merged(notes.value, wanted)
  }

  /** Every wanted annotation reads as wanted, all others read as before, and copying them again
      needs no update. */
  lemma NotesSettle(notes: Notes, wanted: map<string, string>, k: string)
    ensures var after := NotesAfter(notes, wanted);
            && (k in wanted ==> Lookup(after, k) == wanted[k])
            && (k !in wanted ==> Lookup(after, k) == if notes.None? then "" else Lookup(notes.value, k))
            && NotesAfter(Some(after), wanted) == after
  {
    if notes.None? {
      MergeSettles(wanted, wanted);
    } else {
      MergeSettles(notes.value, wanted);
    }
  }

  /** A difference that has been merged stays visible. */
  lemma MergeGrows(before: map<string, string>, part: map<string, string>, key: string, value: string)
    requires key !in part
    ensures Merged(before, part[key := value]) != before
            <==> Merged(before, part) != before || Lookup(before, key) != value
  {
    MergeSettles(before, part);
    MergeSettles(before, part[key := value]);
  }

  /** What the ServiceAccount is to carry. */
  function WantedAnnotations(c: AccessGroupConfig, group: string, annotations: map<string, string>)
    : map<string, string>
  {
    var base := map[IMPERSONATE_GROUP := group, ACCESS_REASON := Lookup(annotations, ACCESS_REASON)];
    if c.reasonRequired then base[REQUESTED_DURATION := Lookup(annotations, REQUESTED_DURATION)] else base
  }

  /** What the ServiceAccount reads as afterwards: the group and the reason of the StatefulSet, its
      duration exactly if the group needs a reason, and anything else as before. */
  lemma TellingReads(notes: Notes, c: AccessGroupConfig, group: string, annotations: map<string, string>, k: string)
    ensures var after := NotesAfter(notes, WantedAnnotations(c, group, annotations));
            Lookup(after, k)
            == if k == IMPERSONATE_GROUP then group
               else if k == ACCESS_REASON || (k == REQUESTED_DURATION && c.reasonRequired) then Lookup(annotations, k)
               else if notes.Some? then Lookup(notes.value, k) else ""
  {
    assert IMPERSONATE_GROUP[13] == 'i' && REQUESTED_DURATION[13] == 'r' && ACCESS_REASON[13] == 'a';
    NotesSettle(notes, WantedAnnotations(c, group, annotations), k);
  }

  /** Whatever group a ServiceAccount asked for, after the copy it asks for the one of the
      StatefulSet: the webhook itself can move it to another group. */
  lemma GroupOverwritten(notes: Notes, c: AccessGroupConfig, group: string, annotations: map<string, string>)
    ensures var after := NotesAfter(notes, WantedAnnotations(c, group, annotations));
            Lookup(after, IMPERSONATE_GROUP) == group
    ensures var after := NotesAfter(notes, WantedAnnotations(c, group, annotations));
            notes.None? || IMPERSONATE_GROUP in notes.value || group != "" ==> IMPERSONATE_GROUP in after
  {
    var wanted := WantedAnnotations(c, group, annotations);
    assert IMPERSONATE_GROUP[13] == 'i' && REQUESTED_DURATION[13] == 'r' && ACCESS_REASON[13] == 'a';
    assert IMPERSONATE_GROUP in wanted && wanted[IMPERSONATE_GROUP] == group;
  }

  /** Adds a variable unless one with the name is there. */
  function WithDefaultEnv(env: seq<EnvVar>, name: string, value: string): seq<EnvVar> {
    if exists e | e in env :: e.name == name then env else env + [EnvVar(name, value)]
  }

  function EnvIndex(env: seq<EnvVar>, name: string): (k: nat)
    ensures k <= |env|
    ensures k < |env| ==> env[k].name == name
    ensures forall i | 0 <= i < k :: env[i].name != name
  {
    if env == [] || env[0].name == name then 0 else 1 + EnvIndex(env[1..], name)
  }

  /** Adds a variable or overwrites the value of the first with the name. */
  function WithEnv(env: seq<EnvVar>, name: string, value: string): seq<EnvVar> {
    var k := EnvIndex(env, name);
    if k == |env| then env + [EnvVar(name, value)] else env[k := EnvVar(name, value)]
  }

  /** Whether access has expired: the group needs a reason, and the requested time since creation is
      over. None if the requested time cannot be read. */
  function Expiry(m: Mutator, c: AccessGroupConfig, annotations: map<string, string>, created: int,
                  now: int): Option<bool> {
    if !c.reasonRequired then Some(false)
    else
      match m.parseDuration(Lookup(annotations, REQUESTED_DURATION))
      case None => None
      case Some(duration) => Some(now > created * SECOND + duration)
  }

  /** The probe Job of a StatefulSet: it runs the configured image under the same ServiceAccount, says
      whose probe it is, and carries the finalizer. */
  predicate IsProbeOf(m: Mutator, sfs: StatefulSet, job: ProbeJob) {
    && job.name == sfs.name + "-iam-probe"
    && job.annotations == map[PROBE_JOB_ANNOTATION := sfs.name]
    && job.serviceAccount == sfs.template.serviceAccountName
    && job.image == m.probeImage
    && job.finalizers == {FINALIZER}
  }

  /** Saves the replica count, scales to zero and describes the probe Job to create. Creating it may
      fail, which changes nothing here. */
  method LaunchIamProbe(m: Mutator, sfs: StatefulSet) returns (job: ProbeJob)
    modifies sfs`annotations, sfs`replicas
    ensures sfs.annotations == old(sfs.annotations)[PROBE_STATUS := RUNNING_PREFIX + Print(old(sfs.replicas))]
    ensures sfs.replicas == 0
    ensures IsProbeOf(m, sfs, job)
  {
    sfs.annotations := sfs.annotations[PROBE_STATUS := RUNNING_PREFIX + Print(sfs.replicas)];
    sfs.replicas := 0;
    job := ProbeJob(sfs.name + "-iam-probe", map[PROBE_JOB_ANNOTATION := sfs.name],
                    sfs.template.serviceAccountName, m.probeImage, {});
    job := job.(finalizers := job.finalizers + {FINALIZER});
  }

  /** The buckets to mount: those named in the annotation, then shared ones, then standard ones. */
  function BucketsWanted(annotations: map<string, string>, around: Surroundings): BucketMap {
    var named :=
      if MOUNT_BUCKETS in annotations then map b | b in Split(annotations[MOUNT_BUCKETS], ',') :: b else map[];
    var shared := if MOUNT_SHARED_BUCKETS in annotations then around.sharedBuckets else map[];
    var standard := if StandardWanted(annotations, around) then around.standardBuckets else map[];
    named + shared + standard
  }

  predicate StandardWanted(annotations: map<string, string>, around: Surroundings) {
    Lookup(annotations, MOUNT_STANDARD_BUCKETS) == "true" && around.project.Some?
  }

  method BucketsToMount(annotations: map<string, string>, around: Surroundings) returns (buckets: BucketMap)
    ensures buckets == BucketsWanted(annotations, around)
  {
    buckets := GetExtraBucketMounts(annotations);
    if MOUNT_SHARED_BUCKETS in annotations {
      buckets := buckets + around.sharedBuckets;
    }
    if Lookup(annotations, MOUNT_STANDARD_BUCKETS) == "true" && around.project.Some? {
      buckets := buckets + around.standardBuckets;
    }
  }

  /** A mount point gets a bucket only from a source that was asked for; a standard bucket wins over
      a shared one, and that over one named in the annotation. */
  lemma BucketSources(annotations: map<string, string>, around: Surroundings, k: string)
    ensures var named := MOUNT_BUCKETS in annotations && k in Split(annotations[MOUNT_BUCKETS], ',');
            var shared := MOUNT_SHARED_BUCKETS in annotations && k in around.sharedBuckets;
            var standard := Lookup(annotations, MOUNT_STANDARD_BUCKETS) == "true" && around.project.Some?
                            && k in around.standardBuckets;
            var buckets := BucketsWanted(annotations, around);
            && (k in buckets <==> named || shared || standard)
            && (standard ==> buckets[k] == around.standardBuckets[k])
            && (shared && !standard ==> buckets[k] == around.sharedBuckets[k])
            && (named && !shared && !standard ==> buckets[k] == k)
  {
  }

  /** The labels of the pod, whose map may be nil. */
  function PodLabels(labels: Notes, c: AccessGroupConfig, group: string): map<string, string> {
    (if labels.None? then map[] else labels.value)[TEAM_LABEL := ToTeam(c, group)][GROUP_LABEL := group]
  }

  lemma LabelsRead(labels: Notes, c: AccessGroupConfig, group: string)
    ensures var after := PodLabels(labels, c, group);
            && Lookup(after, GROUP_LABEL) == group && Lookup(after, TEAM_LABEL) == ToTeam(c, group)
            && forall k | labels.Some? && k !in {GROUP_LABEL, TEAM_LABEL} :: Lookup(after, k) == Lookup(labels.value, k)
  {
    assert TEAM_LABEL[13] == 't' && GROUP_LABEL[13] == 'g';
  }

  function ProjectOf(around: Surroundings): string {
    if around.project.Some? then around.project.value else "-1"
  }

  /** Environment of the service container: the group unless set already, and the project or -1. */
  function Environment(m: Mutator, env: seq<EnvVar>, group: string, project: string): seq<EnvVar> {
    var grouped := if m.groupEnvName != "" then WithDefaultEnv(env, m.groupEnvName, group) else env;
    if m.projectEnvName != "" then WithEnv(grouped, m.projectEnvName, project) else grouped
  }

  /** The value a variable reads as: that of the first with the name. */
  function Reads(env: seq<EnvVar>, name: string): Option<string> {
    var k := EnvIndex(env, name);
    if k < |env| then Some(env[k].value) else None
  }

  /** The project always reads as given; the group keeps a value the user has set; no other variable
      reads differently. */
  lemma EnvironmentReads(m: Mutator, env: seq<EnvVar>, group: string, project: string, name: string)
    ensures Reads(Environment(m, env, group, project), name)
            == if name == m.projectEnvName != "" then Some(project)
               else if name == m.groupEnvName != "" && Reads(env, name).None? then Some(group)
               else Reads(env, name)
  {
    var grouped := if m.groupEnvName != "" then WithDefaultEnv(env, m.groupEnvName, group) else env;
    if m.groupEnvName != "" {
      DefaultEnvReads(env, m.groupEnvName, group, name);
    }
    if m.projectEnvName != "" {
      WithEnvReads(grouped, m.projectEnvName, project, name);
    }
  }

  lemma DefaultEnvReads(env: seq<EnvVar>, set': string, value: string, name: string)
    ensures Reads(WithDefaultEnv(env, set', value), name)
            == if name == set' && Reads(env, name).None? then Some(value) else Reads(env, name)
  {
    if exists e | e in env :: e.name == set' {
      var e :| e in env && e.name == set';
      var i :| 0 <= i < |env| && env[i] == e;
    } else {
      assert forall i | 0 <= i < |env| :: env[i] in env;
      AppendedReads(env, set', value, name);
    }
  }

  lemma WithEnvReads(env: seq<EnvVar>, set': string, value: string, name: string)
    ensures Reads(WithEnv(env, set', value), name) == if name == set' then Some(value) else Reads(env, name)
  {
    var k := EnvIndex(env, set');
    if k == |env| {
      AppendedReads(env, set', value, name);
    } else {
      var after := env[k := EnvVar(set', value)];
      FirstIs(after, name, EnvIndex(after, name), EnvIndex(env, name));
    }
  }

  lemma AppendedReads(env: seq<EnvVar>, set': string, value: string, name: string)
    requires EnvIndex(env, set') == |env|
    ensures Reads(env + [EnvVar(set', value)], name) == if name == set' then Some(value) else Reads(env, name)
  {
    var after := env + [EnvVar(set', value)];
    var k := EnvIndex(env, name);
    if k < |env| || name == set' {
      assert after[k].name == name;
      FirstIs(after, name, EnvIndex(after, name), k);
    } else {
      FirstIs(after, name, EnvIndex(after, name), |after|);
    }
  }

  /** There is only one first position. */
  lemma FirstIs(env: seq<EnvVar>, name: string, i: nat, j: nat)
    requires i <= |env| && (i < |env| ==> env[i].name == name) && forall h | 0 <= h < i :: env[h].name != name
    requires j <= |env| && (j < |env| ==> env[j].name == name) && forall h | 0 <= h < j :: env[h].name != name
    ensures i == j
  {
  }

  /** What a request that may be patched is about: the group, the container to serve, and the
      configuration of the group. */
  datatype Target = Target(group: string, service: Container, config: AccessGroupConfig)

  ghost function TargetOf(m: Mutator, sfs: StatefulSet): Option<Target>
    reads sfs, sfs.template.spec
  {
    TargetIn(m, sfs.deleting, sfs.annotations, sfs.template.spec.containers)
  }

  function TargetIn(m: Mutator, deleting: bool, annotations: map<string, string>,
                    containers: seq<Container>): Option<Target> {
    if deleting || IMPERSONATE_GROUP !in annotations then None
    else
      var k := FirstNamed(containers, Lookup(annotations, SERVICE_CONTAINER));
      var config := GetConfig(m.configs, annotations[IMPERSONATE_GROUP]);
      if k == |containers| || config.None? then None
      else Some(Target(annotations[IMPERSONATE_GROUP], containers[k], config.value))
  }

  /** Said without the lookups: the object stays and asks for a group with a configuration, and the
      container is the first one with the name in the service-container annotation. */
  lemma TargetMeans(m: Mutator, deleting: bool, annotations: map<string, string>, containers: seq<Container>, t: Target)
    ensures TargetIn(m, deleting, annotations, containers) == Some(t) <==>
              && !deleting && IMPERSONATE_GROUP in annotations && t.group == annotations[IMPERSONATE_GROUP]
              && GetConfig(m.configs, t.group) == Some(t.config)
              && exists k | 0 <= k < |containers| ::
                   && containers[k] == t.service
                   && containers[k].name == Lookup(annotations, "dapla.ssb.no/service-container-name")
                   && forall i | 0 <= i < k :: containers[i].name != Lookup(annotations,
                        "dapla.ssb.no/service-container-name")
  {
    var name := Lookup(annotations, SERVICE_CONTAINER);
    var first := FirstNamed(containers, name);
    forall k | 0 <= k < |containers| && containers[k].name == name
               && forall i | 0 <= i < k :: containers[i].name != name
      ensures k == first
    {
    }
  }

  /** What the probe protocol says about status and replicas of a patched object. */
  ghost predicate KeepsRule(probing: bool, annotations: map<string, string>, replicas: int,
                            newAnnotations: map<string, string>, newReplicas: int)
  {
    if probing && Lookup(annotations, PROBE_STATUS) != DONE
    then newAnnotations == annotations[PROBE_STATUS := RUNNING_PREFIX + Print(replicas)] && newReplicas == 0
    else newAnnotations == annotations && newReplicas == replicas
  }

  /** A patch that keeps the rule is exactly an admission of the probe protocol. */
  lemma RuleAdmits(probing: bool, before: Sfs, after: Sfs)
    requires !before.deleting && IMPERSONATE_GROUP in before.annotations
    requires after.name == before.name && after.deleting == before.deleting
    ensures KeepsRule(probing, before.annotations, before.replicas, after.annotations, after.replicas)
            <==> Probe.AdmittedAs(Probe.Params(probing), before, after)
  {
  }

  /** And an object that passes as it is, is an admission exactly if nothing changes. */
  lemma PassingAdmits(probing: bool, before: Sfs, after: Sfs)
    requires before.deleting || IMPERSONATE_GROUP !in before.annotations
    ensures Probe.AdmittedAs(Probe.Params(probing), before, after) <==> after == before
  {
  }

  /** What the webhook edits of a submitted object. */
  datatype Draft = Draft(annotations: map<string, string>, replicas: int, podAnnotations: Notes,
                         labels: Notes, env: seq<EnvVar>, shape: Shape)

  ghost function DraftOf(sfs: StatefulSet, service: Container): Draft
    reads sfs, sfs.template, sfs.template.spec, sfs.template.spec.containers`mounts, service`mounts, service`env
  {
    Draft(sfs.annotations, sfs.replicas, sfs.template.annotations, sfs.template.labels, service.env,
          ShapeOf(sfs.template.spec, service))
  }

  /** What a patch may make of an object: status and replicas keep the rule of the probe protocol,
      the pod has its annotations, labels and environment, and the bucket phase has run on the
      expiry and the buckets the request calls for. */
  ghost function Patches(m: Mutator, config: AccessGroupConfig, group: string, created: int, around: Surroundings,
                         before: Draft): iset<Draft> {
    iset after: Draft | IsPatch(m, config, group, created, around, before, after)
  }

  ghost predicate IsPatch(m: Mutator, config: AccessGroupConfig, group: string, created: int, around: Surroundings,
                          before: Draft, after: Draft)
  {
    var expired := Expiry(m, config, before.annotations, created, around.now);
    && expired.Some?
    && after.shape in Outcomes(m.md5, m.precreatorImage, expired.value, BucketsWanted(before.annotations, around),
         before.shape)
    && KeepsRule(m.probeImage != "", before.annotations, before.replicas, after.annotations, after.replicas)
    && after.podAnnotations == Some(EnsuredAnnotations(before.podAnnotations))
    && after.labels == Some(PodLabels(before.labels, config, group))
    && after.env == Environment(m, before.env, group, ProjectOf(around))
  }

  /** The steps of the edit, one after the other: annotations, labels and environment; the bucket
      phase; the probe. */
  lemma PatchMade(m: Mutator, config: AccessGroupConfig, group: string, created: int, around: Surroundings,
                  before: Draft, prepared: Draft, mounted: Draft, after: Draft)
    requires prepared == before.(podAnnotations := Some(EnsuredAnnotations(before.podAnnotations)),
                                 labels := Some(PodLabels(before.labels, config, group)),
                                 env := Environment(m, before.env, group, ProjectOf(around)))
    requires Expiry(m, config, before.annotations, created, around.now).Some?
    requires mounted == prepared.(shape := mounted.shape)
             && mounted.shape in Outcomes(m.md5, m.precreatorImage,
                                          Expiry(m, config, before.annotations, created, around.now).value,
                                          BucketsWanted(before.annotations, around), before.shape)
    requires after == mounted.(annotations := after.annotations, replicas := after.replicas)
             && KeepsRule(m.probeImage != "", before.annotations, before.replicas, after.annotations, after.replicas)
    ensures after in Patches(m, config, group, created, around, before)
  {
  }

  /** A patch of a request whose group needs a reason had a duration that can be read. */
  lemma PatchIsReadable(m: Mutator, config: AccessGroupConfig, group: string, created: int, around: Surroundings,
                        before: Draft, after: Draft)
    requires after in Patches(m, config, group, created, around, before)
    ensures config.reasonRequired ==> m.parseDuration(Lookup(before.annotations, REQUESTED_DURATION)).Some?
  {
  }

  /** The requested time since creation is over, for a group that needs a reason. */
  predicate TimeIsUp(m: Mutator, config: AccessGroupConfig, created: int, now: int, annotations: map<string, string>) {
    var duration := m.parseDuration(Lookup(annotations, REQUESTED_DURATION));
    config.reasonRequired && duration.Some? && now > created * SECOND + duration.value
  }

  /** Once it is, a patch leaves no bucket volume, no bucket mount and no sidecar, and everything else. */
  lemma PatchAfterTime(m: Mutator, config: AccessGroupConfig, group: string, created: int, around: Surroundings,
                       before: Draft, after: Draft)
    requires after in Patches(m, config, group, created, around, before)
    requires TimeIsUp(m, config, created, around.now, before.annotations)
    ensures forall v :: v in after.shape.volumes <==> v in before.shape.volumes && !HasPrefix(v.name, "gcsfuse-")
    ensures forall v :: v in after.shape.mounts <==> v in before.shape.mounts && !HasPrefix(v.name, "gcsfuse-")
    ensures after.shape.sidecars == {}
  {
    ExpiredMeans(m.md5, m.precreatorImage, BucketsWanted(before.annotations, around), before.shape, after.shape);
  }

  /** Until then every wanted bucket has its volume and its mount, every new one is for such a bucket,
      and with an image the sidecar mounts exactly those. */
  lemma PatchInTime(m: Mutator, config: AccessGroupConfig, group: string, created: int, around: Surroundings,
                    before: Draft, after: Draft)
    requires after in Patches(m, config, group, created, around, before)
    requires !TimeIsUp(m, config, created, around.now, before.annotations)
    ensures var buckets := BucketsWanted(before.annotations, around);
            && (forall k | k in buckets ::
                  && (exists v | v in after.shape.volumes :: v.name == VolumeName(m.md5, k))
                  && (exists v | v in after.shape.mounts :: v.name == VolumeName(m.md5, k)))
            && before.shape.volumes <= after.shape.volumes && before.shape.mounts <= after.shape.mounts
            && (forall v | v in after.shape.volumes ::
                  v in before.shape.volumes || exists k :: Holds(m.md5, buckets, k, v))
            && (forall v | v in after.shape.mounts ::
                  v in before.shape.mounts || exists k :: k in buckets && MountsAt(m.md5, k, v))
            && (m.precreatorImage.None? ==> after.shape.sidecars == {})
            && (m.precreatorImage.Some? ==>
                  Sidecar(m.precreatorImage.value,
                      set k | k in buckets :: VolumeName(m.md5, k)) in after.shape.sidecars)
  {
    ActiveMeans(m.md5, m.precreatorImage, BucketsWanted(before.annotations, around), before.shape, after.shape);
  }

  /** What a patch makes of the pod's annotations, its labels, and the service container's variables. */
  lemma PatchReads(m: Mutator, config: AccessGroupConfig, group: string, created: int, around: Surroundings,
                   before: Draft, after: Draft)
    requires after in Patches(m, config, group, created, around, before)
    ensures after.podAnnotations.Some? && Lookup(after.podAnnotations.value, "gke-gcsfuse/volumes") == "true"
    ensures after.labels.Some?
            && Lookup(after.labels.value, "dapla.ssb.no/group") == group
            && Lookup(after.labels.value, "dapla.ssb.no/team") == ToTeam(config, group)
    ensures m.projectEnvName != "" ==>
              Reads(after.env, m.projectEnvName) == if around.project.Some? then around.project else Some("-1")
    ensures m.groupEnvName != "" && m.groupEnvName != m.projectEnvName ==>
              Reads(after.env, m.groupEnvName)
              == if Reads(before.env, m.groupEnvName).Some? then Reads(before.env, m.groupEnvName) else Some(group)
  {
    AnnotationsRead(before.podAnnotations);
    LabelsRead(before.labels, config, group);
    EnvironmentReads(m, before.env, group, ProjectOf(around), m.projectEnvName);
    EnvironmentReads(m, before.env, group, ProjectOf(around), m.groupEnvName);
  }

  /** The whole webhook. `job` is the probe Job it tries to create. */
  method Handle(m: Mutator, sfs: StatefulSet, around: Surroundings)
    returns (response: Response, job: Option<ProbeJob>, update: Notes)
    // Of the containers' contents only the service container's may change.
    modifies sfs, sfs.template, sfs.template.spec
    modifies if TargetOf(m, sfs).Some? then {TargetOf(m, sfs).value.service} else {}
    // Objects that are being deleted or ask for no group pass as they are.
    ensures response.Allowed? <==> old(sfs.deleting || IMPERSONATE_GROUP !in sfs.annotations)
    ensures response.Allowed? ==> unchanged(sfs, sfs.template, sfs.template.spec)
    // The ServiceAccount is told the group, the reason and, if needed, the duration.
    ensures update == if old(TargetOf(m, sfs)).Some? then UpdateFor(around, old(WantedFor(m, sfs))) else None
    // Without a service container the request is an error; otherwise it is denied, or patched.
    ensures response.Errored? <==> !response.Allowed? && old(sfs.ServiceAt() == |sfs.template.spec.containers|)
    ensures response.Patched? <==>
              && old(TargetOf(m, sfs)).Some?
              && Told(around, old(WantedFor(m, sfs)))
              && Expiry(m, old(TargetOf(m, sfs)).value.config, old(sfs.annotations), sfs.created, around.now).Some?
    // A ServiceAccount that is missing, or refuses an update it needs, denies the request.
    ensures around.serviceAccount.None? || (update.Some? && !around.updateAccepted) ==> !response.Patched?
    ensures response.Patched? ==>
              var target := old(TargetOf(m, sfs)).value;
              DraftOf(sfs, target.service)
              in Patches(m, target.config, target.group, sfs.created, around,
                  old(DraftOf(sfs, TargetOf(m, sfs).value.service)))
    // Every other container stays, in order.
    ensures WithoutNamed(sfs.template.spec.containers, PRECREATOR)
            == old(WithoutNamed(sfs.template.spec.containers, PRECREATOR))
    // A probe Job goes with every suspension, and carries the finalizer.
    ensures job.Some? <==> response.Patched? && m.probeImage != "" && Lookup(old(sfs.annotations), PROBE_STATUS) != DONE
    ensures job.Some? ==> IsProbeOf(m, sfs, job.value)
  {
    job, update := None, None;
    if sfs.deleting || IMPERSONATE_GROUP !in sfs.annotations {
      return Allowed, None, None;
    }
    var target;
    response, target := AnnotateAndFind(m, sfs, TargetOf(m, sfs));
    if target.Some? {
      ghost var before := old(DraftOf(sfs, TargetOf(m, sfs).value.service));
      response, job, update := TellAndPatch(m, sfs, target.value, around, before);
    }
  }

  ghost function WantedFor(m: Mutator, sfs: StatefulSet): map<string, string>
    requires TargetOf(m, sfs).Some?
    reads sfs, sfs.template.spec
  {
    WantedAnnotations(TargetOf(m, sfs).value.config, TargetOf(m, sfs).value.group, sfs.annotations)
  }

  /** The annotations of the pod, and then the lookups a patch needs. */
  method AnnotateAndFind(m: Mutator, sfs: StatefulSet, ghost wanted: Option<Target>)
    returns (response: Response, target: Option<Target>)
    requires !sfs.deleting && IMPERSONATE_GROUP in sfs.annotations && wanted == TargetOf(m, sfs)
    modifies sfs.template`annotations
    ensures sfs.template.spec.containers == old(sfs.template.spec.containers)
    ensures target == wanted
    ensures target.Some? ==>
              var before := old(DraftOf(sfs, wanted.value.service));
              && target.value.service in sfs.template.spec.containers
              && DraftOf(sfs, target.value.service)
                   == before.(podAnnotations := Some(EnsuredAnnotations(before.podAnnotations)))
    ensures target.None? ==>
              response == if old(sfs.ServiceAt() == |sfs.template.spec.containers|) then Errored else Denied
  {
    AnnotatePod(sfs, if wanted.Some? then Some(wanted.value.service) else None);
    response, target := FindTarget(m, sfs);
  }

  /** The annotations of the pod; nothing else of the draft changes. */
  method AnnotatePod(sfs: StatefulSet, ghost service: Option<Container>)
    modifies sfs.template`annotations
    ensures service.Some? ==>
              var before := old(DraftOf(sfs, service.value));
              DraftOf(sfs, service.value) == before.(podAnnotations := Some(EnsuredAnnotations(before.podAnnotations)))
  {
    EnsurePodAnnotations(sfs.template);
  }

  /** The lookups; the response says which of them failed. */
  method FindTarget(m: Mutator, sfs: StatefulSet) returns (response: Response, target: Option<Target>)
    requires !sfs.deleting && IMPERSONATE_GROUP in sfs.annotations
    ensures target == TargetOf(m, sfs)
    ensures target.Some? ==> target.value.service in sfs.template.spec.containers
    ensures target.None? ==>
              response == if sfs.ServiceAt() == |sfs.template.spec.containers| then Errored else Denied
  {
    var k := sfs.ServiceAt();
    if k == |sfs.template.spec.containers| {
      return Errored, None;
    }
    var config := GetConfig(m.configs, sfs.annotations[IMPERSONATE_GROUP]);
    if config.None? {
      return Denied, None;
    }
    return Patched, Some(Target(sfs.annotations[IMPERSONATE_GROUP], sfs.template.spec.containers[k], config.value));
  }

  /** The ServiceAccount can be read, and it has the wanted annotations or accepts them. */
  predicate Told(around: Surroundings, wanted: map<string, string>) {
    around.serviceAccount.Some? && (UpdateFor(around, wanted).Some? ==> around.updateAccepted)
  }

  /** The annotations an update of the ServiceAccount sends, if one is needed. */
  function UpdateFor(around: Surroundings, wanted: map<string, string>): Notes {
    if around.serviceAccount.None?
       || around.serviceAccount.value == Some(NotesAfter(around.serviceAccount.value, wanted)) then None
    else Some(NotesAfter(around.serviceAccount.value, wanted))
  }

  /** An update is needed exactly if there is no annotation map or a wanted annotation reads differently. */
  lemma UpdateNeededIff(around: Surroundings, wanted: map<string, string>)
    requires around.serviceAccount.Some?
    ensures var notes := around.serviceAccount.value;
            UpdateFor(around, wanted).Some? <==>
              notes.None? || exists k | k in wanted :: Lookup(notes.value, k) != wanted[k]
  {
    if around.serviceAccount.value.Some? {
      MergeSettles(around.serviceAccount.value.value, wanted);
    }
  }

  /** Brings the ServiceAccount up to date. The submitted object stays. */
  method TellServiceAccount(m: Mutator, sfs: StatefulSet, target: Target, around: Surroundings)
    returns (told: bool, update: Notes)
    ensures var wanted := WantedAnnotations(target.config, target.group, sfs.annotations);
            told == Told(around, wanted) && update == UpdateFor(around, wanted)
    ensures DraftOf(sfs, target.service) == old(DraftOf(sfs, target.service))
  {
    if around.serviceAccount.None? {
      return false, None;
    }
    var sa := new ServiceAccountObject(around.serviceAccount.value);
    var wanted := WantedAnnotations(target.config, target.group, sfs.annotations);
    var sent;
    told, sent := HandleServiceAccount(sa, wanted, around.updateAccepted);
    update := if sent then sa.annotations else None;
  }

  /** Everything after the lookups; `before` is what was submitted. */
  method TellAndPatch(m: Mutator, sfs: StatefulSet, target: Target, around: Surroundings, ghost before: Draft)
    returns (response: Response, job: Option<ProbeJob>, update: Notes)
    requires target.service in sfs.template.spec.containers
    requires DraftOf(sfs, target.service) == before.(podAnnotations := Some(EnsuredAnnotations(before.podAnnotations)))
    modifies sfs`annotations, sfs`replicas, sfs.template`labels, sfs.template.spec, target.service
    ensures WithoutNamed(sfs.template.spec.containers, PRECREATOR)
            == old(WithoutNamed(sfs.template.spec.containers, PRECREATOR))
    ensures var wanted := WantedAnnotations(target.config, target.group, before.annotations);
            && update == UpdateFor(around, wanted)
            && response
               == if Told(around, wanted)
                     && Expiry(m, target.config, before.annotations, sfs.created, around.now).Some?
                           then Patched else Denied
    ensures response.Patched? ==>
              DraftOf(sfs, target.service) in Patches(m, target.config, target.group, sfs.created, around, before)
    ensures job.Some? <==> response.Patched? && m.probeImage != "" && Lookup(before.annotations, PROBE_STATUS) != DONE
    ensures job.Some? ==> IsProbeOf(m, sfs, job.value)
  {
    var told;
    told, update := TellServiceAccount(m, sfs, target, around);
    if !told {
      return Denied, None, update;
    }
    response, job := Patch(m, sfs, target, around, before);
  }

  /** The part of the webhook that edits the object; `before` is what was submitted. */
  method Patch(m: Mutator, sfs: StatefulSet, target: Target, around: Surroundings, ghost before: Draft)
    returns (response: Response, job: Option<ProbeJob>)
    requires target.service in sfs.template.spec.containers
    requires DraftOf(sfs, target.service) == before.(podAnnotations := Some(EnsuredAnnotations(before.podAnnotations)))
    modifies sfs`annotations, sfs`replicas, sfs.template`labels, sfs.template.spec, target.service
    ensures WithoutNamed(sfs.template.spec.containers, PRECREATOR)
            == old(WithoutNamed(sfs.template.spec.containers, PRECREATOR))
    ensures response
            == if Expiry(m, target.config, before.annotations, sfs.created, around.now).Some? then Patched else Denied
    ensures response.Patched? ==>
              DraftOf(sfs, target.service) in Patches(m, target.config, target.group, sfs.created, around, before)
    ensures job.Some? <==> response.Patched? && m.probeImage != "" && Lookup(before.annotations, PROBE_STATUS) != DONE
    ensures job.Some? ==> IsProbeOf(m, sfs, job.value)
  {
    Prepare(m, sfs, target, around);
    var expired := Expiry(m, target.config, sfs.annotations, sfs.created, around.now);
    if expired.None? {
      return Denied, None;
    }
    job := MountAndProbe(m, sfs, target, expired.value, around, before);
    response := Patched;
  }

  /** The bucket phase and the probe step, once access is known to be over or not. */
  method MountAndProbe(m: Mutator, sfs: StatefulSet, target: Target, expired: bool, around: Surroundings,
                       ghost before: Draft)
    returns (job: Option<ProbeJob>)
    requires target.service in sfs.template.spec.containers
    requires Expiry(m, target.config, before.annotations, sfs.created, around.now) == Some(expired)
    requires DraftOf(sfs, target.service)
             == before.(podAnnotations := Some(EnsuredAnnotations(before.podAnnotations)),
                        labels := Some(PodLabels(before.labels, target.config, target.group)),
                        env := Environment(m, before.env, target.group, ProjectOf(around)))
    modifies sfs`annotations, sfs`replicas, sfs.template.spec, target.service`mounts
    ensures WithoutNamed(sfs.template.spec.containers, PRECREATOR)
            == old(WithoutNamed(sfs.template.spec.containers, PRECREATOR))
    ensures DraftOf(sfs, target.service) in Patches(m, target.config, target.group, sfs.created, around, before)
    ensures job.Some? <==> m.probeImage != "" && Lookup(before.annotations, PROBE_STATUS) != DONE
    ensures job.Some? ==> IsProbeOf(m, sfs, job.value)
  {
    ghost var prepared := DraftOf(sfs, target.service);
    MountBuckets(m, sfs, target.service, expired, around);
    ghost var mounted := DraftOf(sfs, target.service);
    job := ProbeUnlessDone(m, sfs, target.service);
    PatchMade(m, target.config, target.group, sfs.created, around, before, prepared, mounted,
        DraftOf(sfs, target.service));
  }

  /** Labels of the pod and environment of the service container. */
  method Prepare(m: Mutator, sfs: StatefulSet, target: Target, around: Surroundings)
    modifies sfs.template`labels, target.service`env
    ensures var before := old(DraftOf(sfs, target.service));
            DraftOf(sfs, target.service)
            == before.(labels := Some(PodLabels(before.labels, target.config, target.group)),
                       env := Environment(m, before.env, target.group, ProjectOf(around)))
  {
    var template := sfs.template;
    var labels := if template.labels.None? then map[] else template.labels.value;
    labels := labels[TEAM_LABEL := ToTeam(target.config, target.group)];
    template.labels := Some(labels[GROUP_LABEL := target.group]);
    SetEnvironment(m, target.service, target.group, ProjectOf(around));
  }

  method SetEnvironment(m: Mutator, service: Container, group: string, project: string)
    modifies service`env
    ensures service.env == Environment(m, old(service.env), group, project)
  {
    if m.groupEnvName != "" {
      if !exists e | e in service.env :: e.name == m.groupEnvName {
        service.env := service.env + [EnvVar(m.groupEnvName, group)];
      }
    }
    if m.projectEnvName != "" {
      var k := EnvIndex(service.env, m.projectEnvName);
      if k == |service.env| {
        service.env := service.env + [EnvVar(m.projectEnvName, project)];
      } else {
        service.env := service.env[k := service.env[k].(value := project)];
      }
    }
  }

  /** The bucket phase on the submitted object. */
  method MountBuckets(m: Mutator, sfs: StatefulSet, service: Container, expired: bool, around: Surroundings)
    requires service in sfs.template.spec.containers
    modifies sfs.template.spec, service`mounts
    ensures WithoutNamed(sfs.template.spec.containers, PRECREATOR)
            == old(WithoutNamed(sfs.template.spec.containers, PRECREATOR))
    ensures var before := old(DraftOf(sfs, service));
            var after := DraftOf(sfs, service);
            && after == before.(shape := after.shape)
            && after.shape in Outcomes(m.md5, m.precreatorImage, expired, BucketsWanted(before.annotations, around),
                 before.shape)
  {
    var buckets := BucketsToMount(sfs.annotations, around);
    BucketPhase(m.md5, sfs.template.spec, service, expired, buckets, m.precreatorImage);
  }

  /** The probe step: unless the probe is done, the object is suspended and a Job asked for. */
  method ProbeUnlessDone(m: Mutator, sfs: StatefulSet, ghost service: Container) returns (job: Option<ProbeJob>)
    modifies sfs`annotations, sfs`replicas
    ensures var before := old(DraftOf(sfs, service));
            && DraftOf(sfs, service) == before.(annotations := sfs.annotations, replicas := sfs.replicas)
            && KeepsRule(m.probeImage != "", before.annotations, before.replicas, sfs.annotations, sfs.replicas)
            && (job.Some? <==> m.probeImage != "" && Lookup(before.annotations, PROBE_STATUS) != DONE)
    ensures job.Some? ==> IsProbeOf(m, sfs, job.value)
  {
    job := None;
    if m.probeImage != "" && Lookup(sfs.annotations, PROBE_STATUS) != DONE {
      var launched := LaunchIamProbe(m, sfs);
      job := Some(launched);
    }
  }
}
