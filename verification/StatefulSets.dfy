/** StatefulSets as far as the IAM probe is concerned: the replica count that is saved in an
    annotation while the probe runs, and restored afterwards
    (internal/controller/statefulset_webhook.go, internal/controller/job_controller.go). */
module StatefulSets {
  import opened Text
  import opened Decimal
  import opened Buckets
  import opened ServiceAccounts

  const SERVICE_CONTAINER := "dapla.ssb.no/service-container-name"
  const PROBE_STATUS := "dapla.ssb.no/iam-probe-completed"
  const RUNNING_PREFIX := "running-replicas-"
  const DONE := "done"
  const REFRESH_VOLUME := "refresh-buckets-command"

  datatype PodContainer = PodContainer(name: string, mounts: seq<Mount>)

  datatype Sfs = Sfs(
    name: string,
    deleting: bool,
    annotations: map<string, string>,
    replicas: int,
    volumes: seq<Volume>,
    containers: seq<PodContainer>)

  function StatusOf(sfs: Sfs): string {
    Lookup(sfs.annotations, PROBE_STATUS)
  }

  predicate IsDone(sfs: Sfs) {
    StatusOf(sfs) == DONE
  }

  /** The mutating webhook changes only objects that ask for a group and are not being deleted. */
  predicate IsMutated(sfs: Sfs) {
    !sfs.deleting && IMPERSONATE_GROUP in sfs.annotations
  }

  /** Saves the replica count in the status and scales to zero. */
  function Suspend(sfs: Sfs): Sfs {
    sfs.(annotations := sfs.annotations[PROBE_STATUS := RUNNING_PREFIX + Print(sfs.replicas)], replicas := 0)
  }

  /** What the webhook does to status and replicas; `probing` says that a probe image is configured. */
  function AfterWebhook(probing: bool, sfs: Sfs): Sfs {
    if IsMutated(sfs) && probing && !IsDone(sfs) then Suspend(sfs) else sfs
  }

  /** The count the reconciler restores; 1 if the status holds no number. */
  function SavedReplicas(sfs: Sfs): int {
    match Parse(TrimPrefix(StatusOf(sfs), RUNNING_PREFIX))
    case None => 1
    case Some(n) => ToInt32(n)
  }

  function ServiceIndex(sfs: Sfs): (k: nat)
    ensures k <= |sfs.containers|
    ensures k < |sfs.containers| ==> sfs.containers[k].name == Lookup(sfs.annotations, SERVICE_CONTAINER)
    ensures forall i | 0 <= i < k :: sfs.containers[i].name != Lookup(sfs.annotations, SERVICE_CONTAINER)
  {
    IndexOfContainer(sfs.containers, Lookup(sfs.annotations, SERVICE_CONTAINER))
  }

  function IndexOfContainer(containers: seq<PodContainer>, name: string): (k: nat)
    ensures k <= |containers|
    ensures k < |containers| ==> containers[k].name == name
    ensures forall i | 0 <= i < k :: containers[i].name != name
  {
    if containers == [] || containers[0].name == name then 0 else 1 + IndexOfContainer(containers[1..], name)
  }

  function ConfigMapName(sfs: Sfs): string {
    sfs.name + "-refresh-buckets"
  }

  function RefreshVolume(sfs: Sfs): Volume {
    Volume(REFRESH_VOLUME, ConfigMap(ConfigMapName(sfs), 0x16d))
  }

  function RefreshMount(): Mount {
    Mount(REFRESH_VOLUME, "/usr/bin/refresh-buckets", "refresh-buckets", false)
  }

  /** Status and replicas of the revived object; needed before the service container is looked up. */
  function Restored(sfs: Sfs): Sfs {
    sfs.(replicas := SavedReplicas(sfs), annotations := sfs.annotations[PROBE_STATUS := DONE])
  }

  /** The object the reconciler writes back. */
  function Revived(sfs: Sfs): Sfs
    requires ServiceIndex(sfs) < |sfs.containers|
  {
    var k := ServiceIndex(sfs);
    Restored(sfs).(volumes := sfs.volumes + [RefreshVolume(sfs)],
                   containers := sfs.containers[
                     k := sfs.containers[k].(mounts := sfs.containers[k].mounts + [RefreshMount()])])
  }

  lemma StatusKeyDiffers()
    ensures PROBE_STATUS != IMPERSONATE_GROUP && PROBE_STATUS != SERVICE_CONTAINER
  {
    assert PROBE_STATUS[13] == 'i' && IMPERSONATE_GROUP[13] == 'i';
    assert PROBE_STATUS[14] == 'a' && IMPERSONATE_GROUP[14] == 'm';
    assert SERVICE_CONTAINER[13] == 's';
  }

  /** A suspended object is not done, and its saved count is the one it had. */
  lemma SuspendSavesReplicas(sfs: Sfs)
    requires IsInt32(sfs.replicas)
    ensures !IsDone(Suspend(sfs))
    ensures SavedReplicas(Suspend(sfs)) == sfs.replicas
  {
    var status := RUNNING_PREFIX + Print(sfs.replicas);
    assert |status| > |DONE|;
    assert TrimPrefix(status, RUNNING_PREFIX) == Print(sfs.replicas);
    PrintParseRoundTrip(sfs.replicas);
  }

  /** A status that holds no number gives one replica. */
  lemma NoNumberGivesOne(sfs: Sfs)
    requires Parse(TrimPrefix(StatusOf(sfs), "running-replicas-")).None?
    ensures SavedReplicas(sfs) == 1
  {
  }

  lemma NoStatusGivesOne(sfs: Sfs)
    requires PROBE_STATUS !in sfs.annotations || sfs.annotations[PROBE_STATUS] == DONE
    ensures SavedReplicas(sfs) == 1
  {
    NotANumber("");
    NotANumber(DONE);
  }

  /** What reviving does to an object: the replicas and the status, a volume with the refresh command of
      this StatefulSet, and its mount in the service container; nothing else. */
  lemma RevivedIs(sfs: Sfs)
    requires ServiceIndex(sfs) < |sfs.containers|
    ensures var k, t := ServiceIndex(sfs), Revived(sfs);
            && t.name == sfs.name && t.deleting == sfs.deleting
            && t.replicas == SavedReplicas(sfs)
            && t.annotations == sfs.annotations["dapla.ssb.no/iam-probe-completed" := "done"]
            && t.volumes
                 == sfs.volumes + [Volume("refresh-buckets-command", ConfigMap(sfs.name + "-refresh-buckets", 365))]
            && |t.containers| == |sfs.containers|
            && (forall i | 0 <= i < |sfs.containers| && i != k :: t.containers[i] == sfs.containers[i])
            && t.containers[k].name == sfs.containers[k].name
            && t.containers[k].mounts
               == sfs.containers[k].mounts
                  + [Mount("refresh-buckets-command", "/usr/bin/refresh-buckets", "refresh-buckets", false)]
  {
  }

  /** The reconciler's own update passes through the webhook with replicas and status unchanged. */
  lemma RevivedPassesWebhook(probing: bool, sfs: Sfs)
    requires ServiceIndex(sfs) < |sfs.containers|
    ensures AfterWebhook(probing, Revived(sfs)) == Revived(sfs)
    ensures IsDone(Revived(sfs)) && Revived(sfs).replicas == SavedReplicas(sfs)
  {
  }

  /** Reviving keeps referential integrity of the service container's mounts. */
  lemma RevivedResolves(sfs: Sfs)
    requires ServiceIndex(sfs) < |sfs.containers|
    requires Resolves(sfs.containers[ServiceIndex(sfs)].mounts, sfs.volumes)
    ensures Resolves(Revived(sfs).containers[ServiceIndex(sfs)].mounts, Revived(sfs).volumes)
  {
    NamesConcat(sfs.volumes, [RefreshVolume(sfs)], [], []);
    assert RefreshVolume(sfs) in [RefreshVolume(sfs)];
  }
}
