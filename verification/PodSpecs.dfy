/** Pods and containers as the mutating webhook edits them in place: bucket volumes and mounts, and
    the sidecar that creates folders in the buckets (internal/controller/volumes.go,
    internal/controller/precreator.go). */
module PodSpecs {
  import opened Options
  import opened Text
  import opened VolumeNames
  import opened Buckets

  const PRECREATOR := "bucket-folders-precreator"

  datatype EnvVar = EnvVar(name: string, value: string)

  class Container {
    const name: string
    const image: string
    var env: seq<EnvVar>
    var mounts: seq<Mount>

    constructor (name: string, image: string, mounts: seq<Mount>)
      ensures this.name == name && this.image == image && this.mounts == mounts && env == []
    {
      this.name, this.image, this.mounts, env := name, image, mounts, [];
    }
  }

  class PodSpec {
    var volumes: seq<Volume>
    var containers: seq<Container>

    constructor (volumes: seq<Volume>, containers: seq<Container>)
      ensures this.volumes == volumes && this.containers == containers
    {
      this.volumes, this.containers := volumes, containers;
    }

    /** The mounts of the service container, and of every container with the sidecar's name, all
        name volumes of the pod. */
    ghost predicate MountsResolve(service: Container)
      reads this, containers`mounts, service`mounts
    {
      && Resolves(service.mounts, volumes)
      && forall c | c in containers && c.name == PRECREATOR :: Resolves(c.mounts, volumes)
    }
  }

  /** The position of the first container with the name, or the number of containers. */
  function FirstNamed(containers: seq<Container>, name: string): (k: nat)
    ensures k <= |containers|
    ensures k < |containers| ==> containers[k].name == name
    ensures forall i | 0 <= i < k :: containers[i].name != name
  {
    if containers == [] || containers[0].name == name then 0 else 1 + FirstNamed(containers[1..], name)
  }

  function WithoutNamed(containers: seq<Container>, name: string): seq<Container> {
    if containers == [] then []
    else if containers[0].name == name then WithoutNamed(containers[1..], name)
    else [containers[0]] + WithoutNamed(containers[1..], name)
  }

  lemma {:induction false} WithoutNamedMembers(containers: seq<Container>, name: string)
    ensures forall c :: c in WithoutNamed(containers, name) <==> c in containers && c.name != name
  {
    if containers != [] {
      WithoutNamedMembers(containers[1..], name);
      assert forall c :: c in containers <==> c == containers[0] || c in containers[1..];
    }
  }

  lemma {:induction false} WithoutNamedConcat(a: seq<Container>, b: seq<Container>, name: string)
    ensures WithoutNamed(a + b, name) == WithoutNamed(a, name) + WithoutNamed(b, name)
  {
    if a == [] {
      assert a + b == b;
    } else {
      var rest := a[1..];
      WithoutNamedConcat(rest, b, name);
      assert (a + b)[0] == a[0] && (a + b)[1..] == rest + b;
      ConsConcat(a[0], WithoutNamed(rest, name), WithoutNamed(b, name));
    }
  }

  /** Putting in a container with the name, in place of one with the name or at the end, leaves the
      other containers and their order alone; so does dropping those with the name. */
  lemma OthersStay(containers: seq<Container>, c: Container)
    ensures var k := FirstNamed(containers, c.name);
            WithoutNamed(if k < |containers| then containers[k := c] else containers + [c], c.name)
            == WithoutNamed(containers, c.name)
  {
    var k := FirstNamed(containers, c.name);
    assert WithoutNamed([c], c.name) == [];
    if k < |containers| {
      var front, back := containers[..k], containers[k + 1..];
      assert containers == front + ([containers[k]] + back) && containers[k := c] == front + ([c] + back);
      WithoutNamedConcat(front, [containers[k]] + back, c.name);
      WithoutNamedConcat(front, [c] + back, c.name);
      WithoutNamedConcat([containers[k]], back, c.name);
      WithoutNamedConcat([c], back, c.name);
    } else {
      WithoutNamedConcat(containers, [c], c.name);
    }
  }

  lemma {:induction false} WithoutNamedTwice(containers: seq<Container>, name: string)
    ensures WithoutNamed(WithoutNamed(containers, name), name) == WithoutNamed(containers, name)
  {
    if containers != [] {
      WithoutNamedTwice(containers[1..], name);
      var rest := WithoutNamed(containers[1..], name);
      assert ([containers[0]] + rest)[1..] == rest;
    }
  }

  /** An arbitrary order of a set: how Go visits the keys of a map. */
  method AnyOrder<T(==)>(keys: set<T>) returns (order: seq<T>)
    ensures Distinct(order) && forall k :: k in order <==> k in keys
  {
    order := [];
    var remaining := keys;
    while remaining != {}
      invariant remaining <= keys && Distinct(order)
      invariant forall k :: k in order <==> k in keys && k !in remaining
    {
      var k :| k in remaining;
      assert forall i | 0 <= i < |order| :: order[i] in order;
      order, remaining := order + [k], remaining - {k};
    }
  }

  /** The volumes and mounts that are missing, for the map visited in this order. */
  method CollectMissing(md5: Md5, had: seq<Volume>, hadMounts: seq<Mount>, buckets: BucketMap, order: seq<string>)
    returns (volumes: seq<Volume>, mounts: seq<Mount>)
    ensures volumes == NewVolumes(md5, buckets, order, had)
    ensures mounts == NewMounts(md5, order, hadMounts)
  {
    volumes, mounts := [], [];
    for i := 0 to |order|
      invariant volumes == NewVolumes(md5, buckets, order[..i], had)
      invariant mounts == NewMounts(md5, order[..i], hadMounts)
    {
      var mountPoint := order[i];
      var volumeName := VolumeName(md5, mountPoint);
      NewSnoc(md5, buckets, order[..i], mountPoint, had, hadMounts);
      TakeSnoc(order, i);
      if volumeName !in NamesOfVolumes(had) {
        volumes := volumes + [VolumeMaker(md5, buckets)(mountPoint)];
      }
      if volumeName !in NamesOfMounts(hadMounts) {
        mounts := mounts + [MountMaker(md5)(mountPoint)];
      }
    }
    assert order[..|order|] == order;
  }

  /** Adds a volume and a mount for each bucket unless one with the derived name is there. The order
      in which the map was visited is returned as `order`. */
  method AddBucketsToPodSpec(md5: Md5, pod: PodSpec, container: Container, buckets: BucketMap)
    returns (shouldUpdate: bool, ghost order: seq<string>)
    modifies pod, container`mounts
    ensures IsOrder(order, buckets)
    ensures pod.volumes == old(pod.volumes) + NewVolumes(md5, buckets, order, old(pod.volumes))
    ensures container.mounts == old(container.mounts) + NewMounts(md5, order, old(container.mounts))
    ensures BucketsThere(md5, buckets, old(pod.volumes), old(container.mounts), pod.volumes, container.mounts)
    ensures shouldUpdate <==> pod.volumes != old(pod.volumes) || container.mounts != old(container.mounts)
    ensures pod.containers == old(pod.containers)
  {
    var visited := AnyOrder(buckets.Keys);
    var volumes, mounts := CollectMissing(md5, pod.volumes, container.mounts, buckets, visited);
    order := visited;
    AddedAreThere(md5, buckets, visited, pod.volumes, container.mounts);
    pod.volumes := pod.volumes + volumes;
    container.mounts := container.mounts + mounts;
    shouldUpdate := |volumes| > 0 || |mounts| > 0;
  }

  lemma {:induction false} NewPointsSnoc(md5: Md5, order: seq<string>, k: string, taken: set<string>)
    ensures NewPoints(md5, order + [k], taken)
            == NewPoints(md5, order, taken) + if VolumeName(md5, k) in taken then [] else [k]
  {
    if order != [] {
      var rest := order[1..];
      NewPointsSnoc(md5, rest, k, taken);
      assert (order + [k])[0] == order[0] && (order + [k])[1..] == rest + [k];
      ConsConcat(order[0], NewPoints(md5, rest, taken), if VolumeName(md5, k) in taken then [] else [k]);
    }
  }

  lemma MapSnoc<T>(f: string -> T, points: seq<string>, k: string)
    ensures Map(f, points + [k]) == Map(f, points) + [f(k)]
  {
  }

  /** Visiting one more mount point appends its volume and its mount, unless they are there. */
  lemma NewSnoc(md5: Md5, buckets: BucketMap, order: seq<string>, k: string, volumes: seq<Volume>, mounts: seq<Mount>)
    ensures NewVolumes(md5, buckets, order + [k], volumes)
            == NewVolumes(md5, buckets, order, volumes)
               + if VolumeName(md5, k) in NamesOfVolumes(volumes) then [] else [VolumeMaker(md5, buckets)(k)]
    ensures NewMounts(md5, order + [k], mounts)
            == NewMounts(md5, order, mounts)
               + if VolumeName(md5, k) in NamesOfMounts(mounts) then [] else [MountMaker(md5)(k)]
  {
    NewPointsSnoc(md5, order, k, NamesOfVolumes(volumes));
    NewPointsSnoc(md5, order, k, NamesOfMounts(mounts));
    MapSnoc(VolumeMaker(md5, buckets), NewPoints(md5, order, NamesOfVolumes(volumes)), k);
    MapSnoc(MountMaker(md5), NewPoints(md5, order, NamesOfMounts(mounts)), k);
  }

  /** Deletes every volume of the pod and every mount of the container whose name marks a bucket. */
  method RemoveBucketsFromPodSpec(pod: PodSpec, container: Container) returns (modified: bool)
    modifies pod, container`mounts
    ensures pod.volumes == KeptVolumes(old(pod.volumes)) && container.mounts == KeptMounts(old(container.mounts))
    ensures modified <==> pod.volumes != old(pod.volumes) || container.mounts != old(container.mounts)
    ensures pod.containers == old(pod.containers)
  {
    KeptAllIff(pod.volumes, container.mounts);
    modified := (exists v | v in pod.volumes :: HasPrefix(v.name, PREFIX))
                || (exists m | m in container.mounts :: HasPrefix(m.name, PREFIX));
    pod.volumes := KeptVolumes(pod.volumes);
    container.mounts := KeptMounts(container.mounts);
  }

  /** A mount the sidecar may have for a volume name: of some mount point with that name. */
  ghost predicate IsSidecarMount(md5: Md5, buckets: BucketMap, m: Mount) {
    exists k | k in buckets :: m == Mount(VolumeName(md5, k), "/buckets/" + buckets[k], "", false)
  }

  /** The sidecar's mounts by name; where two mount points share a name, the one visited last
      decides the path. */
  method PrecreatorMountsByName(md5: Md5, buckets: BucketMap) returns (byName: map<string, Mount>)
    ensures byName.Keys == DerivedNames(md5, buckets)
    ensures forall n | n in byName :: byName[n].name == n && IsSidecarMount(md5, buckets, byName[n])
  {
    byName := map[];
    var order := AnyOrder(buckets.Keys);
    for i := 0 to |order|
      invariant byName.Keys == NamesFor(md5, order[..i])
      invariant forall n | n in byName :: byName[n].name == n && IsSidecarMount(md5, buckets, byName[n])
    {
      var mountPoint := order[i];
      var volumeName := VolumeName(md5, mountPoint);
      var mount := Mount(volumeName, "/buckets/" + buckets[mountPoint], "", false);
      assert IsSidecarMount(md5, buckets, mount);
      TakeSnoc(order, i);
      NamesForSnoc(md5, order[..i], mountPoint);
      byName := byName[volumeName := mount];
    }
    assert order[..|order|] == order;
  }

  /** The volume names of a list of mount points. */
  function NamesFor(md5: Md5, points: seq<string>): set<string> {
    set k | k in points :: VolumeName(md5, k)
  }

  lemma NamesForSnoc(md5: Md5, points: seq<string>, k: string)
    ensures NamesFor(md5, points + [k]) == NamesFor(md5, points) + {VolumeName(md5, k)}
  {
  }

  function MountNames(mounts: seq<Mount>): (r: seq<string>)
    ensures |r| == |mounts|
  {
    seq(|mounts|, i requires 0 <= i < |mounts| => mounts[i].name)
  }

  /** One of the orders in which a set of names may be listed. */
  ghost predicate IsListing(listing: seq<string>, names: set<string>) {
    Distinct(listing) && forall n :: n in listing <==> n in names
  }

  /** The values of a map of mounts, in an arbitrary order. */
  method ListMounts(byName: map<string, Mount>) returns (mounts: seq<Mount>)
    requires forall n | n in byName :: byName[n].name == n
    ensures IsListing(MountNames(mounts), byName.Keys)
    ensures NamesOfMounts(mounts) == byName.Keys
    ensures forall m | m in mounts :: m.name in byName && m == byName[m.name]
  {
    mounts := [];
    var order := AnyOrder(byName.Keys);
    for i := 0 to |order|
      invariant |mounts| == i && forall j | 0 <= j < i :: mounts[j] == byName[order[j]]
    {
      assert order[i] in order;
      mounts := mounts + [byName[order[i]]];
    }
    forall i | 0 <= i < |mounts| ensures MountNames(mounts)[i] == order[i] {
      assert order[i] in order;
    }
    assert MountNames(mounts) == order;
    forall n | n in byName ensures n in NamesOfMounts(mounts) {
      var j :| 0 <= j < |order| && order[j] == n;
      assert mounts[j] in mounts;
    }
    forall m | m in mounts ensures m.name in byName && m == byName[m.name] {
      var j :| 0 <= j < |mounts| && mounts[j] == m;
      assert order[j] in order;
    }
  }

  /** slices.EqualFunc on the names of two mount lists. */
  predicate SameNames(a: seq<Mount>, b: seq<Mount>) {
    |a| == |b| && forall i | 0 <= i < |a| :: a[i].name == b[i].name
  }

  lemma SameNamesIff(a: seq<Mount>, b: seq<Mount>)
    ensures SameNames(a, b) <==> MountNames(a) == MountNames(b)
  {
    if MountNames(a) == MountNames(b) {
      forall i | 0 <= i < |a| ensures a[i].name == b[i].name {
        assert MountNames(a)[i] == MountNames(b)[i];
      }
    }
  }

  /** An up-to-date sidecar is kept for every order in which the names may be listed exactly if there
      is at most one name; with two or more, admitting the pod again may replace it. */
  lemma SidecarStableIff(kept: seq<string>, names: set<string>)
    requires IsListing(kept, names)
    ensures (forall listing :: IsListing(listing, names) ==> listing == kept) <==> |kept| <= 1
  {
    if |kept| <= 1 {
      forall listing | IsListing(listing, names) ensures listing == kept {
        ShortListings(kept, listing);
      }
    } else {
      var swapped := [kept[1], kept[0]] + kept[2..];
      assert kept == [kept[0], kept[1]] + kept[2..];
      assert forall n :: n in swapped <==> n in kept;
      assert IsListing(swapped, names) && swapped[0] != kept[0];
    }
  }

  lemma ShortListings(a: seq<string>, b: seq<string>)
    requires |a| <= 1 && Distinct(b) && forall n :: n in a <==> n in b
    ensures a == b
  {
    SameMembersPermuted(a, b);
    assert |multiset(a)| == |a| == |multiset(b)| == |b|;
    assert forall i | 0 <= i < |b| :: b[i] in b;
  }

  lemma SameNamesSameSet(a: seq<Mount>, b: seq<Mount>)
    requires SameNames(a, b)
    ensures NamesOfMounts(a) == NamesOfMounts(b)
  {
    forall i | 0 <= i < |a| ensures a[i] in a && b[i] in b && a[i].name == b[i].name {
    }
  }

  /** Puts the sidecar into the pod: replaces an outdated one, keeps one with this image and these
      mount names, or appends a new one. */
  method AddOrUpdatePrecreator(md5: Md5, pod: PodSpec, buckets: BucketMap, image: string)
    returns (modified: bool, ghost sidecar: Container, ghost listing: seq<string>)
    modifies pod
    ensures pod.volumes == old(pod.volumes)
    // The derived names are listed in some order; a sidecar that is there is kept exactly if it has the
    // image and lists its mounts in the same order.
    ensures IsListing(listing, DerivedNames(md5, buckets))
    ensures var k := FirstNamed(old(pod.containers), PRECREATOR);
            modified <==>
              !(k < |old(pod.containers)|
                && old(pod.containers)[k].image == image && MountNames(old(pod.containers[k].mounts)) == listing)
    ensures IsSidecar(md5, buckets, image, sidecar)
    ensures modified ==> fresh(sidecar) && forall m | m in sidecar.mounts :: IsSidecarMount(md5, buckets, m)
    ensures var k := FirstNamed(old(pod.containers), PRECREATOR);
            pod.containers == if k < |old(pod.containers)| then old(pod.containers)[k := sidecar]
                              else old(pod.containers) + [sidecar]
    ensures modified == (pod.containers != old(pod.containers))
    ensures sidecar in pod.containers && forall c | c in pod.containers :: c == sidecar || c in old(pod.containers)
  {
    ghost var k := FirstNamed(pod.containers, PRECREATOR);
    var byName := PrecreatorMountsByName(md5, buckets);
    var mounts := ListMounts(byName);
    listing := MountNames(mounts);
    var precreator := new Container(PRECREATOR, image, mounts);
    for i := 0 to |pod.containers|
      invariant pod.containers == old(pod.containers) && pod.volumes == old(pod.volumes)
      invariant i <= k
    {
      var c := pod.containers[i];
      if c.name == PRECREATOR {
        SameNamesIff(mounts, c.mounts);
        if c.image != image || !SameNames(mounts, c.mounts) {
          pod.containers := pod.containers[i := precreator];
          assert pod.containers[i] == precreator;
          return true, precreator, listing;
        }
        SameNamesSameSet(mounts, c.mounts);
        return false, c, listing;
      }
    }
    pod.containers := pod.containers + [precreator];
    return true, precreator, listing;
  }

  /** The sidecar with this image, mounting exactly the volumes derived from the bucket map. */
  ghost predicate IsSidecar(md5: Md5, buckets: BucketMap, image: string, c: Container)
    reads c`mounts
  {
    c.name == PRECREATOR && c.image == image && NamesOfMounts(c.mounts) == DerivedNames(md5, buckets)
  }

  /** Deletes every container with the sidecar's name. The result says nothing: it is always false. */
  method RemovePrecreator(pod: PodSpec) returns (modified: bool)
    modifies pod
    ensures pod.containers == WithoutNamed(old(pod.containers), PRECREATOR)
    ensures forall c | c in pod.containers :: c in old(pod.containers) && c.name != PRECREATOR
    ensures pod.volumes == old(pod.volumes) && !modified
  {
    WithoutNamedMembers(pod.containers, PRECREATOR);
    pod.containers := WithoutNamed(pod.containers, PRECREATOR);
    return false;
  }

  /** The bucket phase of the mutating webhook (internal/controller/statefulset_webhook.go): expired
      access loses its buckets and the sidecar, active access gets them. Either way all mounts of
      the service container and of the sidecar keep naming existing volumes, and with an image set
      the sidecar mounts exactly the volumes derived from the bucket map. */
  method BucketPhase(md5: Md5, pod: PodSpec, service: Container, expired: bool, buckets: BucketMap,
                     image: Option<string>)
    modifies pod, service`mounts
    ensures ShapeOf(pod, service) in Outcomes(md5, image, expired, buckets, old(ShapeOf(pod, service)))
    ensures WithoutNamed(pod.containers, PRECREATOR) == WithoutNamed(old(pod.containers), PRECREATOR)
  {
    ghost var before := ShapeOf(pod, service);
    WholeMeansResolved(pod, service);
    if expired {
      ExpirePhase(pod, service);
      WithoutNamedMembers(old(pod.containers), PRECREATOR);
      WithoutNamedTwice(old(pod.containers), PRECREATOR);
      ExpiredOutcome(md5, image, buckets, before, pod, service);
    } else {
      ghost var order := ActivePhase(md5, pod, service, buckets, image);
      if image.None? { WithoutNamedMembers(old(pod.containers), PRECREATOR); }
      NamesAfterAdd(md5, buckets, order, before.volumes, before.mounts);
      AddedAreDerived(md5, buckets, order, before.volumes, before.mounts);
      ActiveOutcome(md5, image, buckets, before, pod, service);
    }
  }

  /** What the bucket phase deals with: volumes of the pod, mounts of the service container, and of
      each container with the sidecar's name the image and the mounted volumes. */
  datatype Shape = Shape(volumes: seq<Volume>, mounts: seq<Mount>, sidecars: set<Sidecar>)

  datatype Sidecar = Sidecar(image: string, names: set<string>)

  ghost function ShapeOf(pod: PodSpec, service: Container): Shape
    reads pod, pod.containers`mounts, service`mounts
  {
    Shape(pod.volumes, service.mounts, SidecarsOf(pod))
  }

  ghost function SidecarsOf(pod: PodSpec): set<Sidecar>
    reads pod, pod.containers`mounts
  {
    set c | c in pod.containers && c.name == PRECREATOR :: Sidecar(c.image, NamesOfMounts(c.mounts))
  }

  /** Every mount names a volume. */
  ghost predicate Whole(shape: Shape) {
    && NamesOfMounts(shape.mounts) <= NamesOfVolumes(shape.volumes)
    && forall c | c in shape.sidecars :: c.names <= NamesOfVolumes(shape.volumes)
  }

  lemma WholeMeansResolved(pod: PodSpec, service: Container)
    ensures Whole(ShapeOf(pod, service)) <==> pod.MountsResolve(service)
  {
    NamesResolve(service.mounts, pod.volumes);
    forall c | c in pod.containers && c.name == PRECREATOR
      ensures Resolves(c.mounts, pod.volumes) <==> NamesOfMounts(c.mounts) <= NamesOfVolumes(pod.volumes)
      ensures Sidecar(c.image, NamesOfMounts(c.mounts)) in SidecarsOf(pod)
    {
      NamesResolve(c.mounts, pod.volumes);
    }
  }

  /** What the bucket phase may leave, by what it started from. */
  ghost function Outcomes(md5: Md5, image: Option<string>, expired: bool, buckets: BucketMap,
                          before: Shape): iset<Shape> {
    iset after: Shape | Settled(md5, image, expired, buckets, before, after)
  }

  ghost predicate Settled(md5: Md5, image: Option<string>, expired: bool, buckets: BucketMap, before: Shape,
                          after: Shape) {
    && (Whole(before) ==> Whole(after))
    && (if expired
        then && after.volumes == KeptVolumes(before.volumes)
             && after.mounts == KeptMounts(before.mounts)
        else && before.volumes <= after.volumes && before.mounts <= after.mounts
             && NamesOfVolumes(after.volumes) == NamesOfVolumes(before.volumes) + DerivedNames(md5, buckets)
             && NamesOfMounts(after.mounts) == NamesOfMounts(before.mounts) + DerivedNames(md5, buckets)
             && (forall v | v in after.volumes :: v in before.volumes || v in DerivedVolumes(md5, buckets))
             && (forall m | m in after.mounts :: m in before.mounts || m in DerivedMounts(md5, buckets)))
    && (expired || image.None? ==> after.sidecars == {})
    && (!expired && image.Some? ==> Sidecar(image.value, DerivedNames(md5, buckets)) in after.sidecars)
  }

  /** What the phase leaves of active access, said of the volumes, mounts and sidecars themselves. */
  lemma ActiveMeans(md5: Md5, image: Option<string>, buckets: BucketMap, before: Shape, after: Shape)
    requires after in Outcomes(md5, image, false, buckets, before)
    ensures forall k | k in buckets ::
              && (exists v | v in after.volumes :: v.name == VolumeName(md5, k))
              && (exists m | m in after.mounts :: m.name == VolumeName(md5, k))
    ensures before.volumes <= after.volumes && before.mounts <= after.mounts
    ensures forall v | v in after.volumes :: v in before.volumes || exists k :: Holds(md5, buckets, k, v)
    ensures forall m | m in after.mounts :: m in before.mounts || exists k :: k in buckets && MountsAt(md5, k, m)
    ensures image.None? ==> after.sidecars == {}
    ensures image.Some? ==> Sidecar(image.value, set k | k in buckets :: VolumeName(md5, k)) in after.sidecars
  {
    forall k | k in buckets
      ensures VolumeName(md5, k) in NamesOfVolumes(after.volumes) && VolumeName(md5, k) in NamesOfMounts(after.mounts)
    {
      assert VolumeName(md5, k) in DerivedNames(md5, buckets);
    }
    forall v | v in after.volumes && v !in before.volumes ensures exists k :: Holds(md5, buckets, k, v) {
      DerivedHolds(md5, buckets, v);
    }
    forall m | m in after.mounts && m !in before.mounts ensures exists k :: k in buckets && MountsAt(md5, k, m) {
      assert m in DerivedMounts(md5, buckets);
      var k :| k in buckets && m == Mount(VolumeName(md5, k), "/buckets/" + k, "", false);
      assert MountsAt(md5, k, m);
    }
  }

  lemma DerivedHolds(md5: Md5, buckets: BucketMap, v: Volume)
    requires v in DerivedVolumes(md5, buckets)
    ensures exists k :: Holds(md5, buckets, k, v)
  {
    var k :| k in buckets && v.name == VolumeName(md5, k) && v.source.Csi?
             && v.source.driver == "gcsfuse.csi.storage.gke.io" && !v.source.readOnly
             && "bucketName" in v.source.attributes && v.source.attributes["bucketName"] == buckets[k];
    assert Holds(md5, buckets, k, v);
  }

  /** And of expired access: nothing with the prefix and no sidecar, but everything else. */
  lemma ExpiredMeans(md5: Md5, image: Option<string>, buckets: BucketMap, before: Shape, after: Shape)
    requires after in Outcomes(md5, image, true, buckets, before)
    ensures forall v :: v in after.volumes <==> v in before.volumes && !HasPrefix(v.name, "gcsfuse-")
    ensures forall m :: m in after.mounts <==> m in before.mounts && !HasPrefix(m.name, "gcsfuse-")
    ensures after.sidecars == {}
  {
    KeptVolumesMembers(before.volumes);
    KeptMountsMembers(before.mounts);
  }

  lemma ExpiredOutcome(md5: Md5, image: Option<string>, buckets: BucketMap, before: Shape, pod: PodSpec,
                       service: Container)
    requires Whole(before) ==> pod.MountsResolve(service)
    requires pod.volumes == KeptVolumes(before.volumes) && service.mounts == KeptMounts(before.mounts)
    requires forall c | c in pod.containers :: c.name != PRECREATOR
    ensures ShapeOf(pod, service) in Outcomes(md5, image, true, buckets, before)
  {
    WholeMeansResolved(pod, service);
  }

  lemma ActiveOutcome(md5: Md5, image: Option<string>, buckets: BucketMap, before: Shape, pod: PodSpec,
                      service: Container)
    requires Whole(before) ==> pod.MountsResolve(service)
    requires before.volumes <= pod.volumes && before.mounts <= service.mounts
    requires NamesOfVolumes(pod.volumes) == NamesOfVolumes(before.volumes) + DerivedNames(md5, buckets)
    requires NamesOfMounts(service.mounts) == NamesOfMounts(before.mounts) + DerivedNames(md5, buckets)
    requires forall v | v in pod.volumes :: v in before.volumes || v in DerivedVolumes(md5, buckets)
    requires forall m | m in service.mounts :: m in before.mounts || m in DerivedMounts(md5, buckets)
    requires image.None? ==> forall c | c in pod.containers :: c.name != PRECREATOR
    requires image.Some? ==> exists c | c in pod.containers :: IsSidecar(md5, buckets, image.value, c)
    ensures ShapeOf(pod, service) in Outcomes(md5, image, false, buckets, before)
  {
    WholeMeansResolved(pod, service);
    if image.Some? {
      var c :| c in pod.containers && IsSidecar(md5, buckets, image.value, c);
      assert Sidecar(c.image, NamesOfMounts(c.mounts)) in SidecarsOf(pod);
    }
  }

  method ExpirePhase(pod: PodSpec, service: Container)
    modifies pod, service`mounts
    ensures old(pod.MountsResolve(service)) ==> pod.MountsResolve(service)
    ensures pod.volumes == KeptVolumes(old(pod.volumes)) && service.mounts == KeptMounts(old(service.mounts))
    ensures pod.containers == WithoutNamed(old(pod.containers), PRECREATOR)
  {
    RemoveResolvesIf(pod.volumes, service.mounts);
    var _ := RemoveBucketsFromPodSpec(pod, service);
    var _ := RemovePrecreator(pod);
  }

  method ActivePhase(md5: Md5, pod: PodSpec, service: Container, buckets: BucketMap, image: Option<string>)
    returns (ghost order: seq<string>)
    modifies pod, service`mounts
    ensures old(pod.MountsResolve(service)) ==> pod.MountsResolve(service)
    ensures IsOrder(order, buckets)
    ensures pod.volumes == old(pod.volumes) + NewVolumes(md5, buckets, order, old(pod.volumes))
    ensures service.mounts == old(service.mounts) + NewMounts(md5, order, old(service.mounts))
    ensures image.None? ==> pod.containers == WithoutNamed(old(pod.containers), PRECREATOR)
    ensures WithoutNamed(pod.containers, PRECREATOR) == WithoutNamed(old(pod.containers), PRECREATOR)
    ensures image.Some? ==> exists c | c in pod.containers :: IsSidecar(md5, buckets, image.value, c)
  {
    var shouldUpdate;
    shouldUpdate, order := AddBucketsToPodSpec(md5, pod, service, buckets);
    AddResolvesIf(md5, buckets, order, old(pod.volumes), old(service.mounts));
    NamesAfterAdd(md5, buckets, order, old(pod.volumes), old(service.mounts));
    SettlePrecreator(md5, pod, service, buckets, image);
  }

  /** The sidecar step of the active phase, once the derived volumes are there. */
  method SettlePrecreator(md5: Md5, pod: PodSpec, service: Container, buckets: BucketMap, image: Option<string>)
    requires DerivedNames(md5, buckets) <= NamesOfVolumes(pod.volumes)
    modifies pod
    ensures old(pod.MountsResolve(service)) ==> pod.MountsResolve(service)
    ensures pod.volumes == old(pod.volumes)
    ensures image.None? ==> pod.containers == WithoutNamed(old(pod.containers), PRECREATOR)
    ensures WithoutNamed(pod.containers, PRECREATOR) == WithoutNamed(old(pod.containers), PRECREATOR)
    ensures image.Some? ==> exists c | c in pod.containers :: IsSidecar(md5, buckets, image.value, c)
  {
    if image.Some? {
      var modified; ghost var sidecar, listing;
      modified, sidecar, listing := AddOrUpdatePrecreator(md5, pod, buckets, image.value);
      NamesResolve(sidecar.mounts, pod.volumes);
      OthersStay(old(pod.containers), sidecar);
    } else {
      var modified := RemovePrecreator(pod);
      WithoutNamedTwice(old(pod.containers), PRECREATOR);
    }
  }

  lemma NamesResolve(mounts: seq<Mount>, volumes: seq<Volume>)
    ensures NamesOfMounts(mounts) <= NamesOfVolumes(volumes) <==> Resolves(mounts, volumes)
  {
    assert forall m | m in mounts :: m.name in NamesOfMounts(mounts);
  }

  lemma RemoveResolvesIf(volumes: seq<Volume>, mounts: seq<Mount>)
    ensures Resolves(mounts, volumes) ==> Resolves(KeptMounts(mounts), KeptVolumes(volumes))
  {
    if Resolves(mounts, volumes) { RemoveResolves(volumes, mounts); }
  }

  lemma AddResolvesIf(md5: Md5, buckets: BucketMap, order: seq<string>, volumes: seq<Volume>, mounts: seq<Mount>)
    requires IsOrder(order, buckets)
    ensures Resolves(mounts, volumes) ==>
              Resolves(mounts + NewMounts(md5, order, mounts), volumes + NewVolumes(md5, buckets, order, volumes))
  {
    if Resolves(mounts, volumes) { AddResolves(md5, buckets, order, volumes, mounts); }
  }
}
