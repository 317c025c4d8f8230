/** Volumes and mounts for buckets, as values, and the laws of adding and removing them. The code
    walks a Go map, so every law holds for every order of the map's keys
    (internal/controller/volumes.go). */
module Buckets {
  import opened Text
  import opened VolumeNames

  datatype VolumeSource =
    | Csi(driver: string, readOnly: bool, attributes: map<string, string>)
    | ConfigMap(name: string, mode: nat)
    | OtherSource(description: string)

  datatype Volume = Volume(name: string, source: VolumeSource)

  datatype Mount = Mount(name: string, mountPath: string, subPath: string, readOnly: bool)

  /** From mount point to bucket. */
  type BucketMap = map<string, string>

  function NamesOfVolumes(volumes: seq<Volume>): set<string> {
    set v | v in volumes :: v.name
  }

  function NamesOfMounts(mounts: seq<Mount>): set<string> {
    set m | m in mounts :: m.name
  }

  /** The volume of a mount point. */
  function VolumeMaker(md5: Md5, buckets: BucketMap): string -> Volume {
    (mountPoint: string) =>
      Volume(VolumeName(md5, mountPoint),
             Csi("gcsfuse.csi.storage.gke.io", false,
                 map["bucketName" := Lookup(buckets, mountPoint),
                     "mountOptions" := "uid=1000,gid=100",
                     "gcsfuseLoggingSeverity" := "warning"]))
  }

  /** The mount of a mount point in the service container. */
  function MountMaker(md5: Md5): string -> Mount {
    (mountPoint: string) => Mount(VolumeName(md5, mountPoint), "/buckets/" + mountPoint, "", false)
  }

  /** The mount points, in order, whose volume name is not taken. */
  function NewPoints(md5: Md5, order: seq<string>, taken: set<string>): seq<string> {
    if order == [] then []
    else if VolumeName(md5, order[0]) in taken then NewPoints(md5, order[1..], taken)
    else [order[0]] + NewPoints(md5, order[1..], taken)
  }

  function Map<T>(f: string -> T, s: seq<string>): (r: seq<T>)
    ensures |r| == |s|
    ensures forall i | 0 <= i < |s| :: r[i] == f(s[i])
  {
    seq(|s|, i requires 0 <= i < |s| => f(s[i]))
  }

  /** What adding appends to the volumes of a pod. */
  function NewVolumes(md5: Md5, buckets: BucketMap, order: seq<string>, volumes: seq<Volume>): seq<Volume> {
    Map(VolumeMaker(md5, buckets), NewPoints(md5, order, NamesOfVolumes(volumes)))
  }

  /** What adding appends to the mounts of the service container. */
  function NewMounts(md5: Md5, order: seq<string>, mounts: seq<Mount>): seq<Mount> {
    Map(MountMaker(md5), NewPoints(md5, order, NamesOfMounts(mounts)))
  }

  predicate Distinct<T(==)>(s: seq<T>) {
    forall i, j | 0 <= i < j < |s| :: s[i] != s[j]
  }

  /** One of the orders in which the keys of the map may be visited. */
  ghost predicate IsOrder(order: seq<string>, buckets: BucketMap) {
    Distinct(order) && forall k :: k in order <==> k in buckets
  }

  lemma {:induction false} NewPointsMembers(md5: Md5, order: seq<string>, taken: set<string>)
    ensures forall k :: k in NewPoints(md5, order, taken) <==> k in order && VolumeName(md5, k) !in taken
    ensures Distinct(order) ==> Distinct(NewPoints(md5, order, taken))
  {
    if order != [] {
      NewPointsMembers(md5, order[1..], taken);
      assert forall k :: k in order <==> k == order[0] || k in order[1..];
    }
  }

  // ----- Idempotence -----

  /** A second addition, in whatever order, finds everything there and appends nothing. */
  lemma AddIsIdempotent(md5: Md5, buckets: BucketMap, first: seq<string>, second: seq<string>,
                        volumes: seq<Volume>, mounts: seq<Mount>)
    requires IsOrder(first, buckets) && IsOrder(second, buckets)
    ensures NewVolumes(md5, buckets, second, volumes + NewVolumes(md5, buckets, first, volumes)) == []
    ensures NewMounts(md5, second, mounts + NewMounts(md5, first, mounts)) == []
  {
    NamesAfterAdd(md5, buckets, first, volumes, mounts);
    assert forall k | k in buckets :: VolumeName(md5, k) in DerivedNames(md5, buckets);
    NewPointsMembers(md5, second, NamesOfVolumes(volumes + NewVolumes(md5, buckets, first, volumes)));
    NewPointsMembers(md5, second, NamesOfMounts(mounts + NewMounts(md5, first, mounts)));
    HeadIsMember(NewPoints(md5, second, NamesOfVolumes(volumes + NewVolumes(md5, buckets, first, volumes))));
    HeadIsMember(NewPoints(md5, second, NamesOfMounts(mounts + NewMounts(md5, first, mounts))));
  }

  lemma HeadIsMember<T>(s: seq<T>)
    ensures s == [] || exists x :: x in s
  {
    if s != [] { assert s[0] in s; }
  }

  /** The names added are those of the mount points whose names were not taken. */
  lemma AddedNames(md5: Md5, buckets: BucketMap, order: seq<string>, taken: set<string>)
    requires IsOrder(order, buckets)
    ensures taken + NamesOfVolumes(Map(VolumeMaker(md5, buckets), NewPoints(md5, order, taken)))
            == taken + DerivedNames(md5, buckets)
    ensures taken + NamesOfMounts(Map(MountMaker(md5), NewPoints(md5, order, taken)))
            == taken + DerivedNames(md5, buckets)
  {
    var points := NewPoints(md5, order, taken);
    NewPointsMembers(md5, order, taken);
    NamesOfMapped(md5, buckets, points);
  }

  lemma NamesOfMapped(md5: Md5, buckets: BucketMap, points: seq<string>)
    ensures NamesOfVolumes(Map(VolumeMaker(md5, buckets), points)) == set k | k in points :: VolumeName(md5, k)
    ensures NamesOfMounts(Map(MountMaker(md5), points)) == set k | k in points :: VolumeName(md5, k)
  {
    var volumes, mounts := Map(VolumeMaker(md5, buckets), points), Map(MountMaker(md5), points);
    NamesOfShaped(md5, points, volumes, mounts);
  }

  lemma NamesOfShaped(md5: Md5, points: seq<string>, volumes: seq<Volume>, mounts: seq<Mount>)
    requires |volumes| == |mounts| == |points|
    requires forall i | 0 <= i < |points| :: volumes[i].name == mounts[i].name == VolumeName(md5, points[i])
    ensures NamesOfVolumes(volumes) == set k | k in points :: VolumeName(md5, k)
    ensures NamesOfMounts(mounts) == set k | k in points :: VolumeName(md5, k)
  {
    forall i | 0 <= i < |points|
      ensures volumes[i] in volumes && mounts[i] in mounts && points[i] in points
    {
    }
  }

  /** The volume names of all mount points. */
  function DerivedNames(md5: Md5, buckets: BucketMap): set<string> {
    set k | k in buckets :: VolumeName(md5, k)
  }

  /** The volumes of all mount points: each asks the driver for the bucket of its mount point. */
  function DerivedVolumes(md5: Md5, buckets: BucketMap): set<Volume> {
    set k | k in buckets ::
      Volume(VolumeName(md5, k),
             Csi("gcsfuse.csi.storage.gke.io", false,
                 map["bucketName" := buckets[k],
                     "mountOptions" := "uid=1000,gid=100",
                     "gcsfuseLoggingSeverity" := "warning"]))
  }

  /** The mounts of all mount points: writable, under the name of the mount point. */
  function DerivedMounts(md5: Md5, buckets: BucketMap): set<Mount> {
    set k | k in buckets :: Mount(VolumeName(md5, k), "/buckets/" + k, "", false)
  }

  /** A volume for this mount point that holds its bucket. */
  predicate Holds(md5: Md5, buckets: BucketMap, k: string, v: Volume) {
    && k in buckets && v.name == VolumeName(md5, k)
    && v.source.Csi? && v.source.driver == "gcsfuse.csi.storage.gke.io" && !v.source.readOnly
    && "bucketName" in v.source.attributes && v.source.attributes["bucketName"] == buckets[k]
  }

  /** A writable mount of that volume at this mount point. */
  predicate MountsAt(md5: Md5, k: string, m: Mount) {
    m.name == VolumeName(md5, k) && m.mountPath == "/buckets/" + k && m.subPath == "" && !m.readOnly
  }

  /** The mount points of the map whose names are not taken. */
  function Untaken(md5: Md5, buckets: BucketMap, taken: set<string>): set<string> {
    set k | k in buckets && VolumeName(md5, k) !in taken
  }

  lemma PointsAreUntaken(md5: Md5, buckets: BucketMap, order: seq<string>, taken: set<string>)
    requires IsOrder(order, buckets)
    ensures var points := NewPoints(md5, order, taken);
            |points| == |Untaken(md5, buckets, taken)| && forall k :: k in points <==> k in Untaken(md5, buckets, taken)
  {
    var points := NewPoints(md5, order, taken);
    NewPointsMembers(md5, order, taken);
    DistinctCount(points);
    assert Untaken(md5, buckets, taken) == set k | k in points;
  }

  /** What is made for each point of a list covers the list. */
  lemma MadeCovers<T>(points: seq<string>, made: seq<T>, fits: (string, T) -> bool)
    requires |made| == |points| && forall i | 0 <= i < |points| :: fits(points[i], made[i])
    ensures forall v | v in made :: exists k :: k in points && fits(k, v)
    ensures forall k | k in points :: exists v :: v in made && fits(k, v)
  {
    forall v | v in made ensures exists k :: k in points && fits(k, v) {
      var i := PositionOf(made, v);
      assert points[i] in points;
    }
    forall k | k in points ensures exists v :: v in made && fits(k, v) {
      var i := PositionOf(points, k);
      assert made[i] in made;
    }
  }

  lemma MadeHolds(md5: Md5, buckets: BucketMap, k: string)
    requires k in buckets
    ensures Holds(md5, buckets, k, VolumeMaker(md5, buckets)(k)) && MountsAt(md5, k, MountMaker(md5)(k))
  {
  }

  /** Said of the volumes themselves: every one that is added holds the bucket of a mount point whose
      name was not taken, and every such mount point gets one, as many as there are. */
  lemma AddedVolumesHold(md5: Md5, buckets: BucketMap, order: seq<string>, volumes: seq<Volume>)
    requires IsOrder(order, buckets)
    ensures var added := NewVolumes(md5, buckets, order, volumes);
            var untaken := Untaken(md5, buckets, NamesOfVolumes(volumes));
            && (forall v | v in added :: exists k :: k in untaken && Holds(md5, buckets, k, v))
            && (forall k | k in untaken :: exists v :: v in added && Holds(md5, buckets, k, v))
            && |added| == |untaken|
  {
    var points := NewPoints(md5, order, NamesOfVolumes(volumes));
    PointsAreUntaken(md5, buckets, order, NamesOfVolumes(volumes));
    forall i | 0 <= i < |points| ensures Holds(md5, buckets, points[i], VolumeMaker(md5, buckets)(points[i])) {
      assert points[i] in points;
      MadeHolds(md5, buckets, points[i]);
    }
    MadeCovers(points, NewVolumes(md5, buckets, order, volumes), (k: string, v: Volume) => Holds(md5, buckets, k, v));
  }

  /** The same of the mounts of the service container. */
  lemma AddedMountsPoint(md5: Md5, buckets: BucketMap, order: seq<string>, mounts: seq<Mount>)
    requires IsOrder(order, buckets)
    ensures var added := NewMounts(md5, order, mounts);
            var untaken := Untaken(md5, buckets, NamesOfMounts(mounts));
            && (forall m | m in added :: exists k :: k in untaken && MountsAt(md5, k, m))
            && (forall k | k in untaken :: exists m :: m in added && MountsAt(md5, k, m))
            && |added| == |untaken|
  {
    var points := NewPoints(md5, order, NamesOfMounts(mounts));
    PointsAreUntaken(md5, buckets, order, NamesOfMounts(mounts));
    forall i | 0 <= i < |points| ensures MountsAt(md5, points[i], MountMaker(md5)(points[i])) {
      assert points[i] in points;
      MadeHolds(md5, buckets, points[i]);
    }
    MadeCovers(points, NewMounts(md5, order, mounts), (k: string, m: Mount) => MountsAt(md5, k, m));
  }

  /** Every bucket without a volume, or without a mount, has got one of its own. */
  ghost predicate BucketsThere(md5: Md5, buckets: BucketMap, volumes: seq<Volume>, mounts: seq<Mount>,
                               newVolumes: seq<Volume>, newMounts: seq<Mount>)
  {
    && (forall k | k in Untaken(md5, buckets, NamesOfVolumes(volumes)) ::
          exists v :: v in newVolumes && Holds(md5, buckets, k, v))
    && (forall k | k in Untaken(md5, buckets, NamesOfMounts(mounts)) ::
          exists m :: m in newMounts && MountsAt(md5, k, m))
  }

  lemma AddedAreThere(md5: Md5, buckets: BucketMap, order: seq<string>, volumes: seq<Volume>, mounts: seq<Mount>)
    requires IsOrder(order, buckets)
    ensures BucketsThere(md5, buckets, volumes, mounts,
                         volumes + NewVolumes(md5, buckets, order, volumes), mounts + NewMounts(md5, order, mounts))
  {
    AddedVolumesHold(md5, buckets, order, volumes);
    AddedMountsPoint(md5, buckets, order, mounts);
    StillThere(Untaken(md5, buckets, NamesOfVolumes(volumes)), volumes, NewVolumes(md5, buckets, order, volumes),
               (k: string, v: Volume) => Holds(md5, buckets, k, v));
    StillThere(Untaken(md5, buckets, NamesOfMounts(mounts)), mounts, NewMounts(md5, order, mounts),
               (k: string, m: Mount) => MountsAt(md5, k, m));
  }

  lemma StillThere<T>(keys: set<string>, before: seq<T>, added: seq<T>, fits: (string, T) -> bool)
    requires forall k | k in keys :: exists v :: v in added && fits(k, v)
    ensures forall k | k in keys :: exists v :: v in before + added && fits(k, v)
  {
    forall k | k in keys ensures exists v :: v in before + added && fits(k, v) {
      var v :| v in added && fits(k, v);
      assert v in before + added;
    }
  }

  lemma {:induction false} DistinctCount<T>(s: seq<T>)
    requires Distinct(s)
    ensures |set x | x in s| == |s|
  {
    if s != [] {
      DistinctCount(s[1..]);
      assert (set x | x in s) == (set x | x in s[1..]) + {s[0]};
    }
  }

  /** What adding appends is derived from the map. */
  lemma AddedAreDerived(md5: Md5, buckets: BucketMap, order: seq<string>, volumes: seq<Volume>, mounts: seq<Mount>)
    requires IsOrder(order, buckets)
    ensures forall v | v in NewVolumes(md5, buckets, order, volumes) :: v in DerivedVolumes(md5, buckets)
    ensures forall m | m in NewMounts(md5, order, mounts) :: m in DerivedMounts(md5, buckets)
  {
    NewPointsMembers(md5, order, NamesOfVolumes(volumes));
    NewPointsMembers(md5, order, NamesOfMounts(mounts));
    var forVolumes := NewPoints(md5, order, NamesOfVolumes(volumes));
    var forMounts := NewPoints(md5, order, NamesOfMounts(mounts));
    assert forall i | 0 <= i < |forVolumes| :: forVolumes[i] in forVolumes;
    assert forall i | 0 <= i < |forMounts| :: forMounts[i] in forMounts;
  }

  /** After adding, the names are the old ones and those of all mount points. */
  lemma NamesAfterAdd(md5: Md5, buckets: BucketMap, order: seq<string>, volumes: seq<Volume>, mounts: seq<Mount>)
    requires IsOrder(order, buckets)
    ensures NamesOfVolumes(volumes + NewVolumes(md5, buckets, order, volumes))
            == NamesOfVolumes(volumes) + DerivedNames(md5, buckets)
    ensures NamesOfMounts(mounts + NewMounts(md5, order, mounts))
            == NamesOfMounts(mounts) + DerivedNames(md5, buckets)
  {
    AddedNames(md5, buckets, order, NamesOfVolumes(volumes));
    AddedNames(md5, buckets, order, NamesOfMounts(mounts));
    NamesConcat(volumes, NewVolumes(md5, buckets, order, volumes), mounts, NewMounts(md5, order, mounts));
  }

  lemma NamesConcat(a: seq<Volume>, b: seq<Volume>, c: seq<Mount>, d: seq<Mount>)
    ensures NamesOfVolumes(a + b) == NamesOfVolumes(a) + NamesOfVolumes(b)
    ensures NamesOfMounts(c + d) == NamesOfMounts(c) + NamesOfMounts(d)
  {
  }

  // ----- Order independence -----

  lemma {:induction false} DistinctMultiset<T>(s: seq<T>)
    requires Distinct(s)
    ensures forall x :: multiset(s)[x] == if x in s then 1 else 0
  {
    if s != [] {
      DistinctMultiset(s[1..]);
      assert s == [s[0]] + s[1..];
    }
  }

  function Without<T>(s: seq<T>, j: nat): seq<T>
    requires j < |s|
  {
    s[..j] + s[j + 1..]
  }

  lemma MultisetWithout<T>(s: seq<T>, j: nat)
    requires j < |s|
    ensures multiset(s) == multiset(Without(s, j)) + multiset{s[j]}
  {
    assert s == s[..j] + [s[j]] + s[j + 1..];
  }

  lemma MapWithout<T>(f: string -> T, s: seq<string>, j: nat)
    requires j < |s|
    ensures Map(f, Without(s, j)) == Without(Map(f, s), j)
  {
    var rest := Without(s, j);
    forall i | 0 <= i < |rest| ensures Map(f, rest)[i] == Without(Map(f, s), j)[i] {
      if i < j {
        assert rest[i] == s[i];
      } else {
        assert rest[i] == s[i + 1];
      }
    }
  }

  /** Mapping permuted sequences gives permuted results. */
  lemma {:induction false} MapPermuted<T>(f: string -> T, a: seq<string>, b: seq<string>)
    requires multiset(a) == multiset(b)
    ensures multiset(Map(f, a)) == multiset(Map(f, b))
    decreases |a|
  {
    if a == [] {
      assert |multiset(b)| == 0;
    } else {
      assert a[0] in multiset(b);
      var j :| 0 <= j < |b| && b[j] == a[0];
      MultisetWithout(a, 0);
      MultisetWithout(b, j);
      assert multiset(Without(a, 0)) == multiset(a) - multiset{a[0]} == multiset(Without(b, j));
      MapPermuted(f, Without(a, 0), Without(b, j));
      MapWithout(f, a, 0);
      MapWithout(f, b, j);
      MultisetWithout(Map(f, a), 0);
      MultisetWithout(Map(f, b), j);
    }
  }

  lemma SamePoints(md5: Md5, buckets: BucketMap, first: seq<string>, second: seq<string>, taken: set<string>)
    requires IsOrder(first, buckets) && IsOrder(second, buckets)
    ensures multiset(NewPoints(md5, first, taken)) == multiset(NewPoints(md5, second, taken))
  {
    NewPointsMembers(md5, first, taken);
    NewPointsMembers(md5, second, taken);
    SameMembersPermuted(NewPoints(md5, first, taken), NewPoints(md5, second, taken));
  }

  lemma SameMembersPermuted<T>(a: seq<T>, b: seq<T>)
    requires Distinct(a) && Distinct(b) && forall x :: x in a <==> x in b
    ensures multiset(a) == multiset(b)
  {
    DistinctMultiset(a);
    DistinctMultiset(b);
  }

  /** Every order of the map appends the same volumes and the same mounts, up to their order. */
  lemma AddIgnoresOrder(md5: Md5, buckets: BucketMap, first: seq<string>, second: seq<string>,
                        volumes: seq<Volume>, mounts: seq<Mount>)
    requires IsOrder(first, buckets) && IsOrder(second, buckets)
    ensures multiset(NewVolumes(md5, buckets, first, volumes)) == multiset(NewVolumes(md5, buckets, second, volumes))
    ensures multiset(NewMounts(md5, first, mounts)) == multiset(NewMounts(md5, second, mounts))
  {
    SamePoints(md5, buckets, first, second, NamesOfVolumes(volumes));
    SamePoints(md5, buckets, first, second, NamesOfMounts(mounts));
    MapPermuted(VolumeMaker(md5, buckets), NewPoints(md5, first, NamesOfVolumes(volumes)),
                NewPoints(md5, second, NamesOfVolumes(volumes)));
    MapPermuted(MountMaker(md5), NewPoints(md5, first, NamesOfMounts(mounts)),
                NewPoints(md5, second, NamesOfMounts(mounts)));
  }

  // ----- Uniqueness -----

  /** Two different mount points without a volume yet never share a volume name. */
  ghost predicate NewNamesInjective(md5: Md5, buckets: BucketMap, taken: set<string>) {
    forall a, b | a in buckets && b in buckets && a != b
                  && VolumeName(md5, a) !in taken && VolumeName(md5, b) !in taken ::
      VolumeName(md5, a) != VolumeName(md5, b)
  }

  ghost predicate UniqueNames(volumes: seq<Volume>) {
    forall i, j | 0 <= i < j < |volumes| :: volumes[i].name != volumes[j].name
  }

  /** Volume names stay unique exactly when naming is injective on the mount points that are new. */
  lemma AddKeepsUniqueIff(md5: Md5, buckets: BucketMap, order: seq<string>, volumes: seq<Volume>)
    requires IsOrder(order, buckets) && UniqueNames(volumes)
    ensures UniqueNames(volumes + NewVolumes(md5, buckets, order, volumes))
            <==> NewNamesInjective(md5, buckets, NamesOfVolumes(volumes))
  {
    var taken := NamesOfVolumes(volumes);
    var points, added := NewPoints(md5, order, taken), NewVolumes(md5, buckets, order, volumes);
    NewPointsMembers(md5, order, taken);
    UniqueConcat(volumes, added);
    UniqueIffInjective(md5, buckets, points, taken, added);
  }

  /** Two different mount points without a volume yet never have the same canonical form. */
  ghost predicate NewPointsApart(md5: Md5, buckets: BucketMap, taken: set<string>) {
    forall a, b | a in buckets && b in buckets && a != b
                  && VolumeName(md5, a) !in taken && VolumeName(md5, b) !in taken ::
      Canonical(a) != Canonical(b)
  }

  /** For mount points whose names are not hashed that is a condition on the mount points: volume
      names stay unique exactly when the new ones differ in canonical form. */
  lemma AddKeepsUniqueIffApart(md5: Md5, buckets: BucketMap, order: seq<string>, volumes: seq<Volume>)
    requires IsOrder(order, buckets) && UniqueNames(volumes)
    requires forall k | k in buckets :: Fits(k)
    ensures UniqueNames(volumes + NewVolumes(md5, buckets, order, volumes))
            <==> NewPointsApart(md5, buckets, NamesOfVolumes(volumes))
  {
    AddKeepsUniqueIff(md5, buckets, order, volumes);
    InjectiveIffApart(md5, buckets, NamesOfVolumes(volumes));
  }

  lemma InjectiveIffApart(md5: Md5, buckets: BucketMap, taken: set<string>)
    requires forall k | k in buckets :: Fits(k)
    ensures NewNamesInjective(md5, buckets, taken) <==> NewPointsApart(md5, buckets, taken)
  {
    forall a, b | a in buckets && b in buckets
      ensures VolumeName(md5, a) == VolumeName(md5, b) <==> Canonical(a) == Canonical(b)
    {
      UnhashedNamesEqualIff(md5, a, b);
    }
  }

  /** Stated for the added volumes as such: one for each new mount point, by name. */
  lemma UniqueIffInjective(md5: Md5, buckets: BucketMap, points: seq<string>, taken: set<string>, added: seq<Volume>)
    requires Distinct(points) && forall k :: k in points <==> k in buckets && VolumeName(md5, k) !in taken
    requires |added| == |points| && forall i | 0 <= i < |points| :: added[i].name == VolumeName(md5, points[i])
    ensures UniqueNames(added) <==> NewNamesInjective(md5, buckets, taken)
    ensures forall v | v in added :: v.name !in taken
  {
    if UniqueNames(added) {
      UniqueGivesInjective(md5, buckets, points, taken, added);
    }
    if NewNamesInjective(md5, buckets, taken) {
      InjectiveGivesUnique(md5, buckets, points, taken, added);
    }
    forall v | v in added ensures v.name !in taken {
      var i :| 0 <= i < |added| && added[i] == v;
      assert points[i] in points;
    }
  }

  lemma InjectiveGivesUnique(md5: Md5, buckets: BucketMap, points: seq<string>, taken: set<string>, added: seq<Volume>)
    requires Distinct(points) && forall k | k in points :: k in buckets && VolumeName(md5, k) !in taken
    requires |added| == |points| && forall i | 0 <= i < |points| :: added[i].name == VolumeName(md5, points[i])
    requires NewNamesInjective(md5, buckets, taken)
    ensures UniqueNames(added)
  {
    forall i, j | 0 <= i < j < |added| ensures added[i].name != added[j].name {
      assert points[i] in points && points[j] in points && points[i] != points[j];
    }
  }

  lemma NamesDiffer(volumes: seq<Volume>, i: nat, j: nat)
    requires UniqueNames(volumes) && i < |volumes| && j < |volumes| && i != j
    ensures volumes[i].name != volumes[j].name
  {
    var low, high := if i < j then i else j, if i < j then j else i;
    assert volumes[low].name != volumes[high].name;
  }

  lemma PositionOf<T>(s: seq<T>, x: T) returns (i: nat)
    requires x in s
    ensures i < |s| && s[i] == x
  {
    i :| i < |s| && s[i] == x;
  }

  lemma UniqueGivesInjective(md5: Md5, buckets: BucketMap, points: seq<string>, taken: set<string>, added: seq<Volume>)
    requires forall k :: k in points <==> k in buckets && VolumeName(md5, k) !in taken
    requires |added| == |points| && forall i | 0 <= i < |points| :: added[i].name == VolumeName(md5, points[i])
    requires UniqueNames(added)
    ensures NewNamesInjective(md5, buckets, taken)
  {
    forall a, b | a in buckets && b in buckets && a != b && VolumeName(md5, a) !in taken && VolumeName(md5, b) !in taken
      ensures VolumeName(md5, a) != VolumeName(md5, b)
    {
      var i := PositionOf(points, a);
      var j := PositionOf(points, b);
      NamesDiffer(added, i, j);
    }
  }

  lemma UniqueConcat(a: seq<Volume>, b: seq<Volume>)
    ensures UniqueNames(a + b) <==>
            UniqueNames(a) && UniqueNames(b) && forall v | v in b :: v.name !in NamesOfVolumes(a)
  {
    var all := a + b;
    assert forall i | 0 <= i < |a| :: all[i] == a[i] && a[i] in a;
    assert forall j | 0 <= j < |b| :: all[|a| + j] == b[j] && b[j] in b;
    if UniqueNames(all) {
      forall i, j | 0 <= i < j < |a| ensures a[i].name != a[j].name { assert all[i].name != all[j].name; }
      forall i, j | 0 <= i < j < |b| ensures b[i].name != b[j].name { assert all[|a| + i].name != all[|a| + j].name; }
      forall v | v in b ensures v.name !in NamesOfVolumes(a) {
        var j :| 0 <= j < |b| && b[j] == v;
        forall u | u in a ensures u.name != v.name {
          var i :| 0 <= i < |a| && a[i] == u;
          assert all[i].name != all[|a| + j].name;
        }
      }
    }
    if UniqueNames(a) && UniqueNames(b) && forall v | v in b :: v.name !in NamesOfVolumes(a) {
      forall i, j | 0 <= i < j < |all| ensures all[i].name != all[j].name {
        if i >= |a| {
          assert b[i - |a|].name != b[j - |a|].name;
        } else if j >= |a| {
          assert a[i] in a && b[j - |a|] in b;
        }
      }
    }
  }

  // ----- Removal -----

  /** The volumes removal keeps, in order. */
  function KeptVolumes(volumes: seq<Volume>): seq<Volume> {
    if volumes == [] then []
    else if HasPrefix(volumes[0].name, PREFIX) then KeptVolumes(volumes[1..])
    else [volumes[0]] + KeptVolumes(volumes[1..])
  }

  /** The mounts removal keeps, in order. */
  function KeptMounts(mounts: seq<Mount>): seq<Mount> {
    if mounts == [] then []
    else if HasPrefix(mounts[0].name, PREFIX) then KeptMounts(mounts[1..])
    else [mounts[0]] + KeptMounts(mounts[1..])
  }

  lemma {:induction false} KeptVolumesMembers(volumes: seq<Volume>)
    ensures forall v :: v in KeptVolumes(volumes) <==> v in volumes && !HasPrefix(v.name, PREFIX)
  {
    if volumes != [] {
      KeptVolumesMembers(volumes[1..]);
      assert forall v :: v in volumes <==> v == volumes[0] || v in volumes[1..];
    }
  }

  lemma {:induction false} KeptMountsMembers(mounts: seq<Mount>)
    ensures forall m :: m in KeptMounts(mounts) <==> m in mounts && !HasPrefix(m.name, PREFIX)
  {
    if mounts != [] {
      KeptMountsMembers(mounts[1..]);
      assert forall m :: m in mounts <==> m == mounts[0] || m in mounts[1..];
    }
  }

  lemma {:induction false} KeptVolumesConcat(a: seq<Volume>, b: seq<Volume>)
    ensures KeptVolumes(a + b) == KeptVolumes(a) + KeptVolumes(b)
  {
    if a == [] {
      assert a + b == b;
    } else {
      var rest := a[1..];
      KeptVolumesConcat(rest, b);
      assert (a + b)[0] == a[0] && (a + b)[1..] == rest + b;
      ConsConcat(a[0], KeptVolumes(rest), KeptVolumes(b));
    }
  }

  lemma {:induction false} KeptMountsConcat(a: seq<Mount>, b: seq<Mount>)
    ensures KeptMounts(a + b) == KeptMounts(a) + KeptMounts(b)
  {
    if a == [] {
      assert a + b == b;
    } else {
      var rest := a[1..];
      KeptMountsConcat(rest, b);
      assert (a + b)[0] == a[0] && (a + b)[1..] == rest + b;
      ConsConcat(a[0], KeptMounts(rest), KeptMounts(b));
    }
  }

  /** Removal is the identity exactly on specs without bucket names, and is visible in the length. */
  lemma {:induction false} KeptAllIff(volumes: seq<Volume>, mounts: seq<Mount>)
    ensures KeptVolumes(volumes) == volumes <==> forall v | v in volumes :: !HasPrefix(v.name, PREFIX)
    ensures KeptMounts(mounts) == mounts <==> forall m | m in mounts :: !HasPrefix(m.name, PREFIX)
    ensures |KeptVolumes(volumes)| <= |volumes| && |KeptMounts(mounts)| <= |mounts|
  {
    if volumes != [] {
      KeptAllIff(volumes[1..], mounts);
      assert forall v :: v in volumes <==> v == volumes[0] || v in volumes[1..];
    } else if mounts != [] {
      KeptAllIff([], mounts[1..]);
      assert forall m :: m in mounts <==> m == mounts[0] || m in mounts[1..];
    }
  }

  /** Removing after adding, in any order, is removing alone. */
  lemma RemoveUndoesAdd(md5: Md5, buckets: BucketMap, order: seq<string>, volumes: seq<Volume>, mounts: seq<Mount>)
    ensures KeptVolumes(volumes + NewVolumes(md5, buckets, order, volumes)) == KeptVolumes(volumes)
    ensures KeptMounts(mounts + NewMounts(md5, order, mounts)) == KeptMounts(mounts)
  {
    var newVolumes, newMounts := NewVolumes(md5, buckets, order, volumes), NewMounts(md5, order, mounts);
    KeptVolumesConcat(volumes, newVolumes);
    KeptMountsConcat(mounts, newMounts);
    assert forall v | v in newVolumes :: HasPrefix(v.name, PREFIX);
    assert forall m | m in newMounts :: HasPrefix(m.name, PREFIX);
    AllDropped(newVolumes, newMounts);
  }

  lemma AllDropped(volumes: seq<Volume>, mounts: seq<Mount>)
    requires forall v | v in volumes :: HasPrefix(v.name, PREFIX)
    requires forall m | m in mounts :: HasPrefix(m.name, PREFIX)
    ensures KeptVolumes(volumes) == [] && KeptMounts(mounts) == []
  {
    KeptVolumesMembers(volumes);
    KeptMountsMembers(mounts);
    HeadIsMember(KeptVolumes(volumes));
    HeadIsMember(KeptMounts(mounts));
  }

  // ----- Referential integrity -----

  /** Every mount names a volume. */
  ghost predicate Resolves(mounts: seq<Mount>, volumes: seq<Volume>) {
    forall m | m in mounts :: m.name in NamesOfVolumes(volumes)
  }

  lemma AddResolves(md5: Md5, buckets: BucketMap, order: seq<string>, volumes: seq<Volume>, mounts: seq<Mount>)
    requires IsOrder(order, buckets) && Resolves(mounts, volumes)
    ensures Resolves(mounts + NewMounts(md5, order, mounts), volumes + NewVolumes(md5, buckets, order, volumes))
  {
    NamesAfterAdd(md5, buckets, order, volumes, mounts);
    var after := mounts + NewMounts(md5, order, mounts);
    assert forall m | m in after :: m.name in NamesOfMounts(after);
    assert forall n | n in NamesOfMounts(mounts) :: n in NamesOfVolumes(volumes);
  }

  lemma RemoveResolves(volumes: seq<Volume>, mounts: seq<Mount>)
    requires Resolves(mounts, volumes)
    ensures Resolves(KeptMounts(mounts), KeptVolumes(volumes))
  {
    KeptVolumesMembers(volumes);
    KeptMountsMembers(mounts);
    forall m | m in KeptMounts(mounts) ensures m.name in NamesOfVolumes(KeptVolumes(volumes)) {
      var v :| v in volumes && v.name == m.name;
      assert v in KeptVolumes(volumes);
    }
  }
}
