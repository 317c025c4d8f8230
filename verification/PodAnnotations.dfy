/** Annotation values the mutating webhook edits: the excluded outbound ranges of a pod, the bucket
    list of a StatefulSet, and the annotations it copies to the ServiceAccount
    (internal/controller/statefulset_webhook.go). */
module PodAnnotations {
  import opened Options
  import opened Text

  const EXCLUDED_RANGES := "traffic.sidecar.istio.io/excludeOutboundIPRanges"
  const GCSFUSE_VOLUMES := "gke-gcsfuse/volumes"
  const GCSFUSE_RANGE := "169.254.169.254/32"
  const MOUNT_BUCKETS := "dapla.ssb.no/mount-buckets"

  /** The range list after making sure it has the range of the metadata server. */
  function EnsuredRanges(value: Option<string>): string {
    match value
    case None => GCSFUSE_RANGE
    case Some(text) =>
      if GCSFUSE_RANGE in Split(text, ',') then text
      else Join(Split(text, ',') + [GCSFUSE_RANGE], ',')
  }

  /** All existing ranges are kept in order, the needed one is added at the end only if missing, and
      doing it again changes nothing. */
  lemma RangesEnsured(value: Option<string>)
    ensures var after := Split(EnsuredRanges(value), ',');
            && GCSFUSE_RANGE in after
            && (value.None? ==> after == [GCSFUSE_RANGE])
            && (value.Some? && GCSFUSE_RANGE in Split(value.value, ',') ==> after == Split(value.value, ','))
            && (value.Some? && GCSFUSE_RANGE !in Split(value.value, ',') ==>
                 after == Split(value.value, ',') + [GCSFUSE_RANGE])
    ensures EnsuredRanges(Some(EnsuredRanges(value))) == EnsuredRanges(value)
  {
    assert forall i | 0 <= i < |GCSFUSE_RANGE| :: GCSFUSE_RANGE[i] != ',';
    match value
    case None =>
      SplitHead(GCSFUSE_RANGE, [], ',');
    case Some(text) =>
      PiecesHaveNoSeparator(text, ',');
      var pieces := Split(text, ',') + [GCSFUSE_RANGE];
      assert forall piece | piece in pieces :: ',' !in piece;
      assert pieces[|pieces| - 1] == GCSFUSE_RANGE;
      SplitOfJoin(pieces, ',');
  }

  /** The annotations of a pod template, whose map may be nil. */
  function EnsuredAnnotations(annotations: Option<map<string, string>>): map<string, string> {
    var known := if annotations.None? then map[] else annotations.value;
    var marked := known[GCSFUSE_VOLUMES := "true"];
    marked[EXCLUDED_RANGES := EnsuredRanges(if EXCLUDED_RANGES in marked then Some(marked[EXCLUDED_RANGES]) else None)]
  }

  lemma AnnotationsEnsuredTwice(annotations: Option<map<string, string>>)
    ensures EnsuredAnnotations(Some(EnsuredAnnotations(annotations))) == EnsuredAnnotations(annotations)
  {
    assert |EXCLUDED_RANGES| != |GCSFUSE_VOLUMES|;
    var known := if annotations.None? then map[] else annotations.value;
    var ranges := if EXCLUDED_RANGES in known then Some(known[EXCLUDED_RANGES]) else None;
    RangesEnsured(ranges);
    SetTwice(known, GCSFUSE_VOLUMES, EXCLUDED_RANGES, "true", EnsuredRanges(ranges));
  }

  /** The mark of the driver is set, the ranges are those of `EnsuredRanges`, and every other annotation
      of the pod stays. */
  lemma AnnotationsRead(annotations: Option<map<string, string>>)
    ensures var before := if annotations.None? then map[] else annotations.value;
            var after := EnsuredAnnotations(annotations);
            && Lookup(after, "gke-gcsfuse/volumes") == "true"
            && EXCLUDED_RANGES in after && GCSFUSE_RANGE in Split(after[EXCLUDED_RANGES], ',')
            && after[EXCLUDED_RANGES]
               == EnsuredRanges(if EXCLUDED_RANGES in before then Some(before[EXCLUDED_RANGES]) else None)
            && (forall k | k in before && k != GCSFUSE_VOLUMES && k != EXCLUDED_RANGES ::
                  k in after && after[k] == before[k])
            && (forall k | k in after :: k in before || k == GCSFUSE_VOLUMES || k == EXCLUDED_RANGES)
  {
    assert |EXCLUDED_RANGES| != |GCSFUSE_VOLUMES|;
    var before := if annotations.None? then map[] else annotations.value;
    RangesEnsured(if EXCLUDED_RANGES in before then Some(before[EXCLUDED_RANGES]) else None);
  }

  lemma SetTwice<K, V>(m: map<K, V>, g: K, r: K, x: V, y: V)
    requires g != r
    ensures m[g := x][r := y][g := x] == m[g := x][r := y]
    ensures m[g := x][r := y][r := y] == m[g := x][r := y]
  {
  }

  /** The buckets named in an annotation, each its own mount point. */
  method GetExtraBucketMounts(annotations: map<string, string>) returns (buckets: map<string, string>)
    ensures MOUNT_BUCKETS !in annotations ==> buckets == map[]
    ensures MOUNT_BUCKETS in annotations ==> buckets == map b | b in Split(annotations[MOUNT_BUCKETS], ',') :: b
  {
    var names := if MOUNT_BUCKETS in annotations then Split(annotations[MOUNT_BUCKETS], ',') else [];
    buckets := map[];
    for i := 0 to |names|
      invariant buckets == map b | b in names[..i] :: b
    {
      Text.TakeSnoc(names, i);
      buckets := buckets[names[i] := names[i]];
    }
    assert names[..|names|] == names;
  }

  /** Old annotations with every wanted one that reads differently replaced; an absent one reads as
      empty, so an empty wanted value is not added. */
  function Merged(old': map<string, string>, wanted: map<string, string>): map<string, string> {
    old' + map k | k in wanted && Lookup(old', k) != wanted[k] :: wanted[k]
  }

  /** After merging every wanted annotation reads as wanted, all others are as before, and merging
      again changes nothing. */
  lemma MergeSettles(old': map<string, string>, wanted: map<string, string>)
    ensures forall k | k in wanted :: Lookup(Merged(old', wanted), k) == wanted[k]
    ensures forall k | k !in wanted ::
              Lookup(Merged(old', wanted), k) == Lookup(old', k) && (k in old' <==> k in Merged(old', wanted))
    ensures Merged(Merged(old', wanted), wanted) == Merged(old', wanted)
    ensures Merged(old', wanted) == old' <==> forall k | k in wanted :: Lookup(old', k) == wanted[k]
  {
    assert forall k | k in wanted && Lookup(old', k) != wanted[k] :: Merged(old', wanted)[k] == wanted[k];
  }

  /** Merging one more wanted annotation changes at most that key. */
  lemma MergeStep(old': map<string, string>, part: map<string, string>, key: string, value: string)
    requires key !in part
    ensures Lookup(Merged(old', part), key) == Lookup(old', key)
    ensures Merged(old', part[key := value])
            == if Lookup(old', key) == value then Merged(old', part) else Merged(old', part)[key := value]
  {
  }
}
