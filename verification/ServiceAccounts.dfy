/** Kubernetes ServiceAccounts as the operator sees them, with the annotation keys it shares
    between the webhooks and the reconciler (internal/controller/common.go). */
module ServiceAccounts {
  import opened Options

  const IMPERSONATE_GROUP := "dapla.ssb.no/impersonate-group"
  const REQUESTED_DURATION := "dapla.ssb.no/requested-service-duration"
  const ACCESS_REASON := "dapla.ssb.no/access-reason"
  const WORKLOAD_IDENTITY := "iam.gke.io/gcp-service-account"
  const FINALIZER := "dapla.ssb.no/ssbucketeer"
  const USER_NAMESPACE_PREFIX := "user-ssb-"

  datatype NamespacedName = NamespacedName(namespace: string, name: string)

  /** Kubernetes allows no slash in a namespace or a name. */
  predicate IsName(nn: NamespacedName) {
    '/' !in nn.namespace && '/' !in nn.name
  }

  /** `created` is the creation timestamp in whole seconds, the resolution of the API. */
  datatype ServiceAccount = ServiceAccount(
    id: NamespacedName,
    created: int,
    deleting: bool,
    finalizers: set<string>,
    annotations: map<string, string>,
    labels: map<string, string>)

  function Annotation(sa: ServiceAccount, key: string): Option<string> {
    if key in sa.annotations then Some(sa.annotations[key]) else None
  }

  function GroupOf(sa: ServiceAccount): Option<string> {
    Annotation(sa, IMPERSONATE_GROUP)
  }

  /** The keys used below are different strings. */
  lemma KeysDiffer()
    ensures WORKLOAD_IDENTITY != IMPERSONATE_GROUP
    ensures WORKLOAD_IDENTITY != REQUESTED_DURATION
    ensures WORKLOAD_IDENTITY != ACCESS_REASON
  {
    assert |WORKLOAD_IDENTITY| == 30 && |IMPERSONATE_GROUP| == 30;
    assert WORKLOAD_IDENTITY[0] == 'i' && IMPERSONATE_GROUP[0] == 'd';
    assert REQUESTED_DURATION[0] == 'd' && ACCESS_REASON[0] == 'd';
  }
}
