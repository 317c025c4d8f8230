/** The admission decision for ServiceAccounts (internal/controller/serviceaccount_webhook.go). */
module Validator {
  import opened Options
  import opened Text
  import opened Groups
  import opened ServiceAccounts

  /** Nanoseconds, the unit of Go's time.Duration. */
  const SECOND := 1_000_000_000

  const HELM_CHART := "helm.sh/chart"
  const HELM_RELEASE_NAME := "meta.helm.sh/release-name"
  const HELM_RELEASE_NAMESPACE := "meta.helm.sh/release-namespace"

  /** `parseDuration` stands for Go's time.ParseDuration, in nanoseconds; `printDuration` for
      time.Duration's String. */
  datatype Settings = Settings(
    configs: seq<AccessGroupConfig>,
    parseDuration: string -> Option<int>,
    printDuration: int -> string,
    stage: string)

  /** An audit entry; times are nanoseconds. */
  datatype Payload = Payload(
    user: string,
    team: string,
    group: string,
    groupType: string,
    reason: string,
    startTime: int,
    endTime: int,
    duration: string,
    chartName: string,
    chartVersion: string,
    instanceName: string,
    instanceNamespace: string,
    stage: string)

  datatype Rejection =
    | NoGroupConfig
    | NotUserNamespace
    | MembershipLookupFailed
    | NotMember
    | DurationMissing
    | DurationInvalid
    | DurationTooLong
    | ReasonMissing

  /** `Skip` and `Allow` admit without an audit entry. */
  datatype Decision = Skip | Allow | AllowAudited(entry: Payload) | Reject(why: Rejection) {
    predicate Admits() {
      !Reject?
    }
  }

  function ChartNameAndVersion(labels: map<string, string>): (string, string) {
    if HELM_CHART in labels then
      var pieces := Split(labels[HELM_CHART], '-');
      (Join(pieces[..|pieces| - 1], '-'), pieces[|pieces| - 1])
    else ("unknown", "unknown")
  }

  function LookupOr(m: map<string, string>, key: string, default: string): string {
    if key in m then m[key] else default
  }

  function AuditEntry(settings: Settings, sa: ServiceAccount, c: AccessGroupConfig, group: string,
                      duration: int): Payload {
    var (chartName, chartVersion) := ChartNameAndVersion(sa.labels);
    Payload(TrimPrefix(sa.id.namespace, USER_NAMESPACE_PREFIX), ToTeam(c, group), group, c.name,
            Lookup(sa.annotations, ACCESS_REASON),
            sa.created * SECOND, sa.created * SECOND + duration, settings.printDuration(duration),
            chartName, chartVersion,
            LookupOr(sa.annotations, HELM_RELEASE_NAME, "unknown"),
            LookupOr(sa.annotations, HELM_RELEASE_NAMESPACE, "unknown"),
            settings.stage)
  }

  /** `membership` is the answer of the group directory, None when the lookup fails. */
  function Decide(settings: Settings, membership: Option<bool>, sa: ServiceAccount): Decision {
    match GroupOf(sa)
    case None => Skip
    case Some(group) =>
      if sa.deleting then Skip
      else match GetConfig(settings.configs, group)
      case None => Reject(NoGroupConfig)
      case Some(c) =>
        if TrimPrefix(sa.id.namespace, USER_NAMESPACE_PREFIX) == sa.id.namespace then Reject(NotUserNamespace)
        else if membership.None? then Reject(MembershipLookupFailed)
        else if !membership.value then Reject(NotMember)
        else if !c.reasonRequired then Allow
        else if REQUESTED_DURATION !in sa.annotations then Reject(DurationMissing)
        else match settings.parseDuration(sa.annotations[REQUESTED_DURATION])
        case None => Reject(DurationInvalid)
        case Some(duration) =>
          if duration > c.maxDuration then Reject(DurationTooLong)
          else if Lookup(sa.annotations, ACCESS_REASON) == "" then Reject(ReasonMissing)
          else AllowAudited(AuditEntry(settings, sa, c, group, duration))
  }

  /** A requested duration that may be granted under the configuration. */
  ghost predicate DurationWithin(settings: Settings, sa: ServiceAccount, c: AccessGroupConfig) {
    && REQUESTED_DURATION in sa.annotations
    && settings.parseDuration(sa.annotations[REQUESTED_DURATION]).Some?
    && settings.parseDuration(sa.annotations[REQUESTED_DURATION]).value <= c.maxDuration
  }

  /** What an admitted ServiceAccount satisfies whenever it asks for a group and is not being deleted. */
  ghost predicate Entitled(settings: Settings, sa: ServiceAccount) {
    GroupOf(sa).Some? && !sa.deleting ==>
      var config := GetConfig(settings.configs, GroupOf(sa).value);
      && config.Some?
      && HasPrefix(sa.id.namespace, USER_NAMESPACE_PREFIX)
      && (config.value.reasonRequired ==>
            DurationWithin(settings, sa, config.value) && Lookup(sa.annotations, ACCESS_REASON) != "")
  }

  /** Admission happens exactly for entitled ServiceAccounts whose user is, if asked, a member. */
  lemma AdmittedIff(settings: Settings, membership: Option<bool>, sa: ServiceAccount)
    ensures Decide(settings, membership, sa).Admits() <==>
            Entitled(settings, sa) && (GroupOf(sa).Some? && !sa.deleting ==> membership == Some(true))
  {
    assert |USER_NAMESPACE_PREFIX| == 9;
    var trimmed := TrimPrefix(sa.id.namespace, USER_NAMESPACE_PREFIX);
    assert HasPrefix(sa.id.namespace, USER_NAMESPACE_PREFIX) <==> trimmed != sa.id.namespace;
  }

  /** An entry is recorded exactly for admitted, non-deleting requests for a reason-required group,
      and the grant it describes ends within the allowed time of the creation. */
  lemma AuditedIff(settings: Settings, membership: Option<bool>, sa: ServiceAccount)
    ensures Decide(settings, membership, sa).AllowAudited? <==>
            && Decide(settings, membership, sa).Admits()
            && GroupOf(sa).Some? && !sa.deleting
            && GetConfig(settings.configs, GroupOf(sa).value).value.reasonRequired
    ensures Decide(settings, membership, sa).AllowAudited? ==>
              var entry := Decide(settings, membership, sa).entry;
              var c := GetConfig(settings.configs, GroupOf(sa).value).value;
              && entry.group == GroupOf(sa).value
              && USER_NAMESPACE_PREFIX + entry.user == sa.id.namespace
              && entry.reason != ""
              && entry.startTime == sa.created * SECOND
              && entry.endTime <= entry.startTime + c.maxDuration
  {
    AdmittedIff(settings, membership, sa);
  }

  /** The whole entry: who, for which team and kind of group, why, from when to when and for how long,
      and which chart and instance it serves. */
  lemma EntrySays(settings: Settings, membership: Option<bool>, sa: ServiceAccount)
    requires Decide(settings, membership, sa).AllowAudited?
    ensures var entry := Decide(settings, membership, sa).entry;
            var c := GetConfig(settings.configs, entry.group).value;
            var duration := settings.parseDuration(sa.annotations["dapla.ssb.no/requested-service-duration"]).value;
            && entry.team == ToTeam(c, sa.annotations["dapla.ssb.no/impersonate-group"])
            && entry.groupType == c.name
            && entry.reason == sa.annotations["dapla.ssb.no/access-reason"]
            && entry.startTime == sa.created * SECOND && entry.endTime == entry.startTime + duration
            && entry.duration == settings.printDuration(duration)
            && (HELM_CHART !in sa.labels ==> entry.chartName == "unknown" && entry.chartVersion == "unknown")
            && (entry.chartName, entry.chartVersion) == ChartNameAndVersion(sa.labels)
            && entry.instanceName
               == (if "meta.helm.sh/release-name" in sa.annotations then sa.annotations["meta.helm.sh/release-name"]
                   else "unknown")
            && entry.instanceNamespace
               == (if "meta.helm.sh/release-namespace" in sa.annotations
                   then sa.annotations["meta.helm.sh/release-namespace"] else "unknown")
            && entry.stage == settings.stage
  {
  }

  /** Why a request is rejected: the first of the conditions, in this order, that it misses. */
  lemma RejectedBecause(settings: Settings, membership: Option<bool>, sa: ServiceAccount, why: Rejection)
    requires Decide(settings, membership, sa) == Reject(why)
    ensures GroupOf(sa).Some? && !sa.deleting
    ensures var config := GetConfig(settings.configs, GroupOf(sa).value);
            var text := Annotation(sa, REQUESTED_DURATION);
            && (why.NoGroupConfig? <==> config.None?)
            && (config.Some? ==>
                  && (why.NotUserNamespace? <==> !HasPrefix(sa.id.namespace, USER_NAMESPACE_PREFIX))
                  && (HasPrefix(sa.id.namespace, USER_NAMESPACE_PREFIX) ==>
                        && (why.MembershipLookupFailed? <==> membership.None?)
                        && (why.NotMember? <==> membership == Some(false))
                        && (membership == Some(true) ==>
                              && config.value.reasonRequired
                              && (why.DurationMissing? <==> text.None?)
                              && (why.DurationInvalid? <==> text.Some? && settings.parseDuration(text.value).None?)
                              && (why.DurationTooLong? <==>
                                    && text.Some? && settings.parseDuration(text.value).Some?
                                    && settings.parseDuration(text.value).value > config.value.maxDuration)
                              && (why.ReasonMissing? ==> Lookup(sa.annotations, ACCESS_REASON) == ""))))
  {
    assert |USER_NAMESPACE_PREFIX| == 9;
    var trimmed := TrimPrefix(sa.id.namespace, USER_NAMESPACE_PREFIX);
    assert HasPrefix(sa.id.namespace, USER_NAMESPACE_PREFIX) <==> trimmed != sa.id.namespace;
  }

  /** A chart label with a hyphen is its name, a hyphen and its version; the version has no hyphen. */
  lemma ChartLabelRebuilt(labels: map<string, string>)
    requires HELM_CHART in labels
    ensures var (name, version) := ChartNameAndVersion(labels);
            && '-' !in version
            && ('-' in labels[HELM_CHART] ==> labels[HELM_CHART] == name + "-" + version)
            && ('-' !in labels[HELM_CHART] ==> name == "" && version == labels[HELM_CHART])
  {
    var chart := labels[HELM_CHART];
    var pieces := Split(chart, '-');
    JoinOfSplit(chart, '-');
    PiecesHaveNoSeparator(chart, '-');
    assert pieces[|pieces| - 1] in pieces;
    if |pieces| == 1 {
      assert chart == pieces[0];
    } else {
      JoinLast(pieces, '-');
      assert chart[|Join(pieces[..|pieces| - 1], '-')|] == '-';
    }
  }

  lemma {:induction false} JoinLast(pieces: seq<string>, sep: char)
    requires |pieces| >= 2
    ensures Join(pieces, sep) == Join(pieces[..|pieces| - 1], sep) + [sep] + pieces[|pieces| - 1]
  {
    if |pieces| > 2 {
      JoinLast(pieces[1..], sep);
      assert pieces[1..][..|pieces| - 2] == pieces[..|pieces| - 1][1..];
    }
  }
}
