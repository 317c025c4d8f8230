/** The validating webhook: the decision, and the audit entry it leaves before it admits
    (internal/controller/serviceaccount_webhook.go). */
module ServiceAccountWebhook {
  import opened Options
  import opened Groups
  import opened ServiceAccounts
  import opened Validator
  import opened AuditRouter
  import opened AuditRing

  class ServiceAccountValidator {
    const settings: Settings
    const audit: Router

    constructor (settings: Settings, audit: Router)
      ensures this.settings == settings && this.audit == audit
    {
      this.settings, this.audit := settings, audit;
    }

    /** Every sink was offered an entry with the hash of this one. */
    ghost predicate Offered(entry: Payload)
      reads audit, audit.sinks
    {
      forall s | s in audit.sinks :: exists q | q in s.log :: audit.hash(q) == audit.hash(entry)
    }

    /** Decides a create or update; `membership` is what the group directory would answer. By the
        time an audited request is admitted its entry has been offered to all sinks, whatever
        errors they returned; nothing is recorded for any other request. */
    method Validate(sa: ServiceAccount, membership: Option<bool>) returns (decision: Decision)
      requires audit.Valid()
      modifies audit, audit.recentPayloadHashes, audit.sinks
      ensures audit.Valid() && audit.recentPayloadHashes == old(audit.recentPayloadHashes)
      ensures decision == Decide(settings, membership, sa)
      ensures decision.AllowAudited? ==>
                && Offered(decision.entry)
                && Hashes(audit.hash, audit.forwarded)
                   == Forward(audit.recentPayloadHashes.Length, old(Hashes(audit.hash, audit.forwarded)),
                        audit.hash(decision.entry))
      ensures !decision.AllowAudited? ==>
                audit.forwarded == old(audit.forwarded) && forall s | s in audit.sinks :: s.log == old(s.log)
      ensures forall s | s in audit.sinks :: old(s.log) <= s.log
    {
      decision := Decide(settings, membership, sa);
      if decision.AllowAudited? {
        var _ := audit.RecordAll(decision.entry);
      }
    }
  }

  /** The hashes a sequence of requests presents to the router: one for each audited request. */
  function PresentedHashes(settings: Settings, hash: Payload -> string,
                           requests: seq<(ServiceAccount, Option<bool>)>): seq<string> {
    if requests == [] then []
    else
      var decision := Decide(settings, requests[0].1, requests[0].0);
      (if decision.AllowAudited? then [hash(decision.entry)] else [])
      + PresentedHashes(settings, hash, requests[1..])
  }

  /** Audit coverage over whole runs: after any sequence of requests, each admitted, non-deleting
      request for a reason-required group has an entry with its hash among those forwarded, and so
      among those offered to every sink; and no hash is forwarded twice in a window. */
  lemma {:induction false} AdmissionsCovered(settings: Settings, hash: Payload -> string, n: nat,
                                             forwarded: seq<string>,
                                             requests: seq<(ServiceAccount, Option<bool>)>, k: nat)
    requires n > 0 && WindowsDistinct(n, forwarded)
    requires k < |requests|
    requires var (sa, membership) := requests[k];
             && Decide(settings, membership, sa).Admits()
             && GroupOf(sa).Some? && !sa.deleting
             && GetConfig(settings.configs, GroupOf(sa).value).value.reasonRequired
    ensures Decide(settings, requests[k].1, requests[k].0).AllowAudited?
    ensures hash(Decide(settings, requests[k].1, requests[k].0).entry)
            in ForwardAll(n, forwarded, PresentedHashes(settings, hash, requests))
    ensures WindowsDistinct(n, ForwardAll(n, forwarded, PresentedHashes(settings, hash, requests)))
  {
    AuditedIff(settings, requests[k].1, requests[k].0);
    Presented(settings, hash, requests, k);
    ForwardAllProperties(n, forwarded, PresentedHashes(settings, hash, requests));
  }

  lemma {:induction false} Presented(settings: Settings, hash: Payload -> string,
                                     requests: seq<(ServiceAccount, Option<bool>)>, k: nat)
    requires k < |requests| && Decide(settings, requests[k].1, requests[k].0).AllowAudited?
    ensures hash(Decide(settings, requests[k].1, requests[k].0).entry) in PresentedHashes(settings, hash, requests)
  {
    if k > 0 {
      Presented(settings, hash, requests[1..], k - 1);
    }
  }
}
