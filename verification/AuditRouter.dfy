/** The audit router and its sinks as the code has them: a circular buffer of recent hashes, and a
    list of sinks that each may fail (internal/audit/router.go). Calls are sequential. */
module AuditRouter {
  import opened Options
  import opened AuditRing
  import opened Validator

  const RING_SIZE := 100

  /** A sink keeps what it is offered and counts how often it is flushed. Whether it reports an error
      for the k-th entry it is offered, or for the k-th flush, is up to the sink. */
  class Sink {
    const reply: (nat, Payload) -> Option<string>
    const flushReply: nat -> Option<string>
    var log: seq<Payload>
    var flushes: nat

    constructor (reply: (nat, Payload) -> Option<string>, flushReply: nat -> Option<string>)
      ensures log == [] && flushes == 0 && this.reply == reply && this.flushReply == flushReply
    {
      this.reply, this.flushReply, log, flushes := reply, flushReply, [], 0;
    }

    method Record(p: Payload) returns (err: Option<string>)
      modifies this`log
      ensures log == old(log) + [p] && err == reply(|old(log)|, p)
    {
      err := reply(|log|, p);
      log := log + [p];
    }

    method Flush() returns (err: Option<string>)
      modifies this`flushes
      ensures flushes == old(flushes) + 1 && err == flushReply(old(flushes))
    {
      err := flushReply(flushes);
      flushes := flushes + 1;
    }
  }

  /** errors.Join: a list of the errors that are not nil; empty means success. */
  function JoinError(errs: seq<string>, err: Option<string>): seq<string> {
    if err.None? then errs else errs + [err.value]
  }

  /** How often a sink is listed. */
  ghost function Count(sinks: seq<Sink>, s: Sink): nat {
    multiset(sinks)[s]
  }

  ghost function Repeat(p: Payload, n: nat): seq<Payload> {
    seq(n, (_: int) => p)
  }

  lemma RepeatHas(sinks: seq<Sink>, s: Sink, p: Payload, log: seq<Payload>)
    requires s in sinks
    ensures p in log + Repeat(p, Count(sinks, s))
  {
    assert s in multiset(sinks);
    assert (log + Repeat(p, Count(sinks, s)))[|log|] == p;
  }

  lemma RepeatSnoc(p: Payload, n: nat)
    ensures Repeat(p, n) + [p] == Repeat(p, n + 1)
  {
  }

  lemma CountSnoc(sinks: seq<Sink>, k: nat)
    requires k < |sinks|
    ensures forall s :: Count(sinks[..k + 1], s) == Count(sinks[..k], s) + if s == sinks[k] then 1 else 0
  {
    assert sinks[..k + 1] == sinks[..k] + [sinks[k]];
  }

  ghost function LogLengths(sinks: seq<Sink>): (r: seq<nat>)
    reads sinks
    ensures |r| == |sinks|
  {
    seq(|sinks|, i requires 0 <= i < |sinks| reads sinks => |sinks[i].log|)
  }

  ghost function FlushCounts(sinks: seq<Sink>): (r: seq<nat>)
    reads sinks
    ensures |r| == |sinks|
  {
    seq(|sinks|, i requires 0 <= i < |sinks| reads sinks => sinks[i].flushes)
  }

  /** What the sink at a position answers, when the sinks are offered an entry in turn; one that is listed
      before has been offered it already. */
  ghost function AnswerAt(sinks: seq<Sink>, lengths: seq<nat>, p: Payload, i: nat): Option<string>
    requires i < |sinks| == |lengths|
  {
    sinks[i].reply(lengths[i] + Count(sinks[..i], sinks[i]), p)
  }

  /** What it answers when they are flushed in turn. */
  ghost function FlushAnswerAt(sinks: seq<Sink>, counts: seq<nat>, i: nat): Option<string>
    requires i < |sinks| == |counts|
  {
    sinks[i].flushReply(counts[i] + Count(sinks[..i], sinks[i]))
  }

  /** All errors among some answers, in order. */
  ghost function Errors(answers: seq<Option<string>>): seq<string> {
    if answers == [] then []
    else
      var last := answers[|answers| - 1];
      Errors(answers[..|answers| - 1]) + if last.Some? then [last.value] else []
  }

  ghost function Answers(sinks: seq<Sink>, lengths: seq<nat>, p: Payload): (r: seq<Option<string>>)
    requires |sinks| == |lengths|
    ensures |r| == |sinks|
  {
    seq(|sinks|, i requires 0 <= i < |sinks| => AnswerAt(sinks, lengths, p, i))
  }

  ghost function FlushAnswers(sinks: seq<Sink>, counts: seq<nat>): (r: seq<Option<string>>)
    requires |sinks| == |counts|
    ensures |r| == |sinks|
  {
    seq(|sinks|, i requires 0 <= i < |sinks| => FlushAnswerAt(sinks, counts, i))
  }

  lemma {:induction false} NoErrorsIff(answers: seq<Option<string>>)
    ensures Errors(answers) == [] <==> forall a | a in answers :: a.None?
  {
    if answers != [] {
      var front, last := answers[..|answers| - 1], answers[|answers| - 1];
      NoErrorsIff(front);
      assert answers == front + [last];
      assert (forall a | a in answers :: a.None?) <==> (forall a | a in front :: a.None?) && last.None?;
    }
  }

  lemma ErrorsSnoc(answers: seq<Option<string>>, k: nat)
    requires k < |answers|
    ensures Errors(answers[..k + 1]) == JoinError(Errors(answers[..k]), answers[k])
  {
    assert answers[..k + 1][..k] == answers[..k];
  }

  function Hashes(hash: Payload -> string, entries: seq<Payload>): (r: seq<string>)
    ensures |r| == |entries|
  {
    seq(|entries|, i requires 0 <= i < |entries| => hash(entries[i]))
  }

  class Router {
    const hash: Payload -> string
    const sinks: seq<Sink>
    var recentPayloadHashes: array<string>
    var currentHashIndex: nat
    /** The entries forwarded so far. */
    ghost var forwarded: seq<Payload>

    /** The ring holds the last forwarded hashes in order; no hash repeats within any window one
        longer than the ring; and every forwarded entry was offered to every sink. */
    ghost predicate Valid()
      reads this, recentPayloadHashes, sinks
    {
      && RingOk()
      && WindowsDistinct(recentPayloadHashes.Length, Hashes(hash, forwarded))
      && (forall s, q | s in sinks && q in forwarded :: q in s.log)
    }

    ghost predicate RingOk()
      reads this, recentPayloadHashes
    {
      && (forall p :: hash(p) != "")
      && currentHashIndex < recentPayloadHashes.Length
      && ReadFrom(recentPayloadHashes[..], currentHashIndex)
         == RingContents(recentPayloadHashes.Length, Hashes(hash, forwarded))
    }

    /** A router for these sinks; `hash` stands for the hexadecimal MD5 digest of an entry's JSON
        form, which is never empty. */
    constructor (sinks: seq<Sink>, hash: Payload -> string)
      requires forall p :: hash(p) != ""
      ensures Valid() && fresh(recentPayloadHashes)
      ensures this.sinks == sinks && this.hash == hash
      ensures forwarded == [] && recentPayloadHashes.Length == RING_SIZE
    {
      this.sinks, this.hash := sinks, hash;
      recentPayloadHashes := new string[RING_SIZE](_ => "");
      currentHashIndex := 0;
      forwarded := [];
      new;
      assert recentPayloadHashes[..] == Empties(RING_SIZE);
    }

    method RecordHash(h: string, ghost p: Payload)
      requires RingOk() && h == hash(p)
      modifies this`currentHashIndex, this`forwarded, recentPayloadHashes
      ensures RingOk() && forwarded == old(forwarded) + [p]
      ensures recentPayloadHashes[..] == old(recentPayloadHashes[..])[old(currentHashIndex) := h]
    {
      RingStep(recentPayloadHashes.Length, Hashes(hash, forwarded), recentPayloadHashes[..], currentHashIndex, h);
      recentPayloadHashes[currentHashIndex] := h;
      currentHashIndex := (currentHashIndex + 1) % recentPayloadHashes.Length;
      assert Hashes(hash, forwarded) + [h] == Hashes(hash, forwarded + [p]);
      forwarded := forwarded + [p];
    }

    /** Whether an entry's hash is among the last forwarded ones. */
    ghost predicate IsRecent(p: Payload)
      reads this, recentPayloadHashes
    {
      hash(p) in LastOf(Hashes(hash, forwarded), recentPayloadHashes.Length)
    }

    /** Forwards an entry to every sink, whatever errors they return, exactly when its hash is not
        among the last forwarded ones. */
    method RecordAll(p: Payload) returns (errs: seq<string>)
      requires Valid()
      modifies this, recentPayloadHashes, sinks
      ensures Valid() && recentPayloadHashes == old(recentPayloadHashes)
      ensures Hashes(hash, forwarded) == Forward(recentPayloadHashes.Length, old(Hashes(hash, forwarded)), hash(p))
      ensures old(IsRecent(p)) ==>
                errs == [] && forwarded == old(forwarded) && forall s | s in sinks :: s.log == old(s.log)
      ensures !old(IsRecent(p)) ==>
                && forwarded == old(forwarded) + [p]
                && forall s | s in sinks :: s.log == old(s.log) + Repeat(p, Count(sinks, s))
      ensures !old(IsRecent(p)) ==>
                && errs == Errors(Answers(sinks, old(LogLengths(sinks)), p))
                && (errs == [] <==> forall a | a in Answers(sinks, old(LogLengths(sinks)), p) :: a.None?)
      ensures forall s | s in sinks :: exists q | q in s.log :: hash(q) == hash(p)
    {
      var h := hash(p);
      ghost var n := recentPayloadHashes.Length;
      RingMembership(n, Hashes(hash, forwarded), h);
      ReadFromMembers(recentPayloadHashes[..], currentHashIndex, h);
      if h in recentPayloadHashes[..] {
        ghost var k :| 0 <= k < |forwarded| && Hashes(hash, forwarded)[k] == h;
        assert forwarded[k] in forwarded;
        return [];
      }
      ForwardKeepsDistinct(n, Hashes(hash, forwarded), h);
      RecordHash(h, p);
      assert Hashes(hash, forwarded) == old(Hashes(hash, forwarded)) + [h];
      assert LogLengths(sinks) == old(LogLengths(sinks));
      errs := Offer(p);
      NoErrorsIff(Answers(sinks, old(LogLengths(sinks)), p));
    }

    /** The loop over the sinks. */
    method Offer(p: Payload) returns (errs: seq<string>)
      modifies sinks
      ensures forall s | s in sinks :: s.log == old(s.log) + Repeat(p, Count(sinks, s)) && p in s.log
      ensures errs == Errors(Answers(sinks, old(LogLengths(sinks)), p))
    {
      errs := [];
      ghost var lengths := LogLengths(sinks);
      ghost var answers := Answers(sinks, lengths, p);
      for k := 0 to |sinks|
        invariant forall s | s in sinks :: s.log == old(s.log) + Repeat(p, Count(sinks[..k], s))
        invariant errs == Errors(answers[..k])
      {
        CountSnoc(sinks, k);
        assert |sinks[k].log| == lengths[k] + Count(sinks[..k], sinks[k]);
        RepeatSnoc(p, Count(sinks[..k], sinks[k]));
        ErrorsSnoc(answers, k);
        var err := OfferTo(k, p, lengths);
        errs := JoinError(errs, err);
      }
      assert sinks[..|sinks|] == sinks && answers[..|sinks|] == answers;
      forall s | s in sinks ensures p in s.log {
        RepeatHas(sinks, s, p, old(s.log));
      }
    }

    /** One sink of the list, in its turn. */
    method OfferTo(k: nat, p: Payload, ghost lengths: seq<nat>) returns (err: Option<string>)
      requires k < |sinks| == |lengths| && |sinks[k].log| == lengths[k] + Count(sinks[..k], sinks[k])
      modifies sinks[k]
      ensures sinks[k].log == old(sinks[k].log) + [p]
      ensures err == Answers(sinks, lengths, p)[k]
    {
      err := sinks[k].Record(p);
    }

    /** Flushes every sink, whatever errors they return, collecting the errors in order. */
    method FlushAll() returns (errs: seq<string>)
      modifies sinks
      ensures forall s | s in sinks :: s.log == old(s.log)
      ensures forall s | s in sinks :: s.flushes == old(s.flushes) + Count(sinks, s)
      ensures errs == Errors(FlushAnswers(sinks, old(FlushCounts(sinks))))
      ensures errs == [] <==> forall a | a in FlushAnswers(sinks, old(FlushCounts(sinks))) :: a.None?
    {
      errs := [];
      ghost var counts := FlushCounts(sinks);
      ghost var answers := FlushAnswers(sinks, counts);
      for k := 0 to |sinks|
        invariant forall s | s in sinks :: s.log == old(s.log)
        invariant forall s | s in sinks :: s.flushes == old(s.flushes) + Count(sinks[..k], s)
        invariant errs == Errors(answers[..k])
      {
        CountSnoc(sinks, k);
        assert sinks[k].flushes == counts[k] + Count(sinks[..k], sinks[k]);
        var err := sinks[k].Flush();
        assert err == answers[k];
        ErrorsSnoc(answers, k);
        errs := JoinError(errs, err);
      }
      assert sinks[..|sinks|] == sinks && answers[..|sinks|] == answers;
      NoErrorsIff(answers);
    }

    /** Audit coverage: every hash in the ring belongs to an entry that every sink was offered. */
    lemma RingCovered(h: string)
      requires Valid() && h != "" && h in recentPayloadHashes[..]
      ensures forall s | s in sinks :: exists q | q in s.log :: hash(q) == h
    {
      ReadFromMembers(recentPayloadHashes[..], currentHashIndex, h);
      RingMembership(recentPayloadHashes.Length, Hashes(hash, forwarded), h);
      var k :| 0 <= k < |forwarded| && Hashes(hash, forwarded)[k] == h;
      assert forwarded[k] in forwarded;
    }
  }

  lemma ReadFromMembers(ring: seq<string>, index: nat, h: string)
    requires index <= |ring|
    ensures h in ReadFrom(ring, index) <==> h in ring
  {
    assert ring == ring[..index] + ring[index..];
  }
}
