/** What the audit router's de-duplication means: which entries are forwarded, given the hashes of
    the entries forwarded before (internal/audit/router.go). */
module AuditRing {

  /** The last `n` elements, or all if there are fewer. */
  function LastOf<T>(s: seq<T>, n: nat): (r: seq<T>)
    ensures |r| == if |s| <= n then |s| else n
  {
    if |s| <= n then s else s[|s| - n..]
  }

  function Empties(n: nat): seq<string> {
    seq(n, (_: int) => "")
  }

  /** The contents of a ring of size `n`, oldest first, after forwarding these hashes: unused slots
      hold the empty string. */
  function RingContents(n: nat, forwarded: seq<string>): seq<string> {
    LastOf(Empties(n) + forwarded, n)
  }

  /** A ring read from its next slot. */
  function ReadFrom(ring: seq<string>, index: nat): seq<string>
    requires index <= |ring|
  {
    ring[index..] + ring[..index]
  }

  /** Forwards a hash unless it is among the last `n` forwarded. */
  function Forward(n: nat, forwarded: seq<string>, hash: string): seq<string> {
    if hash in LastOf(forwarded, n) then forwarded else forwarded + [hash]
  }

  function ForwardAll(n: nat, forwarded: seq<string>, hashes: seq<string>): seq<string>
    decreases |hashes|
  {
    if hashes == [] then forwarded
    else ForwardAll(n, Forward(n, forwarded, hashes[0]), hashes[1..])
  }

  /** Any n + 1 consecutive forwarded hashes are pairwise distinct. */
  predicate WindowsDistinct(n: nat, forwarded: seq<string>) {
    forall i, j | 0 <= i < j < |forwarded| && j - i <= n :: forwarded[i] != forwarded[j]
  }

  /** Being among the last `n` is being at one of the last `n` positions. */
  lemma LastOfMeans(s: seq<string>, n: nat, x: string)
    ensures x in LastOf(s, n) <==> exists i | 0 <= i < |s| :: i >= |s| - n && s[i] == x
  {
    var last := LastOf(s, n);
    var from := |s| - |last|;
    assert forall j | 0 <= j < |last| :: last[j] == s[from + j];
    if i :| 0 <= i < |s| && i >= |s| - n && s[i] == x {
      assert last[i - from] == x;
    }
  }

  /** For non-empty hashes, being in the ring is being among the last `n` forwarded. */
  lemma RingMembership(n: nat, forwarded: seq<string>, hash: string)
    requires hash != ""
    ensures hash in RingContents(n, forwarded) <==> hash in LastOf(forwarded, n)
  {
    var all := Empties(n) + forwarded;
    var contents := RingContents(n, forwarded);
    var recent := LastOf(forwarded, n);
    assert all == Empties(n) + forwarded && |contents| == n;
    assert contents == all[|all| - n..];
    assert contents == Empties(n)[|recent|..] + recent;
    assert forall x | x in Empties(n)[|recent|..] :: x == "";
  }

  /** Forwarding drops the oldest entry of the contents and adds the newest. */
  lemma ContentsStep(n: nat, forwarded: seq<string>, hash: string)
    requires n > 0
    ensures RingContents(n, forwarded + [hash]) == RingContents(n, forwarded)[1..] + [hash]
  {
    var all := Empties(n) + forwarded;
    assert Empties(n) + (forwarded + [hash]) == all + [hash];
    assert LastOf(all, n) == all[|all| - n..];
    assert LastOf(all + [hash], n) == (all + [hash])[|all| + 1 - n..];
    assert (all + [hash])[|all| + 1 - n..] == all[|all| + 1 - n..] + [hash];
  }

  /** Overwriting the next slot and moving on does the same to what is read from the ring. */
  lemma ReadStep(ring: seq<string>, index: nat, hash: string)
    requires index < |ring|
    ensures ReadFrom(ring[index := hash], (index + 1) % |ring|) == ReadFrom(ring, index)[1..] + [hash]
  {
    var next := (index + 1) % |ring|;
    var written := ring[index := hash];
    if index + 1 == |ring| {
      assert next == 0;
    } else {
      assert next == index + 1;
    }
    assert ReadFrom(ring, index)[1..] == ring[index + 1..] + ring[..index];
    assert ReadFrom(written, next) == ring[index + 1..] + (ring[..index] + [hash]);
  }

  lemma RingStep(n: nat, forwarded: seq<string>, ring: seq<string>, index: nat, hash: string)
    requires |ring| == n && index < n
    requires ReadFrom(ring, index) == RingContents(n, forwarded)
    ensures ReadFrom(ring[index := hash], (index + 1) % n) == RingContents(n, forwarded + [hash])
  {
    ContentsStep(n, forwarded, hash);
    ReadStep(ring, index, hash);
  }

  lemma ForwardKeepsDistinct(n: nat, forwarded: seq<string>, hash: string)
    requires WindowsDistinct(n, forwarded)
    ensures WindowsDistinct(n, Forward(n, forwarded, hash))
  {
    if hash !in LastOf(forwarded, n) {
      forall i | 0 <= i < |forwarded| && |forwarded| - i <= n
        ensures forwarded[i] != hash
      {
        var recent := LastOf(forwarded, n);
        assert recent[i - (|forwarded| - |recent|)] == forwarded[i];
      }
    }
  }

  /** Over any run, the forwarded hashes grow, no hash is repeated within any n + 1 consecutive
      ones, and every hash that was presented has been forwarded. */
  lemma {:induction false} ForwardAllProperties(n: nat, forwarded: seq<string>, hashes: seq<string>)
    requires n > 0 && WindowsDistinct(n, forwarded)
    ensures forwarded <= ForwardAll(n, forwarded, hashes)
    ensures WindowsDistinct(n, ForwardAll(n, forwarded, hashes))
    ensures forall h | h in hashes :: h in ForwardAll(n, forwarded, hashes)
    decreases |hashes|
  {
    if hashes != [] {
      var first := Forward(n, forwarded, hashes[0]);
      ForwardKeepsDistinct(n, forwarded, hashes[0]);
      ForwardAllProperties(n, first, hashes[1..]);
      if hashes[0] in LastOf(forwarded, n) {
        assert hashes[0] in forwarded;
      } else {
        assert first[|forwarded|] == hashes[0];
      }
      assert forall h | h in hashes :: h == hashes[0] || h in hashes[1..];
    }
  }
}
