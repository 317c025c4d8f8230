/** Optional values, as used for missing map entries and failed lookups. */
module Options {
  datatype Option<+T> = None | Some(value: T)
}

/** The string operations the operator relies on: prefixes, suffixes, and splitting and joining
    on a one-character separator. Strings are sequences of bytes, as in Go. */
module Text {

  predicate HasPrefix(s: string, prefix: string) {
    prefix <= s
  }

  predicate HasSuffix(s: string, suffix: string) {
    |suffix| <= |s| && s[|s| - |suffix|..] == suffix
  }

  function TrimPrefix(s: string, prefix: string): (r: string)
    ensures !HasPrefix(s, prefix) ==> r == s
    ensures HasPrefix(s, prefix) ==> prefix + r == s
  {
    if HasPrefix(s, prefix) then s[|prefix|..] else s
  }

  function TrimSuffix(s: string, suffix: string): (r: string)
    ensures !HasSuffix(s, suffix) ==> r == s
    ensures HasSuffix(s, suffix) ==> r + suffix == s
  {
    if HasSuffix(s, suffix) then s[..|s| - |suffix|] else s
  }

  function Lookup(m: map<string, string>, key: string): string {
    if key in m then m[key] else ""
  }

  lemma ConsConcat<T>(x: T, a: seq<T>, b: seq<T>)
    ensures [x] + (a + b) == [x] + a + b
  {
  }

  lemma TakeSnoc<T>(s: seq<T>, i: nat)
    requires i < |s|
    ensures s[..i + 1] == s[..i] + [s[i]]
  {
  }

  /** Go's strings.Split for a one-character separator; the empty string has one empty piece. */
  function Split(s: string, sep: char): (pieces: seq<string>)
    ensures |pieces| >= 1
  {
    if s == [] then [[]]
    else
      var rest := Split(s[1..], sep);
      if s[0] == sep then [[]] + rest else [[s[0]] + rest[0]] + rest[1..]
  }

  function Join(pieces: seq<string>, sep: char): string {
    if |pieces| == 0 then []
    else if |pieces| == 1 then pieces[0]
    else pieces[0] + [sep] + Join(pieces[1..], sep)
  }

  /** Joining the pieces of a split gives the string back. */
  lemma {:induction false} JoinOfSplit(s: string, sep: char)
    ensures Join(Split(s, sep), sep) == s
  {
    if s != [] {
      var rest := Split(s[1..], sep);
      JoinOfSplit(s[1..], sep);
      if s[0] == sep {
        assert ([[]] + rest)[1..] == rest;
      } else {
        var pieces := [[s[0]] + rest[0]] + rest[1..];
        assert pieces[1..] == rest[1..];
      }
    }
  }

  /** No piece of a split contains the separator. */
  lemma {:induction false} PiecesHaveNoSeparator(s: string, sep: char)
    ensures forall piece | piece in Split(s, sep) :: sep !in piece
  {
    if s != [] {
      PiecesHaveNoSeparator(s[1..], sep);
      var rest := Split(s[1..], sep);
      assert rest[0] in rest;
      assert forall piece | piece in rest[1..] :: piece in rest;
    }
  }

  /** A separator-free string is its own only piece; one in front of a separator is split off. */
  lemma {:induction false} SplitHead(head: string, tail: string, sep: char)
    requires sep !in head
    ensures Split(head, sep) == [head]
    ensures Split(head + [sep] + tail, sep) == [head] + Split(tail, sep)
  {
    var whole := head + [sep] + tail;
    if head == [] {
      assert whole[1..] == tail;
    } else {
      SplitHead(head[1..], tail, sep);
      assert whole[1..] == head[1..] + [sep] + tail;
      assert head == [head[0]] + head[1..];
    }
  }

  /** Splitting what was joined from separator-free pieces gives the pieces back, in order. */
  lemma {:induction false} SplitOfJoin(pieces: seq<string>, sep: char)
    requires |pieces| >= 1
    requires forall piece | piece in pieces :: sep !in piece
    ensures Split(Join(pieces, sep), sep) == pieces
  {
    if |pieces| == 1 {
      SplitHead(pieces[0], [], sep);
    } else {
      SplitOfJoin(pieces[1..], sep);
      SplitHead(pieces[0], Join(pieces[1..], sep), sep);
      assert pieces == [pieces[0]] + pieces[1..];
    }
  }

  /** Two suffixes of the same string: the shorter one is a suffix of the longer one. */
  lemma SuffixesNest(s: string, short: string, long: string)
    requires HasSuffix(s, short) && HasSuffix(s, long) && |short| <= |long|
    ensures HasSuffix(long, short)
  {
    assert long[|long| - |short|..] == s[|s| - |short|..];
  }

  lemma SuffixOfConcat(front: string, suffix: string)
    ensures HasSuffix(front + suffix, suffix)
    ensures TrimSuffix(front + suffix, suffix) == front
  {
    assert (front + suffix)[|front|..] == suffix;
    assert (front + suffix)[..|front|] == front;
  }

  /** Strings that agree up to their first separator agree on both sides of it. */
  lemma FirstSeparatorSplits(a: string, b: string, c: string, d: string, sep: char)
    requires sep !in a && sep !in c
    requires a + [sep] + b == c + [sep] + d
    ensures a == c && b == d
  {
    var whole := a + [sep] + b;
    assert whole[|a|] == sep && whole[|c|] == sep;
    assert forall k | 0 <= k < |a| :: whole[k] == a[k] != sep;
    assert forall k | 0 <= k < |c| :: whole[k] == c[k] != sep;
    assert a == whole[..|a|] == c;
    assert b == whole[|a| + 1..] == d;
  }

  /** A prefix and a suffix are what can be put in front of, or behind, something to give the text; and
      trimming gives that something. */
  lemma AffixesMean(s: string, t: string)
    ensures HasPrefix(s, t) <==> exists rest :: s == t + rest
    ensures HasSuffix(s, t) <==> exists rest :: s == rest + t
    ensures HasPrefix(s, t) ==> t + TrimPrefix(s, t) == s
    ensures HasSuffix(s, t) ==> TrimSuffix(s, t) + t == s
    ensures !HasPrefix(s, t) ==> TrimPrefix(s, t) == s
    ensures !HasSuffix(s, t) ==> TrimSuffix(s, t) == s
  {
    if HasPrefix(s, t) { assert s == t + s[|t|..]; }
    if HasSuffix(s, t) { assert s == s[..|s| - |t|] + t; }
    forall rest | s == rest + t ensures HasSuffix(s, t) {
      assert (rest + t)[|rest|..] == t;
    }
  }
}
