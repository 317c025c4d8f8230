/** The volume name derived from a bucket's mount point (internal/controller/volumes.go). */
module VolumeNames {
  import opened Text

  const PREFIX := "gcsfuse-"
  const MAX_LENGTH := 54
  const HASH_LENGTH := 8

  /** The hexadecimal MD5 digest: any function to strings of 32 characters. */
  type Md5 = f: string -> string | forall s: string :: |f(s)| == 32
    witness (s: string) => seq(32, (_: int) => '0')

  /** Replaces every slash by two hyphens. */
  function EncodeSlashes(s: string): string {
    if s == "" then ""
    else (if s[0] == '/' then "--" else [s[0]]) + EncodeSlashes(s[1..])
  }

  function VolumeName(md5: Md5, mountPoint: string): (name: string)
    ensures |name| <= MAX_LENGTH
    ensures HasPrefix(name, PREFIX)
    ensures |EncodeSlashes(mountPoint)| <= MAX_LENGTH - |PREFIX| ==> name == PREFIX + EncodeSlashes(mountPoint)
    ensures |EncodeSlashes(mountPoint)| > MAX_LENGTH - |PREFIX| ==> |name| == MAX_LENGTH
  {
    var full := PREFIX + EncodeSlashes(mountPoint);
    if |full| > MAX_LENGTH then
      full[..MAX_LENGTH - HASH_LENGTH - 1] + "-" + md5(full)[..HASH_LENGTH]
    else full
  }

  /** Reads a name from the left, turning each pair of hyphens into a slash. */
  function DecodeSlashes(s: string): string {
    if s == "" then ""
    else if HasPrefix(s, "--") then "/" + DecodeSlashes(s[2..])
    else [s[0]] + DecodeSlashes(s[1..])
  }

  /** No hyphen is followed by a hyphen or a slash. */
  predicate HyphensApart(s: string) {
    forall i | 0 <= i < |s| - 1 :: s[i] == '-' ==> s[i + 1] != '-' && s[i + 1] != '/'
  }

  lemma EncodedHead(s: string)
    requires s != ""
    ensures EncodeSlashes(s) != ""
    ensures EncodeSlashes(s)[0] == (if s[0] == '/' then '-' else s[0])
  {
  }

  /** The slash encoding is undone by decoding exactly on the mount points whose hyphens stand apart. */
  lemma {:induction false} DecodeInvertsEncodeIff(s: string)
    ensures DecodeSlashes(EncodeSlashes(s)) == s <==> HyphensApart(s)
  {
    if s != "" {
      var tail := s[1..];
      var encodedTail := EncodeSlashes(tail);
      DecodeInvertsEncodeIff(tail);
      assert s == [s[0]] + tail;
      if s[0] == '/' {
        assert EncodeSlashes(s)[2..] == encodedTail;
        TailApart(s);
      } else if s[0] != '-' {
        assert EncodeSlashes(s)[1..] == encodedTail;
        TailApart(s);
      } else if tail == "" {
        assert EncodeSlashes(s) == "-";
      } else {
        EncodedHead(tail);
        if tail[0] == '-' || tail[0] == '/' {
          assert HasPrefix(EncodeSlashes(s), "--");
          assert DecodeSlashes(EncodeSlashes(s))[0] == '/';
          assert s[1] == '-' || s[1] == '/';
        } else {
          assert EncodeSlashes(s)[1..] == encodedTail;
          assert EncodeSlashes(s)[1] == tail[0] != '-';
          TailApart(s);
        }
      }
    }
  }

  lemma TailApart(s: string)
    requires s != ""
    requires s[0] == '-' && |s| > 1 ==> s[1] != '-' && s[1] != '/'
    ensures HyphensApart(s) <==> HyphensApart(s[1..])
  {
    var tail := s[1..];
    assert forall i | 0 <= i < |tail| :: tail[i] == s[i + 1];
    if HyphensApart(tail) {
      forall i | 0 <= i < |s| - 1 && s[i] == '-'
        ensures s[i + 1] != '-' && s[i + 1] != '/'
      {
        if i > 0 { assert tail[i - 1] == s[i]; }
      }
    }
  }

  lemma {:induction false} EncodedHasNoSlash(s: string)
    ensures '/' !in EncodeSlashes(s)
  {
    if s != "" {
      EncodedHasNoSlash(s[1..]);
    }
  }

  /** Decoding is undone by encoding wherever there is no slash. */
  lemma {:induction false} EncodeInvertsDecode(x: string)
    requires '/' !in x
    ensures EncodeSlashes(DecodeSlashes(x)) == x
  {
    if x != "" {
      assert x[0] != '/';
      if HasPrefix(x, "--") {
        var rest := x[2..];
        assert forall c | c in rest :: c in x;
        EncodeInvertsDecode(rest);
        assert ("/" + DecodeSlashes(rest))[1..] == DecodeSlashes(rest);
        assert x == "--" + rest;
      } else {
        var rest := x[1..];
        assert forall c | c in rest :: c in x;
        EncodeInvertsDecode(rest);
        assert ([x[0]] + DecodeSlashes(rest))[1..] == DecodeSlashes(rest);
        assert x == [x[0]] + rest;
      }
    }
  }

  /** A name that is not hashed: the encoded mount point fits. */
  predicate Fits(mountPoint: string) {
    |EncodeSlashes(mountPoint)| <= MAX_LENGTH - |PREFIX|
  }

  /** The mount point that stands for all those with the same encoding: read from the left, two
      hyphens in the encoding are a slash. */
  function Canonical(mountPoint: string): string {
    DecodeSlashes(EncodeSlashes(mountPoint))
  }

  /** Exactly when names that are not hashed collide. */
  lemma UnhashedNamesEqualIff(md5: Md5, a: string, b: string)
    ensures Fits(a) && Fits(b) ==> (VolumeName(md5, a) == VolumeName(md5, b) <==> Canonical(a) == Canonical(b))
  {
    EncodedHasNoSlash(a);
    EncodedHasNoSlash(b);
    EncodeInvertsDecode(EncodeSlashes(a));
    EncodeInvertsDecode(EncodeSlashes(b));
    SameAfterPrefix(PREFIX, EncodeSlashes(a), EncodeSlashes(b));
  }

  lemma SameAfterPrefix(prefix: string, a: string, b: string)
    ensures prefix + a == prefix + b <==> a == b
  {
    if prefix + a == prefix + b {
      assert a == (prefix + a)[|prefix|..] == (prefix + b)[|prefix|..] == b;
    }
  }

  /** So they are injective on mount points whose hyphens stand apart. */
  lemma UnhashedNamesInjective(md5: Md5, a: string, b: string)
    requires HyphensApart(a) && HyphensApart(b)
    ensures Fits(a) && Fits(b) ==> (VolumeName(md5, a) == VolumeName(md5, b) <==> a == b)
  {
    UnhashedNamesEqualIff(md5, a, b);
    DecodeInvertsEncodeIff(a);
    DecodeInvertsEncodeIff(b);
  }

  /** The encoding runs through the text: a slash is two hyphens, anything else stays. */
  lemma {:induction false} EncodeThrough(a: string, b: string)
    ensures EncodeSlashes(a + "/" + b) == EncodeSlashes(a) + "--" + EncodeSlashes(b)
    ensures '/' !in a ==> EncodeSlashes(a) == a
  {
    if a == "" {
      assert ("" + "/" + b)[1..] == b;
    } else {
      var rest := a[1..];
      EncodeThrough(rest, b);
      assert a == [a[0]] + rest;
      assert (a + "/" + b)[1..] == rest + "/" + b;
      var head := if a[0] == '/' then "--" else [a[0]];
      ConsConcatAll(head, EncodeSlashes(rest), "--", EncodeSlashes(b));
    }
  }

  lemma ConsConcatAll(a: string, b: string, c: string, d: string)
    ensures a + (b + c + d) == a + b + c + d
  {
  }

  /** A name that is hashed: the first 45 characters of the full one, a hyphen, and the first eight digits
      of the digest of the full one; so names with different digits there are different. */
  lemma HashedName(md5: Md5, a: string, b: string)
    requires !Fits(a) && !Fits(b)
    ensures VolumeName(md5, a)[..45] == ("gcsfuse-" + EncodeSlashes(a))[..45]
    ensures VolumeName(md5, a)[45] == '-'
    ensures VolumeName(md5, a)[46..] == md5("gcsfuse-" + EncodeSlashes(a))[..8]
    ensures VolumeName(md5, a) == VolumeName(md5, b) <==>
              && ("gcsfuse-" + EncodeSlashes(a))[..45] == ("gcsfuse-" + EncodeSlashes(b))[..45]
              && md5("gcsfuse-" + EncodeSlashes(a))[..8] == md5("gcsfuse-" + EncodeSlashes(b))[..8]
  {
    HashedParts(md5, a);
    HashedParts(md5, b);
    assert VolumeName(md5, a) == VolumeName(md5, a)[..45] + [VolumeName(md5, a)[45]] + VolumeName(md5, a)[46..];
    assert VolumeName(md5, b) == VolumeName(md5, b)[..45] + [VolumeName(md5, b)[45]] + VolumeName(md5, b)[46..];
  }

  lemma HashedParts(md5: Md5, a: string)
    requires !Fits(a)
    ensures var full := "gcsfuse-" + EncodeSlashes(a);
            && VolumeName(md5, a)[..45] == full[..45] && VolumeName(md5, a)[45] == '-'
            && VolumeName(md5, a)[46..] == md5(full)[..8]
  {
    var full := "gcsfuse-" + EncodeSlashes(a);
    assert |full[..45]| == 45 && VolumeName(md5, a) == full[..45] + "-" + md5(full)[..8];
  }

  /** Outside that domain names collide: `a/b` and `a--b` get the same volume. */
  lemma NamesCollide(md5: Md5)
    ensures VolumeName(md5, "a/b") == VolumeName(md5, "a--b")
    ensures HyphensApart("a/b") && !HyphensApart("a--b")
  {
    assert "a/b"[1..] == "/b" && "/b"[1..] == "b" && "b"[1..] == "";
    assert "a--b"[1..] == "--b" && "--b"[1..] == "-b" && "-b"[1..] == "b";
    assert EncodeSlashes("b") == "b";
    assert EncodeSlashes("/b") == "--b";
    assert EncodeSlashes("-b") == "-b";
    assert EncodeSlashes("--b") == "--b";
    assert "a--b"[1] == '-' && "a--b"[2] == '-';
  }
}
