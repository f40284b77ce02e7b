/** Object representations: how a word is copied into and out of a byte buffer by `memcpy`, in little-endian order. */
module ObjectBytes {
  import Rounding

  type Byte = b: nat | b < 0x100

  ghost function Power256(k: nat): (p: nat)
    ensures p >= 1
  {
    if k == 0 then 1 else 0x100 * Power256(k - 1)
  }

  /** The `k` bytes of `v`, least significant first. */
  function Bytes(v: nat, k: nat): (s: seq<Byte>)
    ensures |s| == k
  {
    if k == 0 then [] else [v % 0x100] + Bytes(v / 0x100, k - 1)
  }

  function Value(s: seq<Byte>): nat {
    if s == [] then 0 else s[0] + 0x100 * Value(s[1..])
  }

  lemma {:induction false} ValueOfBytes(v: nat, k: nat)
    requires v < Power256(k)
    ensures Value(Bytes(v, k)) == v
    decreases k
  {
    if k > 0 {
      ValueOfBytes(v / 0x100, k - 1);
      assert Bytes(v, k)[1..] == Bytes(v / 0x100, k - 1);
    }
  }

  lemma {:induction false} BytesOfValue(s: seq<Byte>)
    ensures Bytes(Value(s), |s|) == s && Value(s) < Power256(|s|)
    decreases |s|
  {
    if s != [] {
      BytesOfValue(s[1..]);
      assert Value(s) / 0x100 == Value(s[1..]) && Value(s) % 0x100 == s[0];
    }
  }

  /** The `i`-th byte, counted from the least significant one. */
  lemma {:induction false} ByteOfWord(v: nat, k: nat, i: nat)
    requires i < k
    ensures Bytes(v, k)[i] == v / Power256(i) % 0x100
    decreases k
  {
    if i > 0 {
      ByteOfWord(v / 0x100, k - 1, i - 1);
      Rounding.DivideTwice(v, 0x100, Power256(i - 1));
    }
  }

  /** Two words are equal exactly if their bytes are. */
  lemma SameWordSameBytes(s: seq<Byte>, v: nat)
    requires v < Power256(|s|)
    ensures Value(s) == v <==> s == Bytes(v, |s|)
  {
    BytesOfValue(s);
    ValueOfBytes(v, |s|);
  }

  lemma PowersOf256()
    ensures Power256(4) == 0x1_0000_0000 && Power256(8) == 0x1_0000_0000_0000_0000
  {
    assert Power256(8) == 0x1_0000_0000 * Power256(4) by {
      assert Power256(8) == 0x100 * Power256(7) == 0x1_0000 * Power256(6);
      assert Power256(6) == 0x100 * Power256(5) == 0x1_0000 * Power256(4);
    }
  }

  /** `s` with the bytes from `at` onwards overwritten by `t`. */
  function Splice(s: seq<Byte>, at: nat, t: seq<Byte>): (r: seq<Byte>)
    requires at + |t| <= |s|
    ensures |r| == |s|
  {
    s[..at] + t + s[at + |t|..]
  }

  lemma SpliceChanges(s: seq<Byte>, at: nat, t: seq<Byte>)
    requires at + |t| <= |s|
    ensures Splice(s, at, t)[at..at + |t|] == t
    ensures forall i :: 0 <= i < at || at + |t| <= i < |s| ==> Splice(s, at, t)[i] == s[i]
  {
  }

  lemma SpliceTwice(s: seq<Byte>, at: nat, t: seq<Byte>, u: seq<Byte>)
    requires at + |t| + |u| <= |s|
    ensures Splice(Splice(s, at, t), at + |t|, u) == Splice(s, at, t + u) == Splice(Splice(s, at + |t|, u), at, t)
  {
  }

  /** `memcpy` from a word of `k` bytes. */
  method Store(bytes: array<Byte>, at: nat, v: nat, k: nat)
    requires at + k <= bytes.Length
    modifies bytes
    ensures bytes[..] == Splice(old(bytes[..]), at, Bytes(v, k))
  {
    ghost var was := bytes[..];
    var word := Bytes(v, k);
    for j := 0 to k
      invariant forall i :: 0 <= i < j ==> bytes[at + i] == word[i]
      invariant forall i :: 0 <= i < at || at + j <= i < bytes.Length ==> bytes[i] == was[i]
    {
      bytes[at + j] := word[j];
    }
    assert bytes[at..at + k] == word;
  }

  /** `memcpy` to a word of `k` bytes. */
  method Load(bytes: array<Byte>, at: nat, k: nat) returns (v: nat)
    requires at + k <= bytes.Length
    ensures Bytes(v, k) == bytes[at..at + k] && v < Power256(k)
    ensures v == Value(bytes[at..at + k])
  {
    v := Value(bytes[at..at + k]);
    BytesOfValue(bytes[at..at + k]);
  }
}
