/** Fixed-width little-endian integers, as the wire codecs and the item keys use them. */
module LittleEndian {
  import opened Prelude

  function Pow256(w: nat): (r: nat)
    ensures r >= 1
  {
    if w == 0 then 1 else 256 * Pow256(w - 1)
  }

  /** The low `w` bytes of `n`: what a `put_uN_le` of a value cast to N bits writes. */
  function Put(n: nat, w: nat): (r: seq<byte>)
    ensures |r| == w
  {
    if w == 0 then [] else [n % 256] + Put(n / 256, w - 1)
  }

  function Get(s: seq<byte>): nat {
    if s == [] then 0 else s[0] + 256 * Get(s[1..])
  }

  /** Two's complement at width `w`. */
  function PutSigned(n: int, w: nat): seq<byte>
    requires 0 <= n + Pow256(w)
  {
    Put(if n < 0 then n + Pow256(w) else n, w)
  }

  function GetSigned(s: seq<byte>): int {
    var n := Get(s);
    if 2 * n < Pow256(|s|) then n else n - Pow256(|s|)
  }

  lemma Widths()
    ensures Pow256(1) == 0x100 && Pow256(2) == 0x1_0000 && Pow256(4) == 0x1_0000_0000
    ensures Pow256(8) == 0x1_0000_0000_0000_0000
  {
  }

  lemma {:induction false} GetBound(s: seq<byte>)
    ensures Get(s) < Pow256(|s|)
  {
    if s != [] { GetBound(s[1..]); }
  }

  lemma {:induction false} GetPut(n: nat, w: nat)
    requires n < Pow256(w)
    ensures Get(Put(n, w)) == n
  {
    if w > 0 {
      GetPut(n / 256, w - 1);
      assert Put(n, w)[1..] == Put(n / 256, w - 1);
    }
  }

  lemma {:induction false} PutGet(s: seq<byte>)
    ensures Put(Get(s), |s|) == s
  {
    if s != [] {
      PutGet(s[1..]);
      assert Get(s) % 256 == s[0] && Get(s) / 256 == Get(s[1..]);
    }
  }

  lemma {:induction false} GetPutSigned(n: int, w: nat)
    requires 0 <= 2 * n + Pow256(w) && 2 * n < Pow256(w)
    ensures GetSigned(PutSigned(n, w)) == n
  {
    GetPut(if n < 0 then n + Pow256(w) else n, w);
  }

  lemma {:induction false} PutGetSigned(s: seq<byte>)
    ensures 0 <= 2 * GetSigned(s) + Pow256(|s|) && 2 * GetSigned(s) < Pow256(|s|)
    ensures PutSigned(GetSigned(s), |s|) == s
  {
    GetBound(s);
    PutGet(s);
    var n: int, p: int := Get(s), Pow256(|s|);
    assert 0 <= n < p;
    if 2 * n < p {
      assert GetSigned(s) == n;
    } else {
      assert GetSigned(s) == n - p;
    }
  }

  // ----------------------------------------------------------------- known bytes

  /** What the bytes at an offset mean, written out. */
  function U16At(s: seq<byte>, at: nat): nat
    requires at + 2 <= |s|
  {
    s[at] as int + 256 * (s[at + 1] as int)
  }

  function U32At(s: seq<byte>, at: nat): nat
    requires at + 4 <= |s|
  {
    s[at] as int + 256 * (s[at + 1] as int) + 65_536 * (s[at + 2] as int) + 16_777_216 * (s[at + 3] as int)
  }

  function I16At(s: seq<byte>, at: nat): int
    requires at + 2 <= |s|
  {
    if s[at + 1] < 128 then U16At(s, at) else U16At(s, at) - 65_536
  }

  lemma KnownBytes2(s: seq<byte>)
    requires |s| == 2
    ensures Get(s) == U16At(s, 0) && GetSigned(s) == I16At(s, 0)
  {
    Widths();
    assert s[1..] == [s[1]] && s[1..][1..] == [];
    assert Get(s[1..]) == s[1] + 256 * Get([]);
  }

  lemma KnownBytes4(s: seq<byte>)
    requires |s| == 4
    ensures Get(s) == U32At(s, 0)
  {
    var a, b, c := s[1..], s[1..][1..], s[1..][1..][1..];
    assert c == [s[3]] && c[1..] == [];
    assert Get(c) == s[3] + 256 * Get([]);
    assert Get(b) == s[2] + 256 * Get(c);
    assert Get(a) == s[1] + 256 * Get(b);
  }

  lemma {:induction false} GetSplit(a: seq<byte>, b: seq<byte>)
    ensures Get(a + b) == Get(a) + Pow256(|a|) * Get(b)
  {
    if a == [] {
      assert a + b == b;
    } else {
      assert (a + b)[0] == a[0] && (a + b)[1..] == a[1..] + b;
      GetSplit(a[1..], b);
      Distribute(Pow256(|a| - 1), Get(b));
    }
  }

  lemma Distribute(p: nat, x: nat)
    ensures 256 * (p * x) == 256 * p * x
  {
  }

  lemma KnownBytes8(s: seq<byte>)
    requires |s| == 8
    ensures Get(s) == U32At(s, 0) + 0x1_0000_0000 * U32At(s, 4)
  {
    Widths();
    assert s == s[..4] + s[4..];
    GetSplit(s[..4], s[4..]);
    KnownBytes4(s[..4]);
    KnownBytes4(s[4..]);
  }
}
