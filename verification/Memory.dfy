/** Bytes in memory, and the two kernel copy primitives every driver here uses. */
module Memory {
  type byte = x: int | 0 <= x < 256

  datatype Option<+T> = None | Some(value: T)

  function Repeat(v: byte, n: nat): (s: seq<byte>)
    ensures |s| == n && forall i :: 0 <= i < n ==> s[i] == v
  {
    seq(n, _ => v)
  }

  /** `dst` with the bytes from `at` on replaced by `data`. */
  function Splice(dst: seq<byte>, at: nat, data: seq<byte>): (s: seq<byte>)
    requires at + |data| <= |dst|
    ensures |s| == |dst|
    ensures s[at..at + |data|] == data
    ensures forall i :: 0 <= i < |s| && !(at <= i < at + |data|) ==> s[i] == dst[i]
  {
    dst[..at] + data + dst[at + |data|..]
  }

  lemma SpliceTwice(s: seq<byte>, at: nat, a: seq<byte>, b: seq<byte>)
    requires at + |a| + |b| <= |s|
    ensures Splice(Splice(s, at, a), at + |a|, b) == Splice(s, at, a + b)
  {
  }

  lemma SpliceSame(dst: seq<byte>, at: nat, data: seq<byte>)
    requires at + |data| <= |dst|
    ensures Splice(dst, at, data) == dst <==> dst[at..at + |data|] == data
  {
    if dst[at..at + |data|] == data {
      assert Splice(dst, at, data) == dst;
    }
  }

  method MemCpy(dst: array<byte>, at: nat, src: array<byte>, from: nat, len: nat)
    requires dst != src && at + len <= dst.Length && from + len <= src.Length
    modifies dst
    ensures dst[..] == Splice(old(dst[..]), at, src[from..from + len])
  {
    for i := 0 to len
      invariant dst[..] == Splice(old(dst[..]), at, src[from..from + i])
    {
      dst[at + i] := src[from + i];
    }
  }

  method MemSet(dst: array<byte>, at: nat, v: byte, len: nat)
    requires at + len <= dst.Length
    modifies dst
    ensures dst[..] == Splice(old(dst[..]), at, Repeat(v, len))
  {
    for i := 0 to len
      invariant dst[..] == Splice(old(dst[..]), at, Repeat(v, i))
    {
      dst[at + i] := v;
    }
  }

  /** What copy_from_user leaves in its target: the readable part, the rest cleared. */
  function CopiedFromUser(buf: seq<byte>, count: nat, readable: nat): (s: seq<byte>)
    requires count <= |buf|
    ensures |s| == count
    ensures count <= readable ==> s == buf[..count]
  {
    if count <= readable then buf[..count] else buf[..readable] + Repeat(0, count - readable)
  }

  /** copy_from_user from a buffer readable for `readable` bytes; returns the bytes not copied. */
  method CopyFromUser(dst: array<byte>, at: nat, buf: seq<byte>, count: nat, readable: nat) returns (left: nat)
    requires at + count <= dst.Length && count <= |buf|
    modifies dst
    ensures left == if count <= readable then 0 else count - readable
    ensures dst[..] == Splice(old(dst[..]), at, CopiedFromUser(buf, count, readable))
  {
    ghost var data := CopiedFromUser(buf, count, readable);
    for i := 0 to count
      invariant forall j :: 0 <= j < i ==> dst[at + j] == data[j]
      invariant forall j :: 0 <= j < dst.Length && !(at <= j < at + i) ==> dst[j] == old(dst[j])
    {
      dst[at + i] := if i < readable then buf[i] else 0;
    }
    assert dst[at..at + count] == data;
    assert dst[..] == Splice(old(dst[..]), at, data);
    left := if count <= readable then 0 else count - readable;
  }
}
