/** Constants of Utils.h and Client.h, and the few notions every other module shares. */
module Basics {

  const MAX_FILENAME := 33
  const MAX_IP := 16
  const MAX_CLIENTS := 25
  const MAX_FILES := 25
  const SEGMENT_SIZE := 32
  const MAX_SEGMENTS := 10240

  type byte = x: int | 0 <= x < 256

  /** A file name, as the C string it is: the bytes before the terminating zero. */
  type Name = seq<byte>

  /** The names that fit a MAX_FILENAME field together with their terminating zero. */
  predicate IsName(n: Name) {
    0 < |n| < MAX_FILENAME && 0 !in n
  }

  datatype Option<+T> = None | Some(value: T)

  /** What the table searches of the C code compute: the index at which the loop breaks,
      or the length of the table when it never does. */
  function FirstIndex<T>(s: seq<T>, p: T -> bool): (i: nat)
    ensures i <= |s|
    ensures i < |s| ==> p(s[i])
    ensures forall j :: 0 <= j < i ==> !p(s[j])
  {
    if |s| == 0 || p(s[0]) then 0 else
      var i := 1 + FirstIndex(s[1..], p);
      assert forall j :: 1 <= j < |s| ==> s[1..][j - 1] == s[j];
      i
  }

  function Repeat<T>(n: nat, v: T): (s: seq<T>)
    ensures |s| == n && forall i :: 0 <= i < n ==> s[i] == v
  {
    seq(n, i => v)
  }

  function Zeros(n: nat): (b: seq<byte>)
    ensures |b| == n && forall i :: 0 <= i < n ==> b[i] == 0
  {
    Repeat(n, 0)
  }

  /** Two's complement reading of the low sixteen bits. */
  function Int16(v: int): (r: int)
    ensures -32768 <= r < 32768
    ensures -32768 <= v < 32768 ==> r == v
    ensures (r - v) % 65536 == 0
  {
    var u := v % 65536;
    if u < 32768 then u else u - 65536
  }

  function Max(a: int, b: int): int {
    if a < b then b else a
  }

  function Min(a: int, b: int): int {
    if a < b then a else b
  }
}
