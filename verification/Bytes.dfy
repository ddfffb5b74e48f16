/** Bytes, NUL-terminated strings, and the outcomes of the system calls the proxy makes. */
module Bytes {
  type byte = x: int | 0 <= x < 256

  /** What `recv` may hand back: some bytes (none at end of file, or when no room was offered) or an error. */
  datatype Recv = Received(data: seq<byte>) | RecvError

  datatype Option<+T> = None | Some(value: T)

  /** A C string: bytes without a NUL among them. */
  type CString = s: seq<byte> | NoNul(s)

  predicate NoNul(s: seq<byte>) {
    forall i :: 0 <= i < |s| ==> s[i] != 0
  }

  /** The C string stored in a byte array: everything before the first NUL. */
  function ToCString(s: seq<byte>): (r: CString)
    ensures |r| <= |s| && r == s[..|r|]
    ensures |r| < |s| ==> s[|r|] == 0
  {
    if s == [] || s[0] == 0 then [] else [s[0]] + ToCString(s[1..])
  }

  /** `strcmp`: bytes compared as unsigned, the end of a string as NUL. */
  function Strcmp(a: CString, b: CString): int {
    if a == [] && b == [] then 0
    else if a == [] then -b[0]
    else if b == [] then a[0]
    else if a[0] != b[0] then a[0] - b[0]
    else Strcmp(a[1..], b[1..])
  }

  lemma {:induction false} StrcmpIsEquality(a: CString, b: CString)
    ensures Strcmp(a, b) == 0 <==> a == b
  {
    if a != [] && b != [] && a[0] == b[0] {
      StrcmpIsEquality(a[1..], b[1..]);
      assert a == [a[0]] + a[1..] && b == [b[0]] + b[1..];
    }
  }

  lemma {:induction false} StrcmpAntisymmetric(a: CString, b: CString)
    ensures Strcmp(a, b) == -Strcmp(b, a)
  {
    if a != [] && b != [] && a[0] == b[0] {
      StrcmpAntisymmetric(a[1..], b[1..]);
    }
  }

  lemma {:induction false} StrcmpTransitive(a: CString, b: CString, c: CString)
    requires Strcmp(a, b) < 0 && Strcmp(b, c) < 0
    ensures Strcmp(a, c) < 0
  {
    if a != [] && b != [] && c != [] && a[0] == b[0] == c[0] {
      StrcmpTransitive(a[1..], b[1..], c[1..]);
    }
  }

  function Concat(chunks: seq<seq<byte>>): seq<byte> {
    if chunks == [] then [] else chunks[0] + Concat(chunks[1..])
  }
}
