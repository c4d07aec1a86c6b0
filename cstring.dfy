/**
 * C strings over a byte buffer: the length that `strlen` computes is the
 * index of the first zero byte.
 */
module CString {

  /** The length of the C string held in `s`: the number of bytes before the
      first zero byte, or |s| when `s` holds no zero byte at all. */
  function Length(s: seq<bv8>): (n: nat)
    ensures n <= |s|
    ensures forall i :: 0 <= i < n ==> s[i] != 0
    ensures n < |s| ==> s[n] == 0
  {
    if s == [] then 0
    else if s[0] == 0 then 0
    else 1 + Length(s[1..])
  }

  /** Bytes after a terminator never change the length: the string `data`
      followed by a NUL and anything else has the length of `data`. */
  lemma {:induction false} LengthOfTerminated(data: seq<bv8>, rest: seq<bv8>)
    ensures Length(data + [0] + rest) == Length(data)
    ensures Length(data + [0] + rest) <= |data|
  {
    if data != [] {
      assert (data + [0] + rest)[1..] == data[1..] + [0] + rest;
      LengthOfTerminated(data[1..], rest);
    }
  }

  /** A C string with no embedded zero byte has its full length. */
  lemma LengthWithoutZero(s: seq<bv8>)
    ensures Length(s) == |s| <==> forall i :: 0 <= i < |s| ==> s[i] != 0
  {
  }

  /** The scan `strlen` performs: walk from the start until a zero byte.
      The buffer must hold a terminator, as the C library demands. */
  method ScanLength(a: array<bv8>) returns (n: nat)
    requires exists i :: 0 <= i < a.Length && a[i] == 0
    ensures n < a.Length && a[n] == 0
    ensures forall i :: 0 <= i < n ==> a[i] != 0
    ensures n == Length(a[..])
  {
    n := 0;
    while a[n] != 0
      invariant n < a.Length
      invariant forall i :: 0 <= i < n ==> a[i] != 0
      invariant exists i :: n <= i < a.Length && a[i] == 0
      decreases a.Length - n
    {
      n := n + 1;
    }
    LengthIsFirstZero(a[..], n);
  }

  /** Length is the only index that is zero and preceded by non-zero bytes. */
  lemma LengthIsFirstZero(s: seq<bv8>, k: nat)
    requires k < |s| && s[k] == 0
    requires forall i :: 0 <= i < k ==> s[i] != 0
    ensures Length(s) == k
  {
  }
}
