// Byte strings and the result type shared by every module.

module Bytes {
  type Byte = b: int | 0 <= b < 256
  type Bytes = seq<Byte>

  const CR: Byte := 13
  const LF: Byte := 10
  const CRLF: Bytes := [CR, LF]

  datatype Option<+T> = None | Some(value: T)

  datatype Result<+T, +E> = Ok(value: T) | Err(error: E)

  // Concatenation of the pieces a transport delivers.
  function Flatten(pieces: seq<Bytes>): Bytes {
    if pieces == [] then [] else pieces[0] + Flatten(pieces[1..])
  }

  lemma {:induction false} FlattenAppend(a: seq<Bytes>, b: seq<Bytes>)
    ensures Flatten(a + b) == Flatten(a) + Flatten(b)
  {
    if a == [] {
      assert a + b == b;
    } else {
      assert (a + b)[1..] == a[1..] + b;
      FlattenAppend(a[1..], b);
    }
  }

  lemma NoPieces()
    ensures Flatten([]) == []
  {
  }

  lemma FlattenFirst(first: Bytes, more: seq<Bytes>)
    ensures Flatten([first] + more) == first + Flatten(more)
  {
    assert ([first] + more)[1..] == more;
  }

  // Index of the first `b`, or the length when there is none.
  function First(b: Byte, s: Bytes): (k: nat)
    ensures k <= |s|
    decreases |s|
  {
    if s == [] then 0 else if s[0] == b then 0 else 1 + First(b, s[1..])
  }

  // No `b` among the first `k` bytes.
  predicate NoneBefore(b: Byte, s: Bytes, k: nat)
    requires k <= |s|
  {
    forall i :: 0 <= i < k ==> s[i] != b
  }

  // The first `b` is exactly where one follows a stretch without.
  lemma {:induction false} FirstIff(b: Byte, s: Bytes, k: nat)
    requires k <= |s|
    ensures First(b, s) == k <==> NoneBefore(b, s, k) && (k < |s| ==> s[k] == b)
    decreases |s|
  {
    if s != [] && s[0] != b && k > 0 {
      FirstIff(b, s[1..], k - 1);
      assert forall i :: 0 <= i < k - 1 ==> s[1..][i] == s[i + 1];
      assert NoneBefore(b, s, k) <==> NoneBefore(b, s[1..], k - 1) by {
        if NoneBefore(b, s[1..], k - 1) {
          forall i | 0 <= i < k ensures s[i] != b {
            assert i > 0 ==> s[i] == s[1..][i - 1];
          }
        }
      }
    }
  }
}
