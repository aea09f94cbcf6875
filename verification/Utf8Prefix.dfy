/** The longest shared prefix of two UTF-8 strings that ends between characters. */
module Utf8Prefix {

  type Byte = b: int | 0 <= b < 256

  predicate InRange(b: Byte, lo: int, hi: int) {
    lo <= b <= hi
  }

  predicate IsTail(b: Byte) {
    InRange(b, 0x80, 0xBF)
  }

  /** Length of the well-formed character at the start of `s`, 0 if there is none (section 4 of RFC 3629). */
  function CharLen(s: seq<Byte>): (n: nat)
    ensures n <= 4 && n <= |s|
    ensures n > 0 ==> !IsTail(s[0]) && forall k | 1 <= k < n :: IsTail(s[k])
  {
    if |s| >= 1 && s[0] <= 0x7F then 1
    else if |s| >= 2 && InRange(s[0], 0xC2, 0xDF) && IsTail(s[1]) then 2
    else if |s| >= 3 && IsTail(s[2])
            && ((s[0] == 0xE0 && InRange(s[1], 0xA0, 0xBF)) || (InRange(s[0], 0xE1, 0xEC) && IsTail(s[1]))
                || (s[0] == 0xED && InRange(s[1], 0x80, 0x9F)) || (InRange(s[0], 0xEE, 0xEF) && IsTail(s[1]))) then 3
    else if |s| >= 4 && IsTail(s[2]) && IsTail(s[3])
            && ((s[0] == 0xF0 && InRange(s[1], 0x90, 0xBF)) || (InRange(s[0], 0xF1, 0xF3) && IsTail(s[1]))
                || (s[0] == 0xF4 && InRange(s[1], 0x80, 0x8F))) then 4
    else 0
  }

  predicate Valid(s: seq<Byte>) {
    s == [] || (CharLen(s) > 0 && Valid(s[CharLen(s)..]))
  }

  /** `i` lies between two characters of `s`, by counting whole characters from the start. */
  predicate Boundary(s: seq<Byte>, i: nat)
    requires Valid(s)
  {
    i == 0 || (s != [] && i >= CharLen(s) && Boundary(s[CharLen(s)..], i - CharLen(s)))
  }

  /** What `is_char_boundary` tests: the end, or a byte that continues no character. */
  predicate LooksLikeBoundary(s: seq<Byte>, i: nat) {
    i == 0 || i == |s| || (i < |s| && !IsTail(s[i]))
  }

  /** In a valid string the one-byte test is right. */
  lemma {:induction false} ByteTestIsRight(s: seq<Byte>, i: nat)
    requires Valid(s)
    ensures Boundary(s, i) <==> LooksLikeBoundary(s, i)
  {
    if i != 0 && s != [] {
      var n := CharLen(s);
      if i >= n {
        ByteTestIsRight(s[n..], i - n);
        if n < |s| {
          FirstByteLeads(s[n..]);
        }
      }
    }
  }

  lemma FirstByteLeads(s: seq<Byte>)
    requires Valid(s) && s != []
    ensures !IsTail(s[0])
  {
  }

  /** A boundary inside a shared prefix is a boundary of both strings. */
  lemma {:induction false} BoundaryIsShared(a: seq<Byte>, b: seq<Byte>, i: nat)
    requires Valid(a) && Valid(b) && i <= |a| && i <= |b| && a[..i] == b[..i] && Boundary(a, i)
    ensures Boundary(b, i)
  {
    if i > 0 {
      var n := CharLen(a);
      assert forall k | 0 <= k < n :: a[k] == a[..i][k] == b[..i][k] == b[k];
      assert CharLen(b) == n;
      assert a[n..][..i - n] == a[..i][n..] && b[n..][..i - n] == b[..i][n..];
      BoundaryIsShared(a[n..], b[n..], i - n);
    }
  }

  /** Among any four consecutive positions up to the end, one is a boundary. */
  lemma {:induction false} BoundaryWithinThree(s: seq<Byte>, i: nat)
    requires Valid(s) && i <= |s|
    ensures exists j: nat :: i - 3 <= j <= i && Boundary(s, j)
  {
    if i < 4 {
      assert Boundary(s, 0);
    }
    if i > 0 && i >= CharLen(s) {
      var n := CharLen(s);
      BoundaryWithinThree(s[n..], i - n);
      var j: nat :| i - n - 3 <= j <= i - n && Boundary(s[n..], j);
      assert Boundary(s, j + n);
    }
  }

  ghost predicate SharedPrefix(a: seq<Byte>, b: seq<Byte>, i: nat) {
    i <= |a| && i <= |b| && a[..i] == b[..i]
  }

  lemma SharedByte(a: seq<Byte>, b: seq<Byte>, m: nat, i: nat)
    requires SharedPrefix(a, b, m) && i < m
    ensures a[i] == b[i]
  {
    assert a[i] == a[..m][i] && b[i] == b[..m][i];
  }

  ghost predicate CommonBoundary(a: seq<Byte>, b: seq<Byte>, i: nat)
    requires Valid(a) && Valid(b)
  {
    SharedPrefix(a, b, i) && Boundary(a, i) && Boundary(b, i)
  }

  /** `n` is the largest length that is a shared prefix and a boundary of both strings. */
  ghost predicate IsCommonPrefixLen(a: seq<Byte>, b: seq<Byte>, n: nat)
    requires Valid(a) && Valid(b)
  {
    CommonBoundary(a, b, n) && forall m: nat | CommonBoundary(a, b, m) :: m <= n
  }

  /** `longest`: the shared byte prefix before backing up, at most three bytes more. */
  method CommonPrefixLen(a: seq<Byte>, b: seq<Byte>) returns (i: nat, ghost longest: nat)
    requires Valid(a) && Valid(b)
    ensures IsCommonPrefixLen(a, b, i)
    ensures IsLongestShared(a, b, longest) && longest - 3 <= i <= longest
  {
    i := SharedLength(a, b);
    longest := i;
    i := BackUp(a, i);
    assert a[..i] == a[..longest][..i] && b[..i] == b[..longest][..i];
    BoundaryIsShared(a, b, i);
  }

  ghost predicate IsLongestShared(a: seq<Byte>, b: seq<Byte>, n: nat) {
    SharedPrefix(a, b, n) && forall m: nat | SharedPrefix(a, b, m) :: m <= n
  }

  /** The first loop: compare bytes. */
  method SharedLength(a: seq<Byte>, b: seq<Byte>) returns (i: nat)
    ensures IsLongestShared(a, b, i)
  {
    var max := if |a| <= |b| then |a| else |b|;
    i := 0;
    while i < max && a[i] == b[i]
      invariant 0 <= i <= max && a[..i] == b[..i]
    {
      i := i + 1;
    }
    forall m: nat | SharedPrefix(a, b, m) ensures m <= i {
      if m > i {
        SharedByte(a, b, m, i);
      }
    }
  }

  /** The second loop: back up to a byte that does not continue a character. */
  method BackUp(a: seq<Byte>, longest: nat) returns (i: nat)
    requires Valid(a) && longest <= |a|
    ensures longest - 3 <= i <= longest && Boundary(a, i)
    ensures forall m: nat | i < m <= longest :: !Boundary(a, m)
  {
    i := longest;
    BoundaryWithinThree(a, longest);
    ghost var near: nat :| longest - 3 <= near <= longest && Boundary(a, near);
    ByteTestIsRight(a, near);
    while i > 0 && !(i == |a| || !IsTail(a[i]))
      invariant near <= i <= longest
      invariant forall m: nat | i < m <= longest :: !LooksLikeBoundary(a, m)
    {
      i := i - 1;
    }
    ByteTestIsRight(a, i);
    forall m: nat | i < m <= longest ensures !Boundary(a, m) {
      ByteTestIsRight(a, m);
    }
  }

  /** The answer does not depend on which string is searched for boundaries. */
  lemma PrefixLenIsSymmetric(a: seq<Byte>, b: seq<Byte>, m: nat, n: nat)
    requires Valid(a) && Valid(b) && IsCommonPrefixLen(a, b, m) && IsCommonPrefixLen(b, a, n)
    ensures m == n
  {
    assert CommonBoundary(b, a, m) && CommonBoundary(a, b, n);
  }
}
