/** Truncation of UTF-8 text at a character boundary. */
module Utf8 {
  import opened Basics

  predicate Cont(b: Byte) {
    0x80 <= b <= 0xBF
  }

  // ---- section 3 and section 4 of RFC 3629 ----------------------------------------------------------

  /** Length of the character that starts with this byte; 0 if none does. */
  function CharLength(b: Byte): (n: nat)
    ensures n <= 4
  {
    if b < 0x80 then 1
    else if 0xC2 <= b <= 0xDF then 2
    else if 0xE0 <= b <= 0xEF then 3
    else if 0xF0 <= b <= 0xF4 then 4
    else 0
  }

  /** `s` starts with a well-formed character. */
  predicate StartsWell(s: seq<Byte>)
    requires s != []
  {
    var n := CharLength(s[0]);
    && 1 <= n <= |s| && (forall i :: 1 <= i < n ==> Cont(s[i]))
    && (s[0] == 0xE0 ==> s[1] >= 0xA0) && (s[0] == 0xED ==> s[1] <= 0x9F)
    && (s[0] == 0xF0 ==> s[1] >= 0x90) && (s[0] == 0xF4 ==> s[1] <= 0x8F)
  }

  predicate Valid(s: seq<Byte>)
    decreases |s|
  {
    s == [] || (StartsWell(s) && Valid(s[CharLength(s[0])..]))
  }

  // ---- boundaries -------------------------------------------------------------------------------------

  /** `str::is_char_boundary` looks at one byte. */
  predicate IsCharBoundary(s: seq<Byte>, i: nat) {
    i == 0 || i == |s| || (i < |s| && !Cont(s[i]))
  }

  /** On valid text that test finds exactly the places where a prefix is valid text. */
  lemma {:induction false} BoundaryExactly(s: seq<Byte>, i: nat)
    requires Valid(s) && i <= |s|
    ensures IsCharBoundary(s, i) <==> Valid(s[..i])
    decreases |s|
  {
    if s != [] && i > 0 {
      var n := CharLength(s[0]);
      if i < n {
        assert s[..i][0] == s[0];
      } else {
        var rest := s[n..];
        BoundaryExactly(rest, i - n);
        assert s[..i][n..] == rest[..i - n] && s[..i][0] == s[0];
        assert StartsWell(s[..i]) by {
          assert forall k :: 1 <= k < n ==> s[..i][k] == s[k];
        }
        if i < |s| && i == n { assert rest[0] == s[n]; }
      }
    }
  }

  /** No more than three bytes back there is a boundary. */
  lemma {:induction false} NearBoundary(s: seq<Byte>, i: nat)
    requires Valid(s) && i <= |s|
    ensures exists j: nat :: i - 3 <= j <= i && IsCharBoundary(s, j)
    decreases |s|
  {
    if s == [] || i < CharLength(s[0]) {
      assert IsCharBoundary(s, 0);
    } else {
      var n := CharLength(s[0]);
      NearBoundary(s[n..], i - n);
      var j: nat :| i - n - 3 <= j <= i - n && IsCharBoundary(s[n..], j);
      if s[n..] != [] && j == 0 { assert StartsWell(s[n..]) && s[n..][0] == s[n]; }
      assert IsCharBoundary(s, n + j);
    }
  }

  /** The longest prefix of valid text that is valid text and fits; at most three bytes are given up. */
  method Truncate(s: seq<Byte>, maxBytes: nat) returns (p: seq<Byte>)
    requires Valid(s)
    ensures p <= s && |p| <= maxBytes && Valid(p)
    ensures forall q :: q <= s && |q| <= maxBytes && Valid(q) ==> |q| <= |p|
    ensures |s| <= maxBytes ==> p == s
    ensures |s| > maxBytes ==> |p| >= maxBytes - 3
  {
    if |s| <= maxBytes { return s; }
    var end := maxBytes;
    NearBoundary(s, maxBytes);
    while !IsCharBoundary(s, end)
      invariant 0 <= end <= maxBytes
      invariant forall j :: end < j <= maxBytes ==> !IsCharBoundary(s, j)
      decreases end
    {
      end := end - 1;
    }
    p := s[..end];
    BoundaryExactly(s, end);
    forall q | q <= s && |q| <= maxBytes && Valid(q) ensures |q| <= end {
      assert q == s[..|q|];
      BoundaryExactly(s, |q|);
    }
  }
}
