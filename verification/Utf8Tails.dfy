/**
  A diff that was cut at a byte budget loses at most the bytes of one character: what is kept is the longest part that
  is still UTF-8 as sections 3 and 4 of RFC 3629 define it.
*/
module Utf8Tails {
  import opened ByteLines

  // ---- UTF-8 ------------------------------------------------------------------------------------------------------

  predicate IsTail(b: Byte) {
    0x80 <= b <= 0xBF
  }

  /** The number of octets that a first octet announces; none for an octet that begins no character. */
  function Announced(b: Byte): nat {
    if b <= 0x7F then 1 else if 0xC2 <= b <= 0xDF then 2 else if 0xE0 <= b <= 0xEF then 3 else if 0xF0 <= b <= 0xF4 then 4 else 0
  }

  /** The second octet of the longer forms is restricted: no overlong form, no surrogate, nothing above U+10FFFF. */
  predicate SecondFits(first: Byte, second: Byte) {
    && IsTail(second)
    && (first == 0xE0 ==> second >= 0xA0) && (first == 0xED ==> second <= 0x9F)
    && (first == 0xF0 ==> second >= 0x90) && (first == 0xF4 ==> second <= 0x8F)
  }

  predicate IsChar(s: Bytes) {
    && s != [] && |s| == Announced(s[0])
    && (|s| > 1 ==> SecondFits(s[0], s[1]))
    && (|s| > 2 ==> IsTail(s[2]))
    && (|s| > 3 ==> IsTail(s[3]))
  }

  predicate WellFormed(s: Bytes)
    decreases |s|
  {
    s == [] ||
    (var n := Announced(s[0]); 0 < n <= |s| && IsChar(s[..n]) && WellFormed(s[n..]))
  }

  // ---- the trim ---------------------------------------------------------------------------------------------------

  /** How many continuation octets `s` ends with, up to four. */
  function TailRun(s: Bytes, most: nat): (n: nat)
    ensures n <= |s| && n <= most
    decreases most
  {
    if most == 0 || s == [] || !IsTail(s[|s| - 1]) then 0 else 1 + TailRun(s[..|s| - 1], most - 1)
  }

  /** What the mask of a leading octet says of the length. */
  function Expected(lead: Byte): nat {
    if 0xC0 <= lead <= 0xDF then 2 else if 0xE0 <= lead <= 0xEF then 3 else if 0xF0 <= lead <= 0xF7 then 4 else 1
  }

  function Trimmed(raw: Bytes): Bytes {
    var i := |raw| - TailRun(raw, 4);
    if i > 0 && raw[i - 1] >= 0x80 && |raw| - (i - 1) < Expected(raw[i - 1]) then raw[..i - 1] else raw
  }

  /** Drop the octets of a character that was cut. */
  method TrimIncompleteTail(raw: Bytes) returns (r: Bytes)
    ensures r == Trimmed(raw)
  {
    var n := |raw|;
    var i := n;
    assert raw[..n] == raw;
    while i > 0 && n - i < 4 && IsTail(raw[i - 1])
      invariant 0 <= i <= n && n - i <= 4
      invariant n - i + TailRun(raw[..i], 4 - (n - i)) == TailRun(raw, 4)
    {
      assert raw[..i][..i - 1] == raw[..i - 1];
      i := i - 1;
    }
    if i > 0 {
      var lead := raw[i - 1];
      if lead >= 0x80 {
        var expected :=
          if 0xC0 <= lead <= 0xDF then 2 else if 0xE0 <= lead <= 0xEF then 3 else if 0xF0 <= lead <= 0xF7 then 4 else 1;
        if n - (i - 1) < expected {
          return raw[..i - 1];
        }
      }
    }
    r := raw;
  }

  // ---- what is kept is the longest well-formed part ---------------------------------------------------------------------

  /** Behind a complete character the same is dropped as without it. */
  lemma {:induction false} RunBehind(c: Bytes, x: Bytes, most: nat)
    requires x != [] && !IsTail(x[0])
    ensures TailRun(c + x, most) == TailRun(x, most) && TailRun(x, most) < |x|
    decreases most
  {
    if most > 0 && IsTail(x[|x| - 1]) {
      assert (c + x)[..|c + x| - 1] == c + x[..|x| - 1];
      RunBehind(c, x[..|x| - 1], most - 1);
    }
  }

  lemma TrimBehind(c: Bytes, x: Bytes)
    requires x != [] && !IsTail(x[0])
    ensures Trimmed(c + x) == c + Trimmed(x)
  {
    RunBehind(c, x, 4);
    var i := |x| - TailRun(x, 4);
    assert (c + x)[|c| + i - 1] == x[i - 1];
    assert (c + x)[..|c| + i - 1] == c + x[..i - 1];
  }

  lemma {:induction false} RunOfTails(s: Bytes, most: nat)
    requires s != [] && !IsTail(s[0]) && |s| <= most + 1 && forall k :: 0 < k < |s| ==> IsTail(s[k])
    ensures TailRun(s, most) == |s| - 1
    decreases most
  {
    if |s| > 1 {
      RunOfTails(s[..|s| - 1], most - 1);
    }
  }

  lemma CharShape(c: Bytes)
    requires IsChar(c)
    ensures |c| <= 4 && !IsTail(c[0]) && Expected(c[0]) == |c| && forall k :: 0 < k < |c| ==> IsTail(c[k])
  {
  }

  /** Part of one character: all of it is kept, or none. */
  lemma TrimOfPart(c: Bytes, k: nat)
    requires IsChar(c) && 0 < k <= |c|
    ensures Trimmed(c[..k]) == if k == |c| then c else []
  {
    CharShape(c);
    RunOfTails(c[..k], 4);
    assert c[..k][..0] == [];
    assert k == |c| ==> c[..k] == c;
  }

  lemma WellFormedBehind(c: Bytes, y: Bytes)
    requires IsChar(c)
    ensures WellFormed(c + y) <==> WellFormed(y)
  {
    var n := Announced(c[0]);
    assert (c + y)[0] == c[0] && (c + y)[..n] == c && (c + y)[n..] == y;
  }

  lemma PartIsNotWellFormed(c: Bytes, n: nat)
    requires IsChar(c) && 0 < n < |c|
    ensures !WellFormed(c[..n])
  {
    assert c[..n][0] == c[0];
  }

  /** `r` is the longest part of `raw`, from its beginning, that is well formed. */
  ghost predicate LongestWellFormed(raw: Bytes, r: Bytes) {
    r <= raw && WellFormed(r) && forall n :: |r| < n <= |raw| ==> !WellFormed(raw[..n])
  }

  lemma LongestBehind(c: Bytes, x: Bytes, r: Bytes)
    requires IsChar(c) && LongestWellFormed(x, r)
    ensures LongestWellFormed(c + x, c + r)
  {
    WellFormedBehind(c, r);
    forall n | |c + r| < n <= |c + x|
      ensures !WellFormed((c + x)[..n])
    {
      assert (c + x)[..n] == c + x[..n - |c|];
      WellFormedBehind(c, x[..n - |c|]);
    }
  }

  lemma LongestOfPart(c: Bytes, k: nat)
    requires IsChar(c) && 0 < k <= |c|
    ensures LongestWellFormed(c[..k], if k == |c| then c else [])
  {
    if k == |c| {
      assert c[..k] == c && c + [] == c;
      WellFormedBehind(c, []);
    } else {
      forall n | 0 < n <= k
        ensures !WellFormed(c[..k][..n])
      {
        assert c[..k][..n] == c[..n];
        PartIsNotWellFormed(c, n);
      }
    }
  }

  lemma StartsNoTail(s: Bytes, k: nat)
    requires WellFormed(s) && 0 < k <= |s|
    ensures !IsTail(s[..k][0])
  {
  }

  /** However well-formed text is cut, the trim keeps its longest well-formed part, and drops at most three octets. */
  lemma {:induction false} TrimKeepsTheLongest(s: Bytes, k: nat)
    requires WellFormed(s) && k <= |s|
    ensures LongestWellFormed(s[..k], Trimmed(s[..k])) && k <= |Trimmed(s[..k])| + 3
    decreases |s|
  {
    if k == 0 {
      assert s[..0] == [];
    } else {
      var n := Announced(s[0]);
      var c, rest := s[..n], s[n..];
      CharShape(c);
      if k <= n {
        assert s[..k] == c[..k];
        TrimOfPart(c, k);
        LongestOfPart(c, k);
      } else {
        var x := rest[..k - n];
        assert s[..k] == c + x;
        TrimKeepsTheLongest(rest, k - n);
        StartsNoTail(rest, k - n);
        TrimBehind(c, x);
        LongestBehind(c, x, Trimmed(x));
      }
    }
  }

  // ---- any other octets -------------------------------------------------------------------------------------------

  /** From `i` on stand a leading octet and continuation octets, fewer than its mask announces. */
  predicate IncompleteAt(raw: Bytes, i: int) {
    && 0 <= i < |raw| && !IsTail(raw[i]) && |raw| - i < Expected(raw[i])
    && forall k :: i < k < |raw| ==> IsTail(raw[k])
  }

  lemma {:induction false} RunIsTails(s: Bytes, most: nat)
    ensures var n := TailRun(s, most);
            && (forall k :: |s| - n <= k < |s| ==> IsTail(s[k]))
            && (n < most && n < |s| ==> !IsTail(s[|s| - n - 1]))
    decreases most
  {
    if most > 0 && s != [] && IsTail(s[|s| - 1]) {
      var init := s[..|s| - 1];
      RunIsTails(init, most - 1);
      assert forall k :: 0 <= k < |init| ==> init[k] == s[k];
    }
  }

  lemma OneIncomplete(raw: Bytes, i: nat, j: nat)
    requires IncompleteAt(raw, i) && IncompleteAt(raw, j)
    ensures i == j
  {
  }

  lemma IncompleteIsFound(raw: Bytes, i: nat)
    requires IncompleteAt(raw, i)
    ensures TailRun(raw, 4) == |raw| - i - 1
  {
    RunIsTails(raw, 4);
    assert Expected(raw[i]) <= 4;
  }

  lemma FoundIsIncomplete(raw: Bytes)
    ensures var i := |raw| - TailRun(raw, 4);
            i > 0 && raw[i - 1] >= 0x80 && |raw| - (i - 1) < Expected(raw[i - 1]) ==> IncompleteAt(raw, i - 1)
  {
    RunIsTails(raw, 4);
  }

  /**
    Of any octets, whatever their encoding: what is dropped is exactly a leading octet at the end with fewer continuation
    octets than it announces, and where there is none everything is kept.
  */
  lemma TrimsExactly(raw: Bytes)
    ensures forall i :: IncompleteAt(raw, i) ==> Trimmed(raw) == raw[..i]
    ensures (forall i :: 0 <= i < |raw| ==> !IncompleteAt(raw, i)) ==> Trimmed(raw) == raw
  {
    FoundIsIncomplete(raw);
    forall i | IncompleteAt(raw, i)
      ensures Trimmed(raw) == raw[..i]
    {
      IncompleteIsFound(raw, i);
    }
  }
}
