/**
  Names and keys as callers give them: the repositories strip them and refuse blank or
  over-long ones.
 */
module Names {
  /** The characters `str.strip()` removes. */
  predicate IsSpace(c: char) {
    || '\t' <= c <= '\r' || '\U{1c}' <= c <= ' ' || c == '\U{85}' || c == '\U{a0}' || c == '\U{1680}'
    || '\U{2000}' <= c <= '\U{200a}' || c == '\U{2028}' || c == '\U{2029}' || c == '\U{202f}'
    || c == '\U{205f}' || c == '\U{3000}'
  }

  function StripLeft(s: string): (r: string)
    ensures r == "" || !IsSpace(r[0])
  {
    if s != "" && IsSpace(s[0]) then StripLeft(s[1..]) else s
  }

  function StripRight(s: string): (r: string)
    ensures r == "" || !IsSpace(r[|r| - 1])
    ensures r <= s
  {
    if s != "" && IsSpace(s[|s| - 1]) then StripRight(s[..|s| - 1]) else s
  }

  function Strip(s: string): string {
    StripRight(StripLeft(s))
  }

  lemma {:induction false} StrippedLeft(s: string) returns (i: nat)
    ensures i <= |s| && StripLeft(s) == s[i..] && forall k :: 0 <= k < i ==> IsSpace(s[k])
  {
    if s != "" && IsSpace(s[0]) {
      i := StrippedLeft(s[1..]);
      i := i + 1;
      assert forall k :: 0 < k < i ==> s[k] == s[1..][k - 1];
    } else {
      i := 0;
    }
  }

  lemma {:induction false} StrippedRight(s: string) returns (j: nat)
    ensures j <= |s| && StripRight(s) == s[..j] && forall k :: j <= k < |s| ==> IsSpace(s[k])
  {
    j := |s|;
    if s != "" && IsSpace(s[|s| - 1]) {
      j := StrippedRight(s[..|s| - 1]);
      assert forall k :: j <= k < |s| - 1 ==> s[k] == s[..|s| - 1][k];
    }
  }

  /** Stripping takes the spaces at both ends and nothing else. */
  lemma {:induction false} StripTakesSpaces(s: string) returns (i: nat, j: nat)
    ensures i <= j <= |s| && Strip(s) == s[i..j]
    ensures forall k :: 0 <= k < |s| && !(i <= k < j) ==> IsSpace(s[k])
    ensures i < j ==> !IsSpace(s[i]) && !IsSpace(s[j - 1])
  {
    i := StrippedLeft(s);
    j := StrippedRight(s[i..]);
    j := i + j;
    assert forall k :: i <= k < |s| ==> s[k] == s[i..][k - i];
  }

  /** An owner, worker, requester or reviewer name must be 1 to 200 long when stripped. */
  predicate NameAccepted(name: string) {
    1 <= |Strip(name)| <= 200
  }

  ghost predicate BlankOutside(name: string, i: int, j: int) {
    0 <= i <= j <= |name| && forall k :: 0 <= k < |name| && !(i <= k < j) ==> IsSpace(name[k])
  }

  /** Accepted: not all blank, and at most 200 characters between the blanks at its ends. */
  lemma {:induction false} NameAcceptedIff(name: string)
    ensures NameAccepted(name) <==>
            && (exists k :: 0 <= k < |name| && !IsSpace(name[k]))
            && (exists i, j :: j - i <= 200 && BlankOutside(name, i, j))
  {
    var i, j := StripTakesSpaces(name);
    assert BlankOutside(name, i, j);
    if i < j {
      assert !IsSpace(name[i]) && !IsSpace(name[j - 1]);
      forall a, b | BlankOutside(name, a, b) ensures a <= i && j <= b {
      }
    } else {
      assert forall k :: 0 <= k < |name| ==> IsSpace(name[k]);
    }
  }
}
