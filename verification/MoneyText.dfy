/**
  The thousands-separator pass of normalize_money_text (app/domain/normalization.py).
  A substitution whose matches are decided on the text as it was, so the pass removes
  every matching position at once. Which characters are digits is Unicode's business
  and a parameter here; a space and a comma are not.
 */
module MoneyText {
  type Digits = d: char -> bool | !d(' ') && !d(',') witness _ => false

  predicate IsSeparator(c: char) {
    c == ' ' || c == ','
  }

  /** Exactly three digits come next. */
  predicate BeforeThree(d: Digits, s: string, i: nat) {
    && i + 3 < |s|
    && d(s[i + 1]) && d(s[i + 2]) && d(s[i + 3])
    && (i + 4 == |s| || !d(s[i + 4]))
  }

  /** A space or comma after a digit and before exactly three digits. */
  predicate Removable(d: Digits, s: string, i: nat) {
    0 < i < |s| && IsSeparator(s[i]) && d(s[i - 1]) && BeforeThree(d, s, i)
  }

  /** What is left of the first n characters. */
  function Left(d: Digits, s: string, n: nat): string
    requires n <= |s|
  {
    if n == 0 then ""
    else Left(d, s, n - 1) + (if Removable(d, s, n - 1) then "" else [s[n - 1]])
  }

  function Joined(d: Digits, s: string): string {
    Left(d, s, |s|)
  }

  /** The positions the pass keeps among the first n. */
  function Kept(d: Digits, s: string, n: nat): seq<nat>
    requires n <= |s|
  {
    if n == 0 then []
    else Kept(d, s, n - 1) + (if Removable(d, s, n - 1) then [] else [n - 1])
  }

  lemma {:induction false} AllOthersKept(d: Digits, s: string, n: nat, i: nat)
    requires i < n <= |s| && !Removable(d, s, i)
    ensures i in Kept(d, s, n)
  {
    if i == n - 1 {
      assert Kept(d, s, n)[|Kept(d, s, n)| - 1] == i;
    } else {
      AllOthersKept(d, s, n - 1, i);
    }
  }

  lemma {:induction false} KeptStays(d: Digits, s: string, n: nat)
    requires n <= |s|
    ensures |Left(d, s, n)| == |Kept(d, s, n)|
    ensures forall p :: 0 <= p < |Kept(d, s, n)| ==>
              && Kept(d, s, n)[p] < n && !Removable(d, s, Kept(d, s, n)[p])
              && Left(d, s, n)[p] == s[Kept(d, s, n)[p]]
  {
    if n > 0 {
      KeptStays(d, s, n - 1);
    }
  }

  lemma {:induction false} KeptInOrder(d: Digits, s: string, n: nat)
    requires n <= |s|
    ensures forall p, q :: 0 <= p < q < |Kept(d, s, n)| ==> Kept(d, s, n)[p] < Kept(d, s, n)[q]
  {
    if n > 0 {
      KeptInOrder(d, s, n - 1);
      KeptStays(d, s, n - 1);
      OneMore(Kept(d, s, n - 1), n - 1);
    }
  }

  lemma OneMore(k: seq<nat>, n: nat)
    requires forall p, q :: 0 <= p < q < |k| ==> k[p] < k[q]
    requires forall p :: 0 <= p < |k| ==> k[p] < n
    ensures forall p, q :: 0 <= p < q < |k + [n]| ==> (k + [n])[p] < (k + [n])[q]
  {
  }

  /** The kept characters are those of the kept positions, which are all but the
      removable ones, in order. */
  lemma LeftIsKept(d: Digits, s: string, n: nat)
    requires n <= |s|
    ensures |Left(d, s, n)| == |Kept(d, s, n)|
    ensures forall p :: 0 <= p < |Kept(d, s, n)| ==>
              && Kept(d, s, n)[p] < n && !Removable(d, s, Kept(d, s, n)[p])
              && Left(d, s, n)[p] == s[Kept(d, s, n)[p]]
    ensures forall p, q :: 0 <= p < q < |Kept(d, s, n)| ==> Kept(d, s, n)[p] < Kept(d, s, n)[q]
    ensures forall i :: 0 <= i < n && !Removable(d, s, i) ==> i in Kept(d, s, n)
  {
    KeptStays(d, s, n);
    KeptInOrder(d, s, n);
    forall i | 0 <= i < n && !Removable(d, s, i) ensures i in Kept(d, s, n) {
      AllOthersKept(d, s, n, i);
    }
  }

  /** What the pass removes, position by position: a space or comma behind a digit and
      before three digits and no fourth. */
  lemma {:induction false} RemovesExactly(d: Digits, s: string, i: nat)
    requires i < |s|
    ensures i !in Kept(d, s, |s|) <==>
              && (s[i] == ' ' || s[i] == ',') && 0 < i && i + 3 < |s|
              && d(s[i - 1]) && d(s[i + 1]) && d(s[i + 2]) && d(s[i + 3])
              && (i + 4 < |s| ==> !d(s[i + 4]))
  {
    if Removable(d, s, i) {
      KeptStays(d, s, |s|);
    } else {
      AllOthersKept(d, s, |s|, i);
    }
  }

  /** Only separators go: every other character stays, in its order. */
  function Others(s: string): string {
    if s == "" then ""
    else Others(s[..|s| - 1]) + (if s[|s| - 1] == ' ' || s[|s| - 1] == ',' then "" else [s[|s| - 1]])
  }

  lemma {:induction false} LeftKeepsOthers(d: Digits, s: string, n: nat)
    requires n <= |s|
    ensures Others(Left(d, s, n)) == Others(s[..n])
  {
    if n > 0 {
      LeftKeepsOthers(d, s, n - 1);
      assert s[..n][..n - 1] == s[..n - 1];
      if Removable(d, s, n - 1) {
        assert Left(d, s, n) == Left(d, s, n - 1);
      } else {
        assert Left(d, s, n)[..|Left(d, s, n)| - 1] == Left(d, s, n - 1);
      }
    }
  }

  lemma OnlySeparatorsGo(d: Digits, s: string)
    ensures Others(Joined(d, s)) == Others(s)
  {
    LeftKeepsOthers(d, s, |s|);
    assert s[..|s|] == s;
  }

  // ---- nothing new becomes removable --------------------------------------

  /** The kept position after the p-th is the next one, or the one behind a removed one. */
  lemma NextKept(d: Digits, s: string, p: nat)
    requires p + 1 < |Kept(d, s, |s|)|
    ensures var k := Kept(d, s, |s|);
            || k[p + 1] == k[p] + 1
            || (k[p + 1] == k[p] + 2 && Removable(d, s, k[p] + 1))
  {
    LeftIsKept(d, s, |s|);
    var k := Kept(d, s, |s|);
    forall i | k[p] < i < k[p + 1] ensures Removable(d, s, i) {
      NotBetween(k, p, i);
    }
    assert k[p] + 2 < k[p + 1] ==> Removable(d, s, k[p] + 1) && Removable(d, s, k[p] + 2);
  }

  lemma NotBetween(k: seq<nat>, p: nat, i: nat)
    requires forall a, b :: 0 <= a < b < |k| ==> k[a] < k[b]
    requires p + 1 < |k| && k[p] < i < k[p + 1]
    ensures i !in k
  {
    forall a | 0 <= a < |k| ensures k[a] != i {
      assert a < p ==> k[a] < k[p];
      assert a > p + 1 ==> k[p + 1] < k[a];
    }
  }

  /** The last character always stays. */
  lemma LastKept(d: Digits, s: string)
    requires s != ""
    ensures Kept(d, s, |s|) != [] && Kept(d, s, |s|)[|Kept(d, s, |s|)| - 1] == |s| - 1
  {
    assert !Removable(d, s, |s| - 1);
  }

  /** If the text after the pass had a removable separator, the separator would already
      have been removable where it came from. */
  lemma NothingNew(d: Digits, s: string, p: nat)
    ensures !Removable(d, Joined(d, s), p)
  {
    if Removable(d, Joined(d, s), p) {
      LeftIsKept(d, s, |s|);
      SeparatorStood(d, s, p);
      GroupStood(d, s, p);
      assert false;
    }
  }

  /** A separator between digits in the text after the pass stood between them before it. */
  lemma SeparatorStood(d: Digits, s: string, p: nat)
    requires 0 < p && p + 1 < |Joined(d, s)| == |Kept(d, s, |s|)| && IsSeparator(Joined(d, s)[p])
    ensures var k := Kept(d, s, |s|);
            && k[p] < |s| && s[k[p]] == Joined(d, s)[p] && !Removable(d, s, k[p])
            && k[p - 1] + 1 == k[p] && k[p + 1] == k[p] + 1
  {
    LeftIsKept(d, s, |s|);
    NextKept(d, s, p - 1);
    NextKept(d, s, p);
  }

  /** Three digits in the text after the pass stood together before it: behind a removed
      separator three digits follow, and the group would have been longer. */
  lemma DigitsAfter(d: Digits, s: string, p: nat)
    requires BeforeThree(d, Joined(d, s), p)
    requires p + 3 < |Kept(d, s, |s|)| && Kept(d, s, |s|)[p + 1] == Kept(d, s, |s|)[p] + 1
    ensures Kept(d, s, |s|)[p + 2] == Kept(d, s, |s|)[p] + 2 && Kept(d, s, |s|)[p + 3] == Kept(d, s, |s|)[p] + 3
  {
    LeftIsKept(d, s, |s|);
    var k := Kept(d, s, |s|);
    NextKept(d, s, p + 1);
    NextKept(d, s, p + 2);
    if k[p + 2] == k[p] + 3 {
      GroupFollows(d, s, p + 1);
    } else if k[p + 3] == k[p] + 4 {
      GroupFollows(d, s, p + 2);
    }
  }

  /** ... and nothing but the end or a character that is no digit follows them. */
  lemma GroupStood(d: Digits, s: string, p: nat)
    requires BeforeThree(d, Joined(d, s), p)
    requires p + 3 < |Joined(d, s)| == |Kept(d, s, |s|)| && Kept(d, s, |s|)[p + 1] == Kept(d, s, |s|)[p] + 1
    ensures BeforeThree(d, s, Kept(d, s, |s|)[p])
  {
    LeftIsKept(d, s, |s|);
    DigitsAfter(d, s, p);
    if p + 4 < |Kept(d, s, |s|)| {
      NextKept(d, s, p + 3);
    } else {
      LastKept(d, s);
    }
  }

  /** Behind a removed separator the next three kept positions are its digits. */
  lemma GroupFollows(d: Digits, s: string, p: nat)
    requires p < |Kept(d, s, |s|)| && Removable(d, s, Kept(d, s, |s|)[p] + 1)
    ensures p + 3 < |Kept(d, s, |s|)| == |Joined(d, s)|
    ensures d(Joined(d, s)[p + 1]) && d(Joined(d, s)[p + 2]) && d(Joined(d, s)[p + 3])
  {
    LeftIsKept(d, s, |s|);
    var k, i := Kept(d, s, |s|), Kept(d, s, |s|)[p] + 1;
    Successor(d, s, p, i + 1);
    Successor(d, s, p + 1, i + 2);
    Successor(d, s, p + 2, i + 3);
  }

  lemma Successor(d: Digits, s: string, p: nat, i: nat)
    requires p < |Kept(d, s, |s|)| && Kept(d, s, |s|)[p] < i < |s| && !Removable(d, s, i)
    requires forall j :: Kept(d, s, |s|)[p] < j < i ==> Removable(d, s, j)
    ensures p + 1 < |Kept(d, s, |s|)| && Kept(d, s, |s|)[p + 1] == i
  {
    LeftIsKept(d, s, |s|);
    var k := Kept(d, s, |s|);
    var q :| 0 <= q < |k| && k[q] == i;
    assert q > p;
    forall a | p < a < |k| ensures k[a] >= i {
      assert k[p] < k[a];
    }
    assert k[p + 1] <= k[q];
  }

  lemma {:induction false} NothingLeftToRemove(d: Digits, s: string, n: nat)
    requires n <= |s| && forall i :: 0 <= i < n ==> !Removable(d, s, i)
    ensures Left(d, s, n) == s[..n]
  {
    if n > 0 {
      NothingLeftToRemove(d, s, n - 1);
    }
  }

  /** One pass removes every thousands separator there will ever be: the pass is
      idempotent on every string. */
  lemma Idempotent(d: Digits, s: string)
    ensures Joined(d, Joined(d, s)) == Joined(d, s)
  {
    var t := Joined(d, s);
    forall p | 0 <= p < |t| ensures !Removable(d, t, p) {
      NothingNew(d, s, p);
    }
    NothingLeftToRemove(d, t, |t|);
  }

  /** And it changes a string exactly when the string has a thousands separator. */
  lemma ChangesIff(d: Digits, s: string)
    ensures Joined(d, s) == s <==> forall i :: 0 <= i < |s| ==> !Removable(d, s, i)
  {
    LeftIsKept(d, s, |s|);
    var k := Kept(d, s, |s|);
    if forall i :: 0 <= i < |s| ==> !Removable(d, s, i) {
      NothingLeftToRemove(d, s, |s|);
    } else {
      var i :| 0 <= i < |s| && Removable(d, s, i);
      Shorter(d, s, i, |s|);
    }
  }

  lemma {:induction false} Shorter(d: Digits, s: string, i: nat, n: nat)
    requires i < n <= |s| && Removable(d, s, i)
    ensures |Left(d, s, n)| < n
  {
    if n == i + 1 {
      LeftAtMost(d, s, i);
    } else {
      Shorter(d, s, i, n - 1);
    }
  }

  lemma {:induction false} LeftAtMost(d: Digits, s: string, n: nat)
    requires n <= |s|
    ensures |Left(d, s, n)| <= n
  {
    if n > 0 {
      LeftAtMost(d, s, n - 1);
    }
  }
}
