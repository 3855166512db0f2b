/** Sums of sequences of naturals, and how one update changes them. */
module Sums {

  function Sum(s: seq<nat>): nat {
    if s == [] then 0 else s[0] + Sum(s[1..])
  }

  lemma {:induction false} SumUpdate(s: seq<nat>, i: nat, x: nat)
    requires i < |s|
    ensures Sum(s[i := x]) == Sum(s) - s[i] + x
  {
    if i == 0 {
      assert s[i := x][1..] == s[1..];
    } else {
      assert s[i := x][1..] == s[1..][i - 1 := x];
      SumUpdate(s[1..], i - 1, x);
    }
  }

  lemma {:induction false} SumZero(s: seq<nat>)
    ensures Sum(s) == 0 <==> forall i :: 0 <= i < |s| ==> s[i] == 0
    ensures forall i :: 0 <= i < |s| ==> s[i] <= Sum(s)
  {
    if s != [] {
      SumZero(s[1..]);
      assert forall i :: 1 <= i < |s| ==> s[i] == s[1..][i - 1];
    }
  }

  lemma {:induction false} SumMono(x: seq<nat>, y: seq<nat>)
    requires |x| == |y| && forall i :: 0 <= i < |x| ==> x[i] <= y[i]
    ensures Sum(x) <= Sum(y)
  {
    if x != [] {
      assert forall i :: 0 <= i < |x| - 1 ==> x[1..][i] == x[i + 1] && y[1..][i] == y[i + 1];
      SumMono(x[1..], y[1..]);
    }
  }

  // Entry by entry below means below in all, and equal in all only if equal
  // entry by entry.
  lemma SumBelow(x: seq<nat>, y: seq<nat>)
    requires |x| == |y| && forall i :: 0 <= i < |x| ==> x[i] <= y[i]
    ensures Sum(x) <= Sum(y) && (Sum(x) == Sum(y) <==> x == y)
  {
    SumMono(x, y);
    if x != y {
      var i :| 0 <= i < |x| && x[i] != y[i];
      SumMono(x, y[i := x[i]]);
      SumUpdate(y, i, x[i]);
    }
  }

  lemma {:induction false} SumOfFlags(x: seq<nat>)
    requires forall i :: 0 <= i < |x| ==> x[i] <= 1
    ensures Sum(x) <= |x|
  {
    if x != [] {
      assert forall i :: 0 <= i < |x| - 1 ==> x[1..][i] == x[i + 1];
      SumOfFlags(x[1..]);
    }
  }

  lemma {:induction false} SumAppend(x: seq<nat>, a: nat)
    ensures Sum(x + [a]) == Sum(x) + a
  {
    if x == [] {
      assert [a][1..] == [];
    } else {
      assert (x + [a])[1..] == x[1..] + [a];
      SumAppend(x[1..], a);
    }
  }
}
