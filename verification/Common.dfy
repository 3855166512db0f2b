/** What several modules need: options, 32-bit words, flags and distinct entries. */
module Common {

  datatype Option<+T> = None | Some(value: T)

  // 2^32: what an unsigned int counts modulo.
  const UINT_MOD: int := 0x1_0000_0000

  function One(b: bool): nat { if b then 1 else 0 }

  ghost predicate NoDup<T>(s: seq<T>) {
    forall i, j :: 0 <= i < j < |s| ==> s[i] != s[j]
  }

  // Taking one element out of a set.
  lemma SizeSplit(s: set<nat>, t: nat)
    ensures |s| == |s - {t}| + One(t in s)
  {
    if t !in s { assert s - {t} == s; }
  }
}
