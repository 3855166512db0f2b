/**
 The names already allocated (filesetup.c) behind a Bloom filter (lib/bloom.c):
 five hash functions pick bits of a table of 32-bit words, and only if all five
 are set is the list of names searched.
 */
module Bloom {
  import opened Bits
  import opened Common
  import opened IoUQueue

  const N_HASHES := 5
  const BITS_PER_INDEX := 32

  predicate TestBit(w: nat, i: nat) { And(w, Pow2(i)) != 0 }

  lemma AndPower(x: nat, j: nat)
    ensures TestBit(x, j) <==> if j == 0 then x % 2 == 1 else TestBit(x / 2, j - 1)
  {
    if j == 0 {
      assert Pow2(0) == 1 && And(x / 2, 0) == 0;
    } else {
      assert Pow2(j) / 2 == Pow2(j - 1) && Pow2(j) % 2 == 0;
    }
  }

  lemma OrPower(w: nat, i: nat)
    ensures Or(w, Pow2(i)) % 2 == 1 <==> i == 0 || w % 2 == 1
    ensures Or(w, Pow2(i)) / 2 == if i == 0 then w / 2 else Or(w / 2, Pow2(i - 1))
  {
    assert Pow2(0) == 1;
    assert Or(w / 2, 0) == w / 2;
  }

  /** Setting bit i sets that bit and no other. */
  lemma {:induction false} SetBit(w: nat, i: nat, j: nat)
    ensures TestBit(Or(w, Pow2(i)), j) <==> i == j || TestBit(w, j)
  {
    AndPower(w, j);
    AndPower(Or(w, Pow2(i)), j);
    OrPower(w, i);
    if i != 0 && j != 0 {
      SetBit(w / 2, i - 1, j - 1);
    }
  }

  lemma PowerFits(i: nat)
    requires i < BITS_PER_INDEX
    ensures Pow2(i) < UINT_MOD == Pow2(BITS_PER_INDEX)
  {
    Pow2Mono(i, BITS_PER_INDEX);
    WordPowers();
  }

  lemma SameSlot(g: nat, h: nat)
    requires g / BITS_PER_INDEX == h / BITS_PER_INDEX && g % BITS_PER_INDEX == h % BITS_PER_INDEX
    ensures g == h
  {
  }

  class Filter {
    const nentries: nat
    const words: array<nat>
    const fns: seq<string -> nat>     // the five hash functions, seeds applied

    ghost predicate Valid()
      reads words
    {
      && |fns| == N_HASHES
      && nentries <= BITS_PER_INDEX * words.Length
      && forall i :: 0 <= i < words.Length ==> words[i] < UINT_MOD
    }

    predicate IsSet(h: nat)
      requires Valid() && h < nentries
      reads words
    {
      TestBit(words[h / BITS_PER_INDEX], h % BITS_PER_INDEX)
    }

    // The positions that are set.
    ghost function Positions(): set<nat>
      requires Valid()
      reads words
    {
      set h | 0 <= h < nentries && IsSet(h)
    }

    /** bloom_new */
    constructor (entries: nat, fns: seq<string -> nat>)
      requires |fns| == N_HASHES
      ensures Valid() && nentries == entries && this.fns == fns && Positions() == {} && fresh(words)
    {
      nentries := entries;
      this.fns := fns;
      words := new nat[(entries + BITS_PER_INDEX - 1) / BITS_PER_INDEX](_ => 0);
    }

    // b->map[index] |= 1U << bit
    method SetPosition(h: nat)
      requires Valid() && h < nentries
      modifies words
      ensures Valid() && Positions() == old(Positions()) + {h}
    {
      var index, bit := h / BITS_PER_INDEX, h % BITS_PER_INDEX;
      PowerFits(bit);
      OrBelow(words[index], Pow2(bit), BITS_PER_INDEX);
      words[index] := Or(words[index], Pow2(bit));
      forall g: nat | g < nentries
        ensures IsSet(g) <==> g == h || old(IsSet(g))
      {
        if g / BITS_PER_INDEX == index {
          SetBit(old(words[index]), bit, g % BITS_PER_INDEX);
          if g % BITS_PER_INDEX == bit {
            SameSlot(g, h);
          }
        }
      }
    }

    // The positions a name hashes to.
    function Slots(name: string): (r: seq<nat>)
      requires |fns| == N_HASHES && nentries > 0
      ensures |r| == N_HASHES && (forall h :: h in r ==> h < nentries)
      ensures forall i :: 0 <= i < N_HASHES ==> r[i] == fns[i](name) % nentries
    {
      seq(N_HASHES, i requires 0 <= i < N_HASHES => fns[i](name) % nentries)
    }

    /** __bloom_check: says whether all five bits were set beforehand, and with
        `mark` leaves them set. */
    method Check(name: string, mark: bool) returns (r: bool)
      requires Valid() && nentries > 0
      modifies words
      ensures Valid()
      ensures r <==> forall h :: h in Slots(name) ==> h in old(Positions())
      ensures Positions() == if mark then old(Positions()) + Elements(Slots(name)) else old(Positions())
    {
      var hash := Slots(name);
      var wasSet, i := 0, 0;
      while i < N_HASHES
        invariant 0 <= wasSet <= i <= N_HASHES && Valid()
        invariant wasSet == i <==> forall h :: h in hash[..i] ==> h in old(Positions())
        invariant !mark ==> wasSet == i
        invariant Positions() == if mark then old(Positions()) + Elements(hash[..i]) else old(Positions())
      {
        Grows(hash, i);
        assert hash[i] in hash;
        assert hash[i] in Positions() <==> IsSet(hash[i]);
        if IsSet(hash[i]) {
          wasSet := wasSet + 1;
        } else if mark {
          SetPosition(hash[i]);
        } else {
          break;
        }
        i := i + 1;
      }
      assert i == N_HASHES ==> hash[..i] == hash;
      r := wasSet == N_HASHES;
    }
  }

  ghost function Elements(s: seq<nat>): set<nat> { set h | h in s }

  lemma Grows(s: seq<nat>, i: nat)
    requires i < |s|
    ensures Elements(s[..i + 1]) == Elements(s[..i]) + {s[i]} && s[..i + 1] == s[..i] + [s[i]]
  {
  }

  /** filename_list and the filter in front of it. */
  class AllocatedNames {
    var names: seq<string>
    const filter: Filter

    // The filter knows every name on the list; the list has no name twice.
    ghost predicate Valid()
      reads this, filter.words
    {
      && filter.Valid() && filter.nentries > 0
      && (forall n :: n in names ==> forall h :: h in filter.Slots(n) ==> h in filter.Positions())
      && (forall i, j :: 0 <= i < j < |names| ==> names[i] != names[j])
    }

    constructor (filter: Filter)
      requires filter.Valid() && filter.nentries > 0
      ensures Valid() && names == [] && this.filter == filter
    {
      names := [];
      this.filter := filter;
    }

    // __is_already_allocated
    method Exists(name: string, mark: bool) returns (r: bool)
      requires Valid()
      modifies filter.words
      ensures Valid() && (r <==> name in names)
      ensures mark ==> forall h :: h in filter.Slots(name) ==> h in filter.Positions()
      ensures !mark ==> filter.Positions() == old(filter.Positions())
    {
      r := filter.Check(name, mark);
      if !r {
        return;
      }
      var i := 0;
      while i < |names|
        invariant 0 <= i <= |names| && name !in names[..i]
      {
        if names[i] == name {
          return true;
        }
        i := i + 1;
      }
      r := false;
    }

    /** is_already_allocated: the filter never changes the answer. */
    method IsAllocated(name: string) returns (r: bool)
      requires Valid()
      modifies filter.words
      ensures Valid() && (r <==> name in names)
      ensures filter.Positions() == old(filter.Positions())
    {
      r := Exists(name, false);
    }

    /** set_already_allocated */
    method SetAllocated(name: string)
      requires Valid()
      modifies this`names, filter.words
      ensures Valid()
      ensures names == if name in old(names) then old(names) else old(names) + [name]
    {
      var known := Exists(name, true);
      if !known {
        names := names + [name];
      }
    }
  }
}
