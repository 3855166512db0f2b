/**
 The table of open files by name (filehash.c): 512 buckets of files, a flag on
 each file that says it is in the table, and no two files of one name.
 */
module FileHash {
  import opened Bits
  import opened Common

  const HASH_BUCKETS := 512
  const HASH_MASK := HASH_BUCKETS - 1

  // Unlinking one file from its bucket.
  function Without(s: seq<nat>, f: nat): (r: seq<nat>)
    ensures forall g :: g in r <==> g in s && g != f
  {
    if s == [] then [] else if s[0] == f then Without(s[1..], f) else [s[0]] + Without(s[1..], f)
  }

  lemma MaskIsBucket(x: nat)
    ensures And(x, HASH_MASK) == x % HASH_BUCKETS
  {
    assert Pow2(4) == 16 && Pow2(5) == 32;
    Pow2Add(4, 5);
    AndMask(x, 9);
  }

  class FileTable {
    const jhash: string -> nat
    const names: nat -> string      // file_name of each file
    var buckets: seq<seq<nat>>
    var hashed: set<nat>            // files flagged as hashed

    function Bucket(name: string): (b: nat)
      ensures b == jhash(name) % HASH_BUCKETS
    {
      MaskIsBucket(jhash(name));
      And(jhash(name), HASH_MASK)
    }

    // The flag tells who is in the table; each file is in its name's bucket;
    // a name has one file.
    ghost predicate Valid()
      reads this
    {
      && |buckets| == HASH_BUCKETS
      && (forall f :: f in hashed ==> f in buckets[Bucket(names(f))])
      && (forall b, f :: 0 <= b < HASH_BUCKETS && f in buckets[b] ==> f in hashed && Bucket(names(f)) == b)
      && (forall f, g :: f in hashed && g in hashed && names(f) == names(g) ==> f == g)
    }

    /** file_hash_init */
    constructor (jhash: string -> nat, names: nat -> string)
      ensures Valid() && hashed == {} && this.names == names
    {
      this.jhash, this.names := jhash, names;
      buckets := seq(HASH_BUCKETS, _ => []);
      hashed := {};
    }

    /** __lookup_file_hash: only one bucket is searched, yet a file is found if
        and only if some hashed file bears the name, and it is the only one. */
    method Lookup(name: string) returns (r: Option<nat>)
      requires Valid()
      ensures r.Some? ==> r.value in hashed && names(r.value) == name
      ensures forall f :: f in hashed && names(f) == name ==> r == Some(f)
    {
      var bucket := buckets[Bucket(name)];
      var i := 0;
      while i < |bucket|
        invariant 0 <= i <= |bucket| && forall f :: f in bucket[..i] ==> names(f) != name
      {
        if names(bucket[i]) == name {
          return Some(bucket[i]);
        }
        i := i + 1;
      }
      assert bucket[..i] == bucket;
      r := None;
    }

    /** add_file_hash: a file already in the table is left alone and reported as
        no alias; otherwise the file joins unless its name is taken. */
    method Add(f: nat) returns (alias: Option<nat>)
      requires Valid()
      modifies this`buckets, this`hashed
      ensures Valid()
      ensures alias.Some? ==> alias.value in hashed && alias.value != f && names(alias.value) == names(f)
      ensures alias.None? ==> f in hashed
      ensures hashed == if alias.Some? then old(hashed) else old(hashed) + {f}
    {
      if f in hashed {
        return None;
      }
      alias := Lookup(names(f));
      if alias.None? {
        var b := Bucket(names(f));
        hashed := hashed + {f};
        buckets := buckets[b := buckets[b] + [f]];
      }
    }

    /** remove_file_hash */
    method Remove(f: nat)
      requires Valid()
      modifies this`buckets, this`hashed
      ensures Valid() && hashed == old(hashed) - {f}
    {
      if f in hashed {
        var b := Bucket(names(f));
        assert buckets[b] != [];
        buckets := buckets[b := Without(buckets[b], f)];
        hashed := hashed - {f};
      }
    }
  }
}
