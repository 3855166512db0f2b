/**
 The dedupe working set (dedupe.c): the random states from which a job
 regenerates the pages it wants to repeat.  With global dedupe the state is
 taken over from the next job every `pagesPerSeed` pages, so that jobs share
 pages.
 */
module Dedupe {
  import opened Bits

  function Max(a: nat, b: nat): nat { if a < b then b else a }

  // __get_next_seed applied n times.
  function Iterate<S>(next: S -> S, s: S, n: nat): S {
    if n == 0 then s else next(Iterate(next, s, n - 1))
  }

  lemma {:induction false} IterateAdd<S>(next: S -> S, s: S, m: nat, n: nat)
    ensures Iterate(next, s, m + n) == Iterate(next, Iterate(next, s, m), n)
  {
    if n != 0 {
      IterateAdd(next, s, m, n - 1);
      assert m + n - 1 == m + (n - 1);
    }
  }

  function PagesPerSeed(pages: nat, jobs: nat): (p: nat)
    requires jobs > 0
    ensures p > 0
  {
    Max(pages / jobs, 1)
  }

  /** The state of page i of job `own`, in closed form. */
  function Page<S>(next: S -> S, seeds: seq<S>, own: nat, i: nat, p: nat, adv: nat, global: bool): S
    requires own < |seeds| && p > 0
  {
    if global then Iterate(next, seeds[(own + i / p) % |seeds|], (i % p) * adv)
    else Iterate(next, seeds[own], i * adv)
  }

  lemma NextPage(i: nat, p: nat)
    requires p > 0
    ensures if (i + 1) % p == 0 then (i + 1) / p == i / p + 1 else (i + 1) / p == i / p && (i + 1) % p == i % p + 1
  {
    var q, r := i / p, i % p;
    if r + 1 == p {
      DivUnique(i + 1, p, q + 1, 0);
    } else {
      DivUnique(i + 1, p, q, r + 1);
    }
  }

  lemma Product(n: nat, a: nat)
    ensures (n + 1) * a == n * a + a && 0 <= n * a
  {
  }

  lemma PageStep<S>(next: S -> S, seeds: seq<S>, own: nat, i: nat, p: nat, adv: nat, global: bool)
    requires own < |seeds| && p > 0
    ensures Page(next, seeds, own, i + 1, p, adv, global) ==
            if global && (i + 1) % p == 0 then seeds[(own + i / p + 1) % |seeds|]
            else Iterate(next, Page(next, seeds, own, i, p, adv, global), adv)
  {
    NextPage(i, p);
    var n := if global then i % p else i;
    Product(n, adv);
    IterateAdd(next, seeds[if global then (own + i / p) % |seeds| else own], n * adv, adv);
  }

  // num_seed_advancements steps of the generator.
  method Advance<S>(next: S -> S, s: S, adv: nat) returns (t: S)
    ensures t == Iterate(next, s, adv)
  {
    t := s;
    var j := 0;
    while j < adv
      invariant 0 <= j <= adv && t == Iterate(next, s, j)
    {
      t := next(t);
      j := j + 1;
    }
  }

  /** init_dedupe_working_set_seeds for a working set of at least one page. */
  method InitSeeds<S(0)>(next: S -> S, seeds: seq<S>, own: nat, pages: nat, adv: nat, global: bool)
    returns (states: array<S>)
    requires own < |seeds| && pages > 0
    ensures states.Length == pages && fresh(states)
    ensures forall i :: 0 <= i < pages ==>
      states[i] == Page(next, seeds, own, i, PagesPerSeed(pages, |seeds|), adv, global)
  {
    states := new S[pages];
    var state, tindex := seeds[own], own;
    states[0] := state;
    var p := PagesPerSeed(pages, |seeds|);
    FirstPage(next, seeds, own, p, adv, global);
    var i := 1;
    while i < pages
      invariant 1 <= i <= pages && state == Page(next, seeds, own, i - 1, p, adv, global)
      invariant global ==> tindex == own + (i - 1) / p
      invariant forall k :: 0 <= k < i ==> states[k] == Page(next, seeds, own, k, p, adv, global)
    {
      PageStep(next, seeds, own, i - 1, p, adv, global);
      NextPage(i - 1, p);
      state := Advance(next, state, adv);
      if global && i % p == 0 {
        tindex := tindex + 1;
        state := seeds[tindex % |seeds|];
      }
      states[i] := state;
      i := i + 1;
    }
  }

  lemma FirstPage<S>(next: S -> S, seeds: seq<S>, own: nat, p: nat, adv: nat, global: bool)
    requires own < |seeds| && p > 0
    ensures Page(next, seeds, own, 0, p, adv, global) == seeds[own] && own + 0 / p == own
  {
    DivUnique(0, p, 0, 0);
    DivUnique(own, |seeds|, 0, own);
  }

  // How many jobs ahead of job a job b is, going round.
  function Ahead(a: nat, b: nat, jobs: nat): nat
    requires a < jobs && b < jobs
  {
    if a <= b then b - a else b + jobs - a
  }

  lemma BlockIndex(k: nat, r: nat, p: nat)
    requires r < p
    ensures (k * p + r) / p == k && (k * p + r) % p == r
  {
    DivUnique(k * p + r, p, k, r);
  }

  lemma Rounds(a: nat, b: nat, jobs: nat)
    requires a < jobs && b < jobs
    ensures (a + Ahead(a, b, jobs)) % jobs == b
  {
    if a <= b {
      DivUnique(b, jobs, 0, b);
    } else {
      DivUnique(b + jobs, jobs, 1, b);
    }
  }

  lemma BlockFits(k: nat, r: nat, pages: nat, jobs: nat)
    requires k < jobs <= pages && r < pages / jobs
    ensures k * (pages / jobs) + r < pages && PagesPerSeed(pages, jobs) == pages / jobs
  {
    var p := pages / jobs;
    MulLe(p, k + 1, jobs);
    assert jobs * p <= pages;
    Product(k, p);
  }

  /** Global dedupe makes jobs share: when there are at least as many pages as
      jobs, the working set of job a holds the whole first block of every job b,
      each page at the place the rotation puts it. */
  lemma BlocksAreShared<S>(next: S -> S, seeds: seq<S>, a: nat, b: nat, r: nat, pages: nat, adv: nat)
    requires a < |seeds| <= pages && b < |seeds|
    requires r < PagesPerSeed(pages, |seeds|)
    ensures var p := PagesPerSeed(pages, |seeds|);
            var i := Ahead(a, b, |seeds|) * p + r;
            && i < pages && r < pages
            && Page(next, seeds, a, i, p, adv, true) == Page(next, seeds, b, r, p, adv, true)
            && Page(next, seeds, b, r, p, adv, true) == Page(next, seeds, b, r, p, adv, false)
  {
    var jobs, p := |seeds|, PagesPerSeed(pages, |seeds|);
    var k := Ahead(a, b, jobs);
    assert p == pages / jobs by { DivUnique(pages, jobs, pages / jobs, pages % jobs); }
    BlockFits(k, r, pages, jobs);
    BlockIndex(k, r, p);
    BlockIndex(0, r, p);
    Rounds(a, b, jobs);
    DivUnique(b, jobs, 0, b);
  }
}
