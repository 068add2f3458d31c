/** associate_workers_with_ns in its default mode: namespaces and workers are paired round robin. */
module PerfAssoc {
  import opened Basics
  import opened Arith
  import opened Bits

  datatype Pair = Pair(ns: nat, worker: nat)

  /** The i-th pair joins the i-th namespace and the i-th worker, counting round. */
  ghost predicate RoundRobin(pairs: seq<Pair>, namespaces: nat, workers: nat)
    requires namespaces > 0 && workers > 0
  {
    forall i :: 0 <= i < |pairs| ==> pairs[i] == Pair(i % namespaces, i % workers)
  }

  /** Walks both lists in step, starting over at the end of each, until the longer one is used up. */
  method Associate(namespaces: nat, workers: nat) returns (pairs: seq<Pair>)
    requires workers > 0
    ensures namespaces == 0 ==> pairs == []
    ensures namespaces > 0 ==> |pairs| == Max(namespaces, workers) && RoundRobin(pairs, namespaces, workers)
  {
    pairs := [];
    var count := Max(namespaces, workers);
    var entry, worker := 0, 0;
    if namespaces > 0 {
      SmallMod(0, namespaces);
      SmallMod(0, workers);
    }
    for i := 0 to count
      invariant namespaces == 0 ==> pairs == []
      invariant namespaces > 0 ==> |pairs| == i && entry == i % namespaces && worker == i % workers
      invariant namespaces > 0 ==> forall k :: 0 <= k < i ==> pairs[k] == Pair(k % namespaces, k % workers)
    {
      if namespaces == 0 {
        break;
      }
      pairs := pairs + [Pair(entry, worker)];
      NextMod(i, namespaces);
      NextMod(i, workers);
      worker := if worker + 1 == workers then 0 else worker + 1;
      entry := if entry + 1 == namespaces then 0 else entry + 1;
    }
  }

  lemma NextMod(i: nat, n: nat)
    requires n > 0
    ensures (i + 1) % n == if i % n + 1 == n then 0 else i % n + 1
    ensures (i + 1) / n == if i % n + 1 == n then i / n + 1 else i / n
  {
    var q, r := i / n, i % n;
    assert i == q * n + r;
    if r + 1 == n {
      assert i + 1 == (q + 1) * n + 0;
      DivModUnique(i + 1, n, q + 1, 0);
    } else {
      DivModUnique(i + 1, n, q, r + 1);
    }
  }

  /** How many of the first `count` turns fall to number `r` of `n`. */
  function Load(count: nat, n: nat, r: nat): nat
    requires n > 0
  {
    if count == 0 then 0 else Load(count - 1, n, r) + (if (count - 1) % n == r then 1 else 0)
  }

  lemma {:induction false} LoadExact(count: nat, n: nat, r: nat)
    requires r < n
    ensures Load(count, n, r) == count / n + (if r < count % n then 1 else 0)
  {
    if count == 0 {
      SmallMod(0, n);
    } else {
      LoadExact(count - 1, n, r);
      NextMod(count - 1, n);
    }
  }

  /** The number of pairs of worker `w`, and of namespace `ns`. */
  function WorkerLoad(pairs: seq<Pair>, w: nat): nat {
    if pairs == [] then 0
    else WorkerLoad(pairs[..|pairs| - 1], w) + (if pairs[|pairs| - 1].worker == w then 1 else 0)
  }

  function NsLoad(pairs: seq<Pair>, ns: nat): nat {
    if pairs == [] then 0
    else NsLoad(pairs[..|pairs| - 1], ns) + (if pairs[|pairs| - 1].ns == ns then 1 else 0)
  }

  lemma {:induction false} LoadsOfPairs(pairs: seq<Pair>, namespaces: nat, workers: nat, ns: nat, w: nat)
    requires namespaces > 0 && workers > 0 && RoundRobin(pairs, namespaces, workers)
    ensures NsLoad(pairs, ns) == Load(|pairs|, namespaces, ns)
    ensures WorkerLoad(pairs, w) == Load(|pairs|, workers, w)
    decreases |pairs|
  {
    if pairs != [] {
      LoadsOfPairs(pairs[..|pairs| - 1], namespaces, workers, ns, w);
    }
  }

  /** The loads of two workers, and of two namespaces, differ by at most one. */
  lemma LoadsAreFair(pairs: seq<Pair>, namespaces: nat, workers: nat, ns: nat, ns': nat, w: nat, w': nat)
    requires ns < namespaces && ns' < namespaces && w < workers && w' < workers
    requires RoundRobin(pairs, namespaces, workers)
    ensures -1 <= NsLoad(pairs, ns) - NsLoad(pairs, ns') <= 1
    ensures -1 <= WorkerLoad(pairs, w) - WorkerLoad(pairs, w') <= 1
  {
    hide Load, NsLoad, WorkerLoad, RoundRobin;
    LoadsOfPairs(pairs, namespaces, workers, ns, w);
    LoadsOfPairs(pairs, namespaces, workers, ns', w');
    LoadExact(|pairs|, namespaces, ns);
    LoadExact(|pairs|, namespaces, ns');
    LoadExact(|pairs|, workers, w);
    LoadExact(|pairs|, workers, w');
  }

  lemma QuotientPositive(count: nat, n: nat)
    requires 0 < n <= count
    ensures count / n >= 1
  {
    var q := count / n;
    assert count == q * n + count % n;
    assert (q + 1) * n == q * n + n;
    MulCancelLess(1, q + 1, n);
  }

  /** Nobody is left out: every namespace and every worker has a pair. */
  lemma EveryoneServed(pairs: seq<Pair>, namespaces: nat, workers: nat, ns: nat, w: nat)
    requires ns < namespaces && w < workers
    requires |pairs| == Max(namespaces, workers) && RoundRobin(pairs, namespaces, workers)
    ensures NsLoad(pairs, ns) >= 1 && exists i :: 0 <= i < |pairs| && pairs[i].ns == ns
    ensures WorkerLoad(pairs, w) >= 1 && exists i :: 0 <= i < |pairs| && pairs[i].worker == w
  {
    hide Load, NsLoad, WorkerLoad;
    LoadsOfPairs(pairs, namespaces, workers, ns, w);
    LoadExact(|pairs|, namespaces, ns);
    LoadExact(|pairs|, workers, w);
    QuotientPositive(|pairs|, namespaces);
    QuotientPositive(|pairs|, workers);
    SmallMod(ns, namespaces);
    SmallMod(w, workers);
    assert pairs[ns].ns == ns && pairs[w].worker == w;
  }

  /** No pair is made twice. */
  lemma NoPairTwice(pairs: seq<Pair>, namespaces: nat, workers: nat)
    requires namespaces > 0 && workers > 0
    requires |pairs| == Max(namespaces, workers) && RoundRobin(pairs, namespaces, workers)
    ensures Distinct(pairs)
  {
    forall i, j | 0 <= i < j < |pairs| ensures pairs[i] != pairs[j] {
      if namespaces > workers {
        SmallMod(i, namespaces);
        SmallMod(j, namespaces);
      } else {
        SmallMod(i, workers);
        SmallMod(j, workers);
      }
    }
  }
}
