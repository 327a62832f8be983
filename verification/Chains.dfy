/** Following the tracers of processes, and when that ends. */
module Chains {
  import opened CgroupTypes
  import opened Spread

  /** The process `n` tracers up from `q`, if any. */
  function Chain(tracers: Tracers, q: Process?, n: nat): Process? {
    if n == 0 then q
    else if q == null || q !in tracers then null
    else Chain(tracers, tracers[q], n - 1)
  }

  /** `q` traces itself, directly or through others. */
  ghost predicate OnCycle(tracers: Tracers, q: Process) {
    exists n: nat :: n > 0 && Chain(tracers, q, n) == q
  }

  ghost predicate NoTraceCycle(tracers: Tracers) {
    forall q :: q in tracers ==> !OnCycle(tracers, q)
  }

  /** No process further up from `q` is on a cycle, nor is `q`. */
  ghost predicate NoCycleAbove(tracers: Tracers, q: Process) {
    forall m: nat, r :: r in tracers && Chain(tracers, q, m) == r ==> !OnCycle(tracers, r)
  }

  /** Following the tracers of `q` ends. */
  ghost predicate Ends(tracers: Tracers, q: Process) {
    exists n: nat :: Chain(tracers, q, n) == null
  }

  ghost predicate ClosedTracers(tracers: Tracers) {
    forall q :: q in tracers && tracers[q] != null ==> tracers[q] in tracers
  }

  /** The processes further up the tracer chain of `q`. */
  ghost function Above(tracers: Tracers, q: Process): set<Process> {
    set r | r in tracers && exists n: nat :: n > 0 && Chain(tracers, q, n) == r
  }

  lemma {:induction false} AboveShrinks(tracers: Tracers, q: Process)
    requires NoCycleAbove(tracers, q) && ClosedTracers(tracers) && q in tracers && tracers[q] != null
    ensures |Above(tracers, tracers[q])| < |Above(tracers, q)|
    ensures NoCycleAbove(tracers, tracers[q])
  {
    var t: Process := tracers[q];
    assert Chain(tracers, q, 1) == t;
    forall r | r in Above(tracers, t)
      ensures r in Above(tracers, q) - {t}
    {
      var n: nat :| n > 0 && Chain(tracers, t, n) == r;
      assert Chain(tracers, q, n + 1) == r;
      assert r == t ==> OnCycle(tracers, t);
    }
    Subset(Above(tracers, t), Above(tracers, q) - {t});
    forall m: nat, r | r in tracers && Chain(tracers, t, m) == r
      ensures !OnCycle(tracers, r)
    {
      assert Chain(tracers, q, m + 1) == r;
    }
  }

  lemma {:induction false} ChainJoins(tracers: Tracers, q: Process?, m: nat, n: nat)
    ensures Chain(tracers, Chain(tracers, q, m), n) == Chain(tracers, q, m + n)
    decreases m
  {
    if m > 0 && q != null && q in tracers {
      ChainJoins(tracers, tracers[q], m - 1, n);
    } else if m > 0 {
      assert Chain(tracers, null, n) == null;
    }
  }

  lemma {:induction false} ChainEnds(tracers: Tracers, q: Process) returns (n: nat)
    requires NoCycleAbove(tracers, q) && ClosedTracers(tracers) && q in tracers
    ensures Chain(tracers, q, n) == null
    decreases |Above(tracers, q)|
  {
    if tracers[q] == null {
      n := 1;
    } else {
      AboveShrinks(tracers, q);
      n := ChainEnds(tracers, tracers[q]);
      n := n + 1;
    }
  }

  lemma {:induction false} CycleNeverEnds(tracers: Tracers, q: Process, k: nat, n: nat)
    requires k > 0 && Chain(tracers, q, k) == q
    ensures Chain(tracers, q, n) != null
    decreases n
  {
    if n < k {
      ChainJoins(tracers, q, n, k - n);
    } else {
      ChainJoins(tracers, q, k, n - k);
      CycleNeverEnds(tracers, q, k, n - k);
    }
  }

  lemma {:induction false} NullStaysNull(tracers: Tracers, q: Process, n: nat, m: nat)
    requires Chain(tracers, q, n) == null && n <= m
    ensures Chain(tracers, q, m) == null
  {
    ChainJoins(tracers, q, n, m - n);
  }

  /** Following the tracers of a process ends exactly if no cycle lies above it. */
  lemma {:induction false} EndsIffNoCycleAbove(tracers: Tracers, q: Process)
    requires ClosedTracers(tracers) && q in tracers
    ensures Ends(tracers, q) <==> NoCycleAbove(tracers, q)
  {
    if NoCycleAbove(tracers, q) {
      var n := ChainEnds(tracers, q);
    } else if Ends(tracers, q) {
      var n: nat :| Chain(tracers, q, n) == null;
      var m: nat, r :| r in tracers && Chain(tracers, q, m) == r && OnCycle(tracers, r);
      var k: nat :| k > 0 && Chain(tracers, r, k) == r;
      CycleNeverEnds(tracers, r, k, n);
      ChainJoins(tracers, q, m, n);
      NullStaysNull(tracers, q, n, m + n);
    }
  }

  /** Every chain of tracers ends exactly if the tracers have no cycle. */
  lemma {:induction false} ChainsEndIffNoCycle(tracers: Tracers)
    requires ClosedTracers(tracers)
    ensures NoTraceCycle(tracers) <==> forall q :: q in tracers ==> Ends(tracers, q)
  {
    if NoTraceCycle(tracers) {
      forall q | q in tracers
        ensures Ends(tracers, q)
      {
        EndsIffNoCycleAbove(tracers, q);
      }
    } else {
      var q :| q in tracers && OnCycle(tracers, q);
      assert Chain(tracers, q, 0) == q;
      EndsIffNoCycleAbove(tracers, q);
    }
  }
}
