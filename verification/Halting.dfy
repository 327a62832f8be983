/** When the recursion of a move ends: exactly if it comes to no process that traces itself. */
module Halting {
  import opened Wrappers
  import opened CgroupTypes
  import opened Spread
  import opened Chains
  import opened Leading

  /** No process visited from `q` traces itself, directly or through others. */
  ghost predicate NoCycleAhead(s: Snap, p: Partition, q: Process)
    requires s.Valid()
  {
    forall r :: r in s.edges && Visits(s, p, q, r) ==> !OnCycle(s.tracers, r)
  }

  lemma {:induction false} StaysAhead(s0: Snap, s1: Snap, p: Partition, q: Process)
    requires Later(s0, s1, p) && NoCycleAhead(s0, p, q)
    ensures NoCycleAhead(s1, p, q)
  {
    hide Walked;
    forall r | r in s1.edges && Visits(s1, p, q, r)
      ensures !OnCycle(s1.tracers, r)
    {
      var n: nat :| VisitsIn(s1, p, q, r, n);
      VisitedBefore(s0, s1, p, q, r, n);
    }
  }

  lemma {:induction false} TakenAhead(s: Snap, p: Partition, q: Process, r: Process)
    requires s.Valid() && NoCycleAhead(s, p, q) && Takes(s, p, q, r)
    ensures NoCycleAhead(s, p, r)
  {
    hide Walked;
    VisitsOne(s, p, q, r);
    forall t | t in s.edges && Visits(s, p, r, t)
      ensures !OnCycle(s.tracers, t)
    {
      VisitsOn(s, p, q, r, t);
    }
  }

  /** All tracers above are visited. */
  lemma {:induction false} ChainVisited(s: Snap, p: Partition, q: Process, n: nat)
    requires s.Valid() && q in s.edges && Chain(s.tracers, q, n) != null
    ensures Chain(s.tracers, q, n) in s.edges && Visits(s, p, q, Chain(s.tracers, q, n))
    decreases n
  {
    hide Walked;
    VisitsOne(s, p, q, q);
    if n > 0 {
      var t := s.tracers[q];
      assert Chain(s.tracers, t, n - 1) != null;
      ChainVisited(s, p, t, n - 1);
      VisitsOne(s, p, q, t);
      VisitsOn(s, p, q, t, Chain(s.tracers, q, n));
    }
  }

  lemma {:induction false} AheadEnds(s: Snap, p: Partition, q: Process) returns (n: nat)
    requires s.Valid() && q in s.edges && NoCycleAhead(s, p, q)
    ensures Chain(s.tracers, q, n) == null
  {
    forall m: nat, r | r in s.tracers && Chain(s.tracers, q, m) == r
      ensures !OnCycle(s.tracers, r)
    {
      ChainVisited(s, p, q, m);
    }
    n := ChainEnds(s.tracers, q);
  }

  // --- without a cycle ahead the recursion ends, whatever the kernel says

  /** Processes outside, and one more for a call on a process that is inside. */
  ghost function Size(s: Snap, p: Partition, q: Process): nat
    requires q in s.parts
  {
    2 * |s.Outside(p)| + if s.parts[q] == p then 1 else 0
  }

  lemma {:induction false} WriteShrinks(s: Snap, p: Partition, q: Process)
    requires s.Valid() && q in s.edges
    ensures Size(AfterWrite(s, p, q, Written), p, q) <= Size(s, p, q)
    ensures s.parts[q] != p ==> Size(AfterWrite(s, p, q, Written), p, q) < Size(s, p, q)
  {
    WriteIsLater(s, p, q, Written);
    MayLead(s, AfterWrite(s, p, q, Written), p, q);
  }

  /** Whoever is called from a process in the partition is smaller, or its tracer. */
  lemma {:induction false} CallsShrink(s: Snap, s1: Snap, p: Partition, q: Process, r: Process)
    requires Later(s, s1, p) && q in s.parts && s.parts[q] == p && r in s.parts
    ensures Size(s1, p, r) <= Size(s, p, q)
    ensures s.parts[r] != p ==> Size(s1, p, r) < Size(s, p, q)
  {
    MayLead(s, s1, p, r);
  }

  lemma {:induction false} AddHalts(s: Snap, p: Partition, q: Process, kernel: Kernel, n: nat) returns (depth: nat)
    requires s.Valid() && q in s.edges && NoCycleAhead(s, p, q) && Chain(s.tracers, q, n) == null
    ensures Add(s, p, q, kernel, depth).Some?
    decreases Size(s, p, q), n, 3
  {
    hide Add, Act, Walk, Repeat, Visits, Walked, NoCycleAhead, Snap.Valid;
    var chk := kernel(|s.log|);
    depth := 1;
    AddStep(s, p, q, kernel, depth);
    if chk == Written {
      var s1 := AfterWrite(s, p, q, chk);
      StaysAhead(s, s1, p, q);
      WriteShrinks(s, p, q);
      depth := ActHalts(s1, p, q, kernel, n);
      AddStep(s, p, q, kernel, depth + 1);
      depth := depth + 1;
    }
  }

  lemma {:induction false} ActHalts(s: Snap, p: Partition, q: Process, kernel: Kernel, n: nat) returns (depth: nat)
    requires s.Valid() && q in s.edges && NoCycleAhead(s, p, q) && Chain(s.tracers, q, n) == null && s.parts[q] == p
    ensures Act(s, p, q, kernel, depth).Some?
    decreases Size(s, p, q), n, 2
  {
    hide Add, Act, Walk, Repeat, Visits, Walked, NoCycleAhead, Size;
    var walking := WalkHalts(s, s, p, q, 0, kernel, n);
    ActStep(s, p, q, kernel, walking);
    depth := walking;
    var tracer := s.tracers[q];
    if tracer != null {
      var s1 := Walk(s, p, q, 0, kernel, walking).value;
      TakenAhead(s, p, q, tracer);
      StaysAhead(s, s1, p, tracer);
      CallsShrink(s, s1, p, q, tracer);
      var adding := AddHalts(s1, p, tracer, kernel, n - 1);
      depth := walking + adding;
      WalkDeeper(s, p, q, 0, kernel, walking, depth);
      AddDeeper(s1, p, tracer, kernel, adding, depth);
      ActStep(s, p, q, kernel, depth);
    }
  }

  lemma {:induction false} DueIsTaken(s: Snap, s1: Snap, p: Partition, q: Process, i: nat)
    requires Later(s, s1, p) && q in s.edges && i < |s.walks[q]| && Due(s1, p, s.walks[q][i])
    ensures var r := s.walks[q][i].process;
            Takes(s, p, q, r) && r in s.edges && r in s1.edges && r in s.parts && s.parts[r] != p && q in s.parts
  {
  }

  /** The walk that began at `s`, from the i-th entry on. */
  lemma {:induction false} WalkHalts(s: Snap, s1: Snap, p: Partition, q: Process, i: nat, kernel: Kernel, n: nat) returns (depth: nat)
    requires Later(s, s1, p) && q in s.edges && NoCycleAhead(s, p, q) && q in s.parts && s.parts[q] == p && q in s.walks && i <= |s.walks[q]|
    ensures Walk(s1, p, q, i, kernel, depth).Some?
    decreases Size(s, p, q), n, 1, |s.walks[q]| - i
  {
    hide Add, Act, Walk, Repeat, Visits, Walked, NoCycleAhead, Size, Due, Takes, Snap.Valid;
    depth := 0;
    WalkStep(s1, p, q, i, kernel, depth);
    if i < |s.walks[q]| {
      var o := s.walks[q][i];
      if Due(s1, p, o) {
        DueIsTaken(s, s1, p, q, i);
        TakenAhead(s, p, q, o.process);
        var giving := RepeatHalts(s, s1, p, q, o.process, o.times, kernel, n);
        var s2 := Repeat(s1, p, o.process, o.times, kernel, giving).value;
        LaterJoins(s, s1, s2, p);
        var walking := WalkHalts(s, s2, p, q, i + 1, kernel, n);
        depth := giving + walking;
        RepeatDeeper(s1, p, o.process, o.times, kernel, giving, depth);
        WalkDeeper(s2, p, q, i + 1, kernel, walking, depth);
      } else {
        depth := WalkHalts(s, s1, p, q, i + 1, kernel, n);
      }
      WalkStep(s1, p, q, i, kernel, depth);
    }
  }

  lemma {:induction false} RepeatHalts(s: Snap, s1: Snap, p: Partition, q: Process, r: Process, times: nat, kernel: Kernel, n: nat)
    returns (depth: nat)
    requires Later(s, s1, p) && q in s.parts && r in s.edges && r in s1.edges && r in s.parts
    requires s.parts[q] == p && s.parts[r] != p && NoCycleAhead(s, p, r)
    ensures Repeat(s1, p, r, times, kernel, depth).Some?
    decreases Size(s, p, q), n, 0, times
  {
    hide Add, Act, Walk, Repeat, Visits, Walked, NoCycleAhead, Size, Snap.Valid;
    depth := 0;
    RepeatStep(s1, p, r, times, kernel, depth);
    if times > 0 {
      StaysAhead(s, s1, p, r);
      CallsShrink(s, s1, p, q, r);
      var m := AheadEnds(s1, p, r);
      var adding := AddHalts(s1, p, r, kernel, m);
      var s2 := Add(s1, p, r, kernel, adding).value;
      LaterJoins(s, s1, s2, p);
      var repeating := RepeatHalts(s, s2, p, q, r, times - 1, kernel, n);
      depth := adding + repeating;
      AddDeeper(s1, p, r, kernel, adding, depth);
      RepeatDeeper(s2, p, r, times - 1, kernel, repeating, depth);
      RepeatStep(s1, p, r, times, kernel, depth);
    }
  }

  /** A move of all those that are outside ends. */
  ghost predicate NoneAhead(s: Snap, p: Partition, sources: set<Process>)
    requires s.Valid()
  {
    forall m :: m in sources && m in s.parts && s.parts[m] != p ==> NoCycleAhead(s, p, m)
  }

  lemma {:induction false} NoneAheadLater(s0: Snap, s1: Snap, p: Partition, sources: set<Process>, members: set<Process>)
    requires Later(s0, s1, p) && NoneAhead(s0, p, sources) && members <= sources
    ensures NoneAhead(s1, p, members)
  {
    hide Walked, NoCycleAhead;
    forall m | m in members && m in s1.parts && s1.parts[m] != p
      ensures NoCycleAhead(s1, p, m)
    {
      StaysAhead(s0, s1, p, m);
    }
  }

  /** Without any cycle of tracers every move ends. */
  lemma {:induction false} NoCycleAtAll(s: Snap, p: Partition, sources: set<Process>)
    requires s.Valid() && NoTraceCycle(s.tracers)
    ensures NoneAhead(s, p, sources)
  {
  }

  lemma {:induction false} AheadHalts(s: Snap, p: Partition, q: Process, kernel: Kernel) returns (depth: nat)
    requires s.Valid() && q in s.edges && NoCycleAhead(s, p, q)
    ensures Add(s, p, q, kernel, depth).Some?
  {
    var n := AheadEnds(s, p, q);
    depth := AddHalts(s, p, q, kernel, n);
  }

  // --- where the kernel grants every write, it does not end otherwise

  ghost predicate Grants(kernel: Kernel, from: nat) {
    forall i :: i >= from ==> kernel(i) == Written
  }

  /** All asked since `s` were moved, and their tracers end. */
  ghost predicate Settles(s: Snap, t: Snap) {
    && s.log <= t.log && s.tracers == t.tracers && AllWritten(t.log, |s.log|)
    && forall r :: r in Tried(t.log, |s.log|) ==> Ends(s.tracers, r)
  }

  lemma {:induction false} SettlesNowhere(s: Snap)
    ensures Settles(s, s)
  {
  }

  lemma {:induction false} SettlesJoin(s: Snap, s1: Snap, s2: Snap)
    requires Settles(s, s1) && Settles(s1, s2)
    ensures Settles(s, s2)
    ensures forall r :: r in Tried(s2.log, |s1.log|) ==> r in Tried(s2.log, |s.log|)
  {
    LogsJoin(s.log, s1.log, s2.log);
    forall i | |s.log| <= i < |s2.log|
      ensures s2.log[i].result == Written
    {
      assert i < |s1.log| ==> s2.log[i] == s1.log[i];
    }
  }

  lemma {:induction false} EndsAbove(tracers: Tracers, q: Process)
    requires q in tracers && (tracers[q] != null ==> Ends(tracers, tracers[q]))
    ensures Ends(tracers, q)
  {
    if tracers[q] == null {
      assert Chain(tracers, q, 1) == null;
    } else {
      var n: nat :| Chain(tracers, tracers[q], n) == null;
      assert Chain(tracers, q, n + 1) == null;
    }
  }

  lemma {:induction false} AddSettles(s: Snap, p: Partition, q: Process, kernel: Kernel, depth: nat)
    requires s.Valid() && q in s.edges && Grants(kernel, |s.log|) && Add(s, p, q, kernel, depth).Some?
    ensures Settles(s, Add(s, p, q, kernel, depth).value) && Ends(s.tracers, q)
    decreases depth, 0
  {
    hide Add, Act, Walk, Repeat, Visits, Walked, Ends, Snap.Valid;
    AddStep(s, p, q, kernel, depth);
    var s1 := AfterWrite(s, p, q, kernel(|s.log|));
    ActSettles(s1, p, q, kernel, depth - 1);
    LogOfOne(s.log, Write(p, q, Written));
    SettlesJoin(s, s1, Add(s, p, q, kernel, depth).value);
  }

  lemma {:induction false} ActSettles(s: Snap, p: Partition, q: Process, kernel: Kernel, depth: nat)
    requires s.Valid() && q in s.edges && Grants(kernel, |s.log|) && Act(s, p, q, kernel, depth).Some?
    ensures Settles(s, Act(s, p, q, kernel, depth).value) && Ends(s.tracers, q)
    decreases depth, 3
  {
    hide Add, Act, Walk, Repeat, Visits, Walked, Ends, Settles;
    ActStep(s, p, q, kernel, depth);
    WalkSettles(s, p, q, 0, kernel, depth);
    var s1, tracer := Walk(s, p, q, 0, kernel, depth).value, s.tracers[q];
    if tracer != null {
      AddSettles(s1, p, tracer, kernel, depth);
      SettlesJoin(s, s1, Act(s, p, q, kernel, depth).value);
    }
    EndsAbove(s.tracers, q);
  }

  lemma {:induction false} WalkSettles(s: Snap, p: Partition, q: Process, i: nat, kernel: Kernel, depth: nat)
    requires s.Valid() && q in s.edges && i <= |s.walks[q]| && Grants(kernel, |s.log|)
    requires Walk(s, p, q, i, kernel, depth).Some?
    ensures Settles(s, Walk(s, p, q, i, kernel, depth).value)
    decreases depth, 2, |s.walks[q]| - i
  {
    hide Add, Act, Walk, Repeat, Visits, Walked, Ends, Settles;
    WalkStep(s, p, q, i, kernel, depth);
    SettlesNowhere(s);
    if i < |s.walks[q]| {
      var o, t := s.walks[q][i], Walk(s, p, q, i, kernel, depth).value;
      if Due(s, p, o) {
        RepeatSettles(s, p, o.process, o.times, kernel, depth);
        var s1 := Repeat(s, p, o.process, o.times, kernel, depth).value;
        WalkSettles(s1, p, q, i + 1, kernel, depth);
        SettlesJoin(s, s1, t);
      } else {
        WalkSettles(s, p, q, i + 1, kernel, depth);
      }
    }
  }

  lemma {:induction false} RepeatSettles(s: Snap, p: Partition, r: Process, times: nat, kernel: Kernel, depth: nat)
    requires s.Valid() && r in s.edges && Grants(kernel, |s.log|) && Repeat(s, p, r, times, kernel, depth).Some?
    ensures Settles(s, Repeat(s, p, r, times, kernel, depth).value)
    decreases depth, 1, times
  {
    hide Add, Act, Walk, Repeat, Visits, Walked, Ends, Settles, Snap.Valid;
    RepeatStep(s, p, r, times, kernel, depth);
    SettlesNowhere(s);
    if times > 0 {
      AddSettles(s, p, r, kernel, depth);
      var s1 := Add(s, p, r, kernel, depth).value;
      RepeatSettles(s1, p, r, times - 1, kernel, depth);
      SettlesJoin(s, s1, Repeat(s, p, r, times, kernel, depth).value);
    }
  }

  /** Where a process visited traces itself, a call whose writes are granted ends at no depth. */
  lemma {:induction false} CycleNeverHalts(s: Snap, p: Partition, q: Process, kernel: Kernel, depth: nat, r: Process)
    requires s.Valid() && q in s.edges && Grants(kernel, |s.log|)
    requires Visits(s, p, q, r) && OnCycle(s.tracers, r)
    ensures Add(s, p, q, kernel, depth).None?
  {
    if Add(s, p, q, kernel, depth).Some? {
      var t := Add(s, p, q, kernel, depth).value;
      AddLeads(s, p, q, kernel, depth);
      AddSettles(s, p, q, kernel, depth);
      TriedIsMoved(t.log, |s.log|);
      ExactlyVisitedMove(s, t, p, q, r);
      var n: nat :| Chain(s.tracers, r, n) == null;
      var k: nat :| k > 0 && Chain(s.tracers, r, k) == r;
      CycleNeverEnds(s.tracers, r, k, n);
    }
  }

  ghost predicate Halts(s: Snap, p: Partition, q: Process, kernel: Kernel)
    requires s.Valid() && q in s.edges
  {
    exists depth: nat :: Add(s, p, q, kernel, depth).Some?
  }

  /**
   A call ends whatever the kernel says exactly if no process visited traces itself; and for
   that it has to end only when every write is granted.
   */
  lemma {:induction false} HaltsIffNoCycleAhead(s: Snap, p: Partition, q: Process, granting: Kernel)
    requires s.Valid() && q in s.edges && Grants(granting, |s.log|)
    ensures NoCycleAhead(s, p, q) <==> forall kernel: Kernel :: Halts(s, p, q, kernel)
    ensures NoCycleAhead(s, p, q) <==> Halts(s, p, q, granting)
  {
    hide Visits;
    if NoCycleAhead(s, p, q) {
      forall kernel: Kernel
        ensures Halts(s, p, q, kernel)
      {
        var depth := AheadHalts(s, p, q, kernel);
      }
    } else {
      var r :| r in s.edges && Visits(s, p, q, r) && OnCycle(s.tracers, r);
      forall depth: nat
        ensures Add(s, p, q, granting, depth).None?
      {
        CycleNeverHalts(s, p, q, granting, depth, r);
      }
      assert !Halts(s, p, q, granting);
    }
  }
}
