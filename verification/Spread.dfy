/**
 What a cascade of moves does, as a relation between snapshots: who leads whom, who may
 be reached, and how partitions and the write log change together.
 */
module Spread {
  import opened CgroupTypes

  /** Who follows a process when it moves, and by whom each process is traced. */
  type Edges = map<Process, set<Process>>
  type Tracers = map<Process, Process?>

  /** An entry of the process table, and how often a leader orders it to follow if it is outside. */
  datatype Order = Order(process: Process, times: nat)

  /** `walks` holds each leader's orders in table order; `edges` are those of at least one, and the tracer. */
  datatype Snap = Snap(edges: Edges, tracers: Tracers, walks: map<Process, seq<Order>>,
                       parts: map<Process, Partition?>, log: seq<Write>) {
    ghost predicate Valid() {
      && edges.Keys == parts.Keys == tracers.Keys == walks.Keys
      && (forall q, r :: q in edges && r in edges[q] ==> r in edges)
      && (forall q {:trigger tracers[q]} :: q in tracers && tracers[q] != null ==> tracers[q] in edges[q])
      && (forall q {:trigger walks[q]} :: q in walks ==> Walked(walks[q], tracers[q], edges[q]))
    }

    /** The processes not in partition `p`. */
    ghost function Outside(p: Partition): set<Process> {
      set r | r in parts && parts[r] != p
    }
  }

  ghost predicate Ordered(walk: seq<Order>, r: Process) {
    exists k :: 0 <= k < |walk| && walk[k].process == r && walk[k].times > 0
  }

  ghost predicate Walked(walk: seq<Order>, tracer: Process?, led: set<Process>) {
    && (forall k :: 0 <= k < |walk| && walk[k].times > 0 ==> walk[k].process in led)
    && (forall r :: r in led ==> r == tracer || Ordered(walk, r))
  }

  /** `q` takes `r` along: its tracer wherever that is, others if they are outside. */
  ghost predicate Takes(s: Snap, p: Partition, q: Process, r: Process)
    requires s.Valid()
  {
    q in s.edges && r in s.edges[q] && (r == s.tracers[q] || s.parts[r] != p)
  }

  ghost predicate VisitsIn(s: Snap, p: Partition, q: Process, r: Process, n: nat)
    requires s.Valid()
  {
    if n == 0 then q == r
    else exists t :: t in s.edges && Takes(s, p, q, t) && VisitsIn(s, p, t, r, n - 1)
  }

  /** From `q` one comes to `r` by taking along. */
  ghost predicate Visits(s: Snap, p: Partition, q: Process, r: Process)
    requires s.Valid()
  {
    exists n: nat :: VisitsIn(s, p, q, r, n)
  }

  ghost predicate VisitsFrom(s: Snap, p: Partition, sources: set<Process>, r: Process)
    requires s.Valid()
  {
    exists q :: q in sources && Visits(s, p, q, r)
  }

  lemma {:induction false} VisitsJoin(s: Snap, p: Partition, q: Process, r: Process, t: Process, m: nat, n: nat)
    requires s.Valid() && VisitsIn(s, p, q, r, m) && VisitsIn(s, p, r, t, n)
    ensures VisitsIn(s, p, q, t, m + n)
    decreases m
  {
    hide Walked, Snap.Valid;
    if m > 0 {
      var u :| u in s.edges && Takes(s, p, q, u) && VisitsIn(s, p, u, r, m - 1);
      VisitsJoin(s, p, u, r, t, m - 1, n);
    }
  }

  lemma {:induction false} VisitsOn(s: Snap, p: Partition, q: Process, r: Process, t: Process)
    requires s.Valid() && Visits(s, p, q, r) && Visits(s, p, r, t)
    ensures Visits(s, p, q, t)
  {
    hide Snap.Valid;
    var m: nat :| VisitsIn(s, p, q, r, m);
    var n: nat :| VisitsIn(s, p, r, t, n);
    VisitsJoin(s, p, q, r, t, m, n);
  }

  lemma {:induction false} VisitsOne(s: Snap, p: Partition, q: Process, r: Process)
    requires s.Valid()
    ensures Visits(s, p, q, q)
    ensures Takes(s, p, q, r) ==> Visits(s, p, q, r)
  {
    assert VisitsIn(s, p, q, q, 0);
    if Takes(s, p, q, r) {
      assert VisitsIn(s, p, r, r, 0);
      assert VisitsIn(s, p, q, r, 1);
    }
  }

  lemma {:induction false} SourceVisited(s: Snap, p: Partition, sources: set<Process>, q: Process)
    requires s.Valid() && q in sources
    ensures VisitsFrom(s, p, sources, q)
  {
    VisitsOne(s, p, q, q);
  }

  /** The same processes and leaders at a later time, with no fewer in `p`. */
  ghost predicate Later(s0: Snap, s1: Snap, p: Partition) {
    && s0.Valid() && s1.Valid()
    && s1.edges == s0.edges && s1.tracers == s0.tracers && s1.walks == s0.walks && s0.log <= s1.log
    && (forall r {:trigger s1.parts[r]} :: r in s0.parts && s0.parts[r] == p ==> s1.parts[r] == p)
  }

  lemma {:induction false} LaterJoins(s0: Snap, s1: Snap, s2: Snap, p: Partition)
    requires Later(s0, s1, p) && Later(s1, s2, p)
    ensures Later(s0, s2, p)
  {
  }

  /** What is visited later was to be visited before. */
  lemma {:induction false} VisitedBefore(s0: Snap, s1: Snap, p: Partition, q: Process, r: Process, n: nat)
    requires Later(s0, s1, p) && VisitsIn(s1, p, q, r, n)
    ensures VisitsIn(s0, p, q, r, n)
    decreases n
  {
    hide Walked;
    if n > 0 {
      var t :| t in s1.edges && Takes(s1, p, q, t) && VisitsIn(s1, p, t, r, n - 1);
      assert Takes(s0, p, q, t);
      VisitedBefore(s0, s1, p, t, r, n - 1);
    }
  }

  /** Who is visited from a set that takes along only its own is in the set. */
  lemma {:induction false} VisitsStay(s: Snap, p: Partition, family: set<Process>, q: Process, r: Process, n: nat)
    requires s.Valid() && q in family && VisitsIn(s, p, q, r, n)
    requires forall u, t :: u in family && u in s.edges && t in s.edges[u] ==> t in family
    ensures r in family
    decreases n
  {
    hide Walked;
    if n > 0 {
      var t :| t in s.edges && Takes(s, p, q, t) && VisitsIn(s, p, t, r, n - 1);
      VisitsStay(s, p, family, t, r, n - 1);
    }
  }

  lemma {:induction false} VisitsFromJoins(s0: Snap, s1: Snap, p: Partition, sources: set<Process>, via: set<Process>, t: Process)
    requires Later(s0, s1, p) && VisitsFrom(s1, p, via, t)
    requires forall r :: r in via ==> VisitsFrom(s0, p, sources, r)
    ensures VisitsFrom(s0, p, sources, t)
  {
    hide Snap.Valid;
    var r :| r in via && Visits(s1, p, r, t);
    var n: nat :| VisitsIn(s1, p, r, t, n);
    VisitedBefore(s0, s1, p, r, t, n);
    var q :| q in sources && Visits(s0, p, q, r);
    VisitsOn(s0, p, q, r, t);
  }

  /** Processes whose move was requested from log position `from` on, and those it succeeded for. */
  ghost function Tried(log: seq<Write>, from: nat): set<Process> {
    set i | from <= i < |log| :: log[i].process
  }

  ghost function Moved(log: seq<Write>, from: nat): set<Process> {
    set i | from <= i < |log| && log[i].result == Written :: log[i].process
  }

  ghost predicate AllWritten(log: seq<Write>, from: nat) {
    forall i :: from <= i < |log| ==> log[i].result == Written
  }

  /** `r`, led by `q`, has been asked to move, or it is in the partition and is not the tracer. */
  ghost predicate Taken(s: Snap, p: Partition, q: Process, r: Process, from: nat)
    requires s.Valid() && q in s.edges && r in s.edges[q]
  {
    r in Tried(s.log, from) || (r != s.tracers[q] && s.parts[r] == p)
  }

  ghost predicate Closed(s: Snap, p: Partition, from: nat)
    requires s.Valid()
  {
    forall q, r :: q in Moved(s.log, from) && q in s.edges && r in s.edges[q] ==> Taken(s, p, q, r, from)
  }

  ghost predicate MovedOnly(s0: Snap, s1: Snap, p: Partition) {
    forall r {:trigger s1.parts[r]} {:trigger r in s1.parts} :: r in s0.parts ==>
      r in s1.parts && s1.parts[r] == if r in Moved(s1.log, |s0.log|) then p else s0.parts[r]
  }

  /**
   One or more moves into `p` starting at `sources`: only processes visited from there are ever
   asked to move, all of them to `p`; exactly those whose write succeeded have changed
   partition; and whoever moved has taken along those it leads.
   */
  ghost predicate Spreads(s0: Snap, s1: Snap, p: Partition, sources: set<Process>) {
    && Later(s0, s1, p)
    && (forall i :: |s0.log| <= i < |s1.log| ==>
          && s1.log[i].target == p
          && s1.log[i].process in s0.edges
          && VisitsFrom(s0, p, sources, s1.log[i].process))
    && MovedOnly(s0, s1, p)
    && Closed(s1, p, |s0.log|)
  }

  lemma {:induction false} SpreadsNowhere(s: Snap, p: Partition, sources: set<Process>)
    requires s.Valid()
    ensures Spreads(s, s, p, sources)
  {
  }

  lemma {:induction false} LogsJoin(a: seq<Write>, b: seq<Write>, c: seq<Write>)
    requires a <= b <= c
    ensures Tried(c, |a|) == Tried(b, |a|) + Tried(c, |b|)
    ensures Moved(c, |a|) == Moved(b, |a|) + Moved(c, |b|)
  {
    forall i | |a| <= i < |b|
      ensures c[i] == b[i]
    {
    }
    assert forall r :: r in Tried(b, |a|) ==> r in Tried(c, |a|) by {
      forall r | r in Tried(b, |a|)
        ensures r in Tried(c, |a|)
      {
        var i :| |a| <= i < |b| && b[i].process == r;
        assert c[i].process == r;
      }
    }
    assert forall r :: r in Moved(b, |a|) ==> r in Moved(c, |a|) by {
      forall r | r in Moved(b, |a|)
        ensures r in Moved(c, |a|)
      {
        var i :| |a| <= i < |b| && b[i].result == Written && b[i].process == r;
        assert c[i].process == r;
      }
    }
  }

  /** What two spreadings say about the second snapshot's partitions and followers. */
  lemma {:induction false} ClosedJoins(s0: Snap, s1: Snap, s2: Snap, p: Partition, via: set<Process>)
    requires Later(s0, s1, p) && Spreads(s1, s2, p, via) && Closed(s1, p, |s0.log|)
    ensures Closed(s2, p, |s0.log|)
  {
    hide Visits, VisitsFrom, Walked;
    LogsJoin(s0.log, s1.log, s2.log);
    forall q, r | q in Moved(s2.log, |s0.log|) && q in s2.edges && r in s2.edges[q]
      ensures Taken(s2, p, q, r, |s0.log|)
    {
      if q in Moved(s2.log, |s1.log|) {
        assert Taken(s2, p, q, r, |s1.log|);
      } else {
        assert Taken(s1, p, q, r, |s0.log|);
      }
    }
  }

  lemma {:induction false} VisitsJoinAll(s0: Snap, s1: Snap, s2: Snap, p: Partition, sources: set<Process>, via: set<Process>)
    requires Spreads(s0, s1, p, sources) && Spreads(s1, s2, p, via)
    requires forall r :: r in via ==> VisitsFrom(s0, p, sources, r)
    ensures forall i :: |s0.log| <= i < |s2.log| ==>
              s2.log[i].target == p && s2.log[i].process in s0.edges && VisitsFrom(s0, p, sources, s2.log[i].process)
  {
    hide VisitsFrom, Walked, Closed, Snap.Valid;
    forall i | |s0.log| <= i < |s2.log|
      ensures s2.log[i].target == p && s2.log[i].process in s0.edges && VisitsFrom(s0, p, sources, s2.log[i].process)
    {
      if i < |s1.log| {
        assert s2.log[i] == s1.log[i];
      } else {
        VisitsFromJoins(s0, s1, p, sources, via, s2.log[i].process);
      }
    }
  }

  lemma {:induction false} PartsJoin(s0: Snap, s1: Snap, s2: Snap, p: Partition)
    requires MovedOnly(s0, s1, p) && MovedOnly(s1, s2, p) && s0.log <= s1.log <= s2.log
    ensures MovedOnly(s0, s2, p)
  {
    LogsJoin(s0.log, s1.log, s2.log);
    forall r | r in s0.parts
      ensures r in s2.parts && s2.parts[r] == if r in Moved(s2.log, |s0.log|) then p else s0.parts[r]
    {
      assert r in s1.parts && s1.parts[r] == if r in Moved(s1.log, |s0.log|) then p else s0.parts[r];
    }
  }

  /** Spreading on, from processes visited anyway, is spreading. */
  lemma {:induction false} SpreadsJoin(s0: Snap, s1: Snap, s2: Snap, p: Partition, sources: set<Process>, via: set<Process>)
    requires Spreads(s0, s1, p, sources) && Spreads(s1, s2, p, via)
    requires forall r :: r in via ==> VisitsFrom(s0, p, sources, r)
    ensures Spreads(s0, s2, p, sources)
  {
    hide VisitsFrom, Walked, Snap.Valid, MovedOnly;
    VisitsJoinAll(s0, s1, s2, p, sources, via);
    hide Closed;
    LaterJoins(s0, s1, s2, p);
    ClosedJoins(s0, s1, s2, p, via);
    PartsJoin(s0, s1, s2, p);
  }

  /** What a call on `q` promises: it asks `q` first, and spreads from there. */
  ghost predicate Led(s0: Snap, s1: Snap, p: Partition, q: Process) {
    && Spreads(s0, s1, p, {q})
    && |s0.log| < |s1.log|
    && s1.log[|s0.log|].process == q
  }

  lemma {:induction false} LedSpreads(s0: Snap, s1: Snap, p: Partition, q: Process)
    requires Led(s0, s1, p, q)
    ensures Spreads(s0, s1, p, {q})
  {
  }

  /** The snapshot after one write. */
  function AfterWrite(s: Snap, p: Partition, q: Process, result: Result): Snap {
    s.(parts := if result == Written then s.parts[q := p] else s.parts, log := s.log + [Write(p, q, result)])
  }

  lemma {:induction false} LogOfOne(log: seq<Write>, w: Write)
    ensures Tried(log + [w], |log|) == {w.process}
    ensures Moved(log + [w], |log|) == if w.result == Written then {w.process} else {}
  {
    var both := log + [w];
    assert forall i :: |log| <= i < |both| ==> both[i] == w;
    assert both[|log|] == w;
  }

  lemma {:induction false} FailedWriteSpreads(s: Snap, p: Partition, q: Process, result: Result)
    requires s.Valid() && q in s.edges && result != Written
    ensures Led(s, AfterWrite(s, p, q, result), p, q)
  {
    hide Walked;
    LogOfOne(s.log, Write(p, q, result));
    VisitsOne(s, p, q, q);
  }

  /** Those that `q` leads have been taken along since log position `from`. */
  ghost predicate Followed(s: Snap, p: Partition, q: Process, from: nat)
    requires s.Valid()
  {
    q in s.edges && forall r :: r in s.edges[q] ==> Taken(s, p, q, r, from)
  }

  lemma {:induction false} WriteIsLater(s: Snap, p: Partition, q: Process, result: Result)
    requires s.Valid() && q in s.edges
    ensures Later(s, AfterWrite(s, p, q, result), p)
  {
  }

  lemma {:induction false} WriteMovesOnly(s: Snap, p: Partition, q: Process)
    requires s.Valid() && q in s.edges
    ensures MovedOnly(s, AfterWrite(s, p, q, Written), p)
  {
    LogOfOne(s.log, Write(p, q, Written));
  }

  /** A successful write, then spreading from `q` that takes along all it leads. */
  lemma {:induction false} WriteThenSpread(s0: Snap, s2: Snap, p: Partition, q: Process)
    requires s0.Valid() && q in s0.edges
    requires var s1 := AfterWrite(s0, p, q, Written);
             s1.Valid() && Spreads(s1, s2, p, {q}) && Followed(s2, p, q, |s1.log|)
    ensures Led(s0, s2, p, q)
  {
    hide Closed, Visits, VisitsFrom, Walked, Followed, Snap.Valid, MovedOnly;
    var s1 := AfterWrite(s0, p, q, Written);
    WriteIsLater(s0, p, q, Written);
    WriteVisits(s0, s1, s2, p, q);
    LogOfOne(s0.log, Write(p, q, Written));
    WriteMovesOnly(s0, p, q);
    PartsJoin(s0, s1, s2, p);
    LaterJoins(s0, s1, s2, p);
    WriteIsClosed(s0, s1, s2, p, q);
    assert s1.log[|s0.log|].process == q;
  }

  lemma {:induction false} WriteVisits(s0: Snap, s1: Snap, s2: Snap, p: Partition, q: Process)
    requires Later(s0, s1, p) && q in s0.edges && s1.log == s0.log + [Write(p, q, Written)] && Spreads(s1, s2, p, {q})
    ensures forall i :: |s0.log| <= i < |s2.log| ==>
              s2.log[i].target == p && s2.log[i].process in s0.edges && VisitsFrom(s0, p, {q}, s2.log[i].process)
  {
    hide Walked, Closed, Snap.Valid;
    VisitsOne(s0, p, q, q);
    forall i | |s0.log| <= i < |s2.log|
      ensures s2.log[i].target == p && s2.log[i].process in s0.edges && VisitsFrom(s0, p, {q}, s2.log[i].process)
    {
      if i == |s0.log| {
        assert s2.log[i] == s1.log[i];
      } else {
        VisitsFromJoins(s0, s1, p, {q}, {q}, s2.log[i].process);
      }
    }
  }

  lemma {:induction false} WriteIsClosed(s0: Snap, s1: Snap, s2: Snap, p: Partition, q: Process)
    requires Later(s0, s1, p) && s1.log == s0.log + [Write(p, q, Written)]
    requires Spreads(s1, s2, p, {q}) && Followed(s2, p, q, |s1.log|)
    ensures Closed(s2, p, |s0.log|)
  {
    hide Visits, VisitsFrom, Walked;
    LogOfOne(s0.log, Write(p, q, Written));
    LogsJoin(s0.log, s1.log, s2.log);
    forall u, r | u in Moved(s2.log, |s0.log|) && u in s2.edges && r in s2.edges[u]
      ensures Taken(s2, p, u, r, |s0.log|)
    {
      assert Taken(s2, p, u, r, |s1.log|);
    }
  }

  /** Spreading on from `r`, which is visited from `q`. */
  lemma {:induction false} SpreadsOn(s0: Snap, s1: Snap, s2: Snap, p: Partition, q: Process, r: Process)
    requires Spreads(s0, s1, p, {q}) && Spreads(s1, s2, p, {r}) && Visits(s0, p, q, r)
    ensures Spreads(s0, s2, p, {q})
    ensures Tried(s2.log, |s0.log|) == Tried(s1.log, |s0.log|) + Tried(s2.log, |s1.log|)
    ensures Moved(s2.log, |s0.log|) == Moved(s1.log, |s0.log|) + Moved(s2.log, |s1.log|)
  {
    hide Visits, Walked, Closed, Snap.Valid;
    SpreadsJoin(s0, s1, s2, p, {q}, {r});
    LogsJoin(s0.log, s1.log, s2.log);
  }

  /** The measure of a call on a follower that was outside when its leader started. */
  lemma {:induction false} MayLead(s0: Snap, s1: Snap, p: Partition, r: Process)
    requires Later(s0, s1, p) && r in s0.parts
    ensures |s1.Outside(p)| <= |s0.Outside(p)|
    ensures s0.parts[r] != p && s1.parts[r] == p ==> |s1.Outside(p)| < |s0.Outside(p)|
  {
    hide Walked;
    Subset(s1.Outside(p), s0.Outside(p));
    if s0.parts[r] != p && s1.parts[r] == p {
      Subset(s1.Outside(p), s0.Outside(p) - {r});
    }
  }

  // --- what the relation means

  lemma {:induction false} TriedIsMoved(log: seq<Write>, from: nat)
    requires AllWritten(log, from)
    ensures Tried(log, from) == Moved(log, from)
  {
  }

  /** Nobody moves but to the target, and nobody moves who is not visited from the sources. */
  lemma {:induction false} OnlyVisitedMove(s0: Snap, s1: Snap, p: Partition, sources: set<Process>, r: Process)
    requires Spreads(s0, s1, p, sources) && r in s0.parts && s1.parts[r] != s0.parts[r]
    ensures s1.parts[r] == p && VisitsFrom(s0, p, sources, r)
  {
  }

  /** When no write fails, everyone who moved has its followers, class and tracer with it. */
  lemma {:induction false} MovedAreClosed(s0: Snap, s1: Snap, p: Partition, sources: set<Process>, q: Process, r: Process)
    requires Spreads(s0, s1, p, sources) && AllWritten(s1.log, |s0.log|)
    requires q in Moved(s1.log, |s0.log|) && r in s0.edges[q]
    ensures s1.parts[q] == p && s1.parts[r] == p
    ensures Takes(s0, p, q, r) ==> r in Moved(s1.log, |s0.log|)
  {
    hide Walked;
    TriedIsMoved(s1.log, |s0.log|);
    assert Taken(s1, p, q, r, |s0.log|);
  }

  lemma {:induction false} VisitedMove(s0: Snap, s1: Snap, p: Partition, q: Process, r: Process, t: Process, n: nat)
    requires Led(s0, s1, p, q) && AllWritten(s1.log, |s0.log|)
    requires r in Moved(s1.log, |s0.log|) && r in s0.edges && VisitsIn(s0, p, r, t, n)
    ensures t in Moved(s1.log, |s0.log|)
    decreases n
  {
    hide Walked, Visits, VisitsFrom, Closed, Moved;
    if n > 0 {
      var u :| u in s0.edges && Takes(s0, p, r, u) && VisitsIn(s0, p, u, t, n - 1);
      MovedAreClosed(s0, s1, p, {q}, r, u);
      VisitedMove(s0, s1, p, q, u, t, n - 1);
    }
  }

  /** When no write fails, a call on `q` moves exactly the processes visited from it. */
  lemma {:induction false} ExactlyVisitedMove(s0: Snap, s1: Snap, p: Partition, q: Process, r: Process)
    requires Led(s0, s1, p, q) && AllWritten(s1.log, |s0.log|)
    ensures r in Moved(s1.log, |s0.log|) <==> Visits(s0, p, q, r)
    ensures r in s0.parts ==> s1.parts[r] == if Visits(s0, p, q, r) then p else s0.parts[r]
  {
    hide Walked;
    if Visits(s0, p, q, r) {
      var n: nat :| VisitsIn(s0, p, q, r, n);
      var first := s1.log[|s0.log|];
      assert first.process in Moved(s1.log, |s0.log|);
      VisitedMove(s0, s1, p, q, q, r, n);
    }
  }

  lemma {:induction false} Subset(a: set<Process>, b: set<Process>)
    requires a <= b
    ensures |a| <= |b|
    decreases a
  {
    if a != {} {
      var x :| x in a;
      Subset(a - {x}, b - {x});
    }
  }
}
