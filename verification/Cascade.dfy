/**
 Moving a process to a partition. A successful move makes the process lead its thread
 group, its followers and its tracer to the same partition, each of which leads on.
 */
module Cascade {
  import opened Wrappers
  import opened CgroupTypes
  import opened Spread
  import opened Leading

  // --- the context as a snapshot

  ghost function TracerOf(table: seq<Process>, q: Process): Process?
    reads q`tracer
  {
    if q.tracer == 0 then null else Lookup(table, q.tracer)
  }

  function Count(names: seq<string>, name: string): nat {
    if names == [] then 0 else (if names[0] == name then 1 else 0) + Count(names[1..], name)
  }

  lemma {:induction false} CountIsMembership(names: seq<string>, name: string)
    ensures Count(names, name) > 0 <==> name in names
  {
    if names != [] {
      CountIsMembership(names[1..], name);
    }
  }

  lemma {:induction false} CountIsMultiplicity(names: seq<string>, name: string)
    ensures Count(names, name) == multiset(names)[name]
  {
    if names != [] {
      CountIsMultiplicity(names[1..], name);
      assert names == [names[0]] + names[1..];
    }
  }

  lemma {:induction false} CountFrom(names: seq<string>, i: nat, name: string)
    requires i < |names|
    ensures Count(names[i..], name) == (if names[i] == name then 1 else 0) + Count(names[i + 1..], name)
  {
    assert names[i..][1..] == names[i + 1..];
  }

  lemma {:induction false} CountEnds(names: seq<string>, name: string)
    ensures Count(names[0..], name) == Count(names, name) && Count(names[|names|..], name) == 0
  {
    assert names[0..] == names;
  }

  /** How often `q` orders `r` to follow: once as a task of the same program, else for each naming of it. */
  ghost function Times(leaders: map<string, seq<string>>, q: Process, r: Process): nat
    reads q`name, r`name
  {
    if q.tgid == r.tgid && q.name == r.name then 1
    else if q.name in leaders then Count(leaders[q.name], r.name)
    else 0
  }

  ghost predicate LeadsByName(leaders: map<string, seq<string>>, q: Process, r: Process)
    reads q`name, r`name
  {
    || (q.tgid == r.tgid && q.name == r.name)
    || (q.name in leaders && r.name in leaders[q.name])
  }

  lemma {:induction false} TimesOfLed(leaders: map<string, seq<string>>, q: Process, r: Process)
    ensures Times(leaders, q, r) > 0 <==> LeadsByName(leaders, q, r)
    ensures q.tgid == r.tgid && q.name == r.name ==> Times(leaders, q, r) == 1
    ensures (q.tgid != r.tgid || q.name != r.name) && q.name in leaders ==>
              Times(leaders, q, r) == multiset(leaders[q.name])[r.name]
  {
    if q.name in leaders {
      CountIsMultiplicity(leaders[q.name], r.name);
      CountIsMembership(leaders[q.name], r.name);
    }
  }

  ghost function EdgesOf(ctx: Context, q: Process): set<Process>
    reads ctx`table, ctx`leaders, ctx.table`name, q`name, q`tracer
  {
    set r | r in ctx.table && (LeadsByName(ctx.leaders, q, r) || r == TracerOf(ctx.table, q))
  }

  ghost function OrdersTo(table: seq<Process>, leaders: map<string, seq<string>>, q: Process): (w: seq<Order>)
    reads q`name, table`name
    ensures |w| == |table|
    ensures forall i :: 0 <= i < |w| ==> w[i] == Order(table[i], Times(leaders, q, table[i]))
  {
    if table == [] then []
    else [Order(table[0], Times(leaders, q, table[0]))] + OrdersTo(table[1..], leaders, q)
  }

  ghost function WalkOf(ctx: Context, q: Process): seq<Order>
    reads ctx`table, ctx`leaders, ctx.table`name, q`name
  {
    OrdersTo(ctx.table, ctx.leaders, q)
  }

  lemma {:induction false} WalkIsWalked(ctx: Context, q: Process)
    ensures Walked(WalkOf(ctx, q), TracerOf(ctx.table, q), EdgesOf(ctx, q))
  {
    var walk, led := WalkOf(ctx, q), EdgesOf(ctx, q);
    forall k | 0 <= k < |walk| && walk[k].times > 0
      ensures walk[k].process in led
    {
      TimesOfLed(ctx.leaders, q, ctx.table[k]);
    }
    forall r | r in led && r != TracerOf(ctx.table, q)
      ensures Spread.Ordered(walk, r)
    {
      var k :| 0 <= k < |ctx.table| && ctx.table[k] == r;
      TimesOfLed(ctx.leaders, q, r);
      assert walk[k].process == r && walk[k].times > 0;
    }
  }

  ghost function EdgeMap(ctx: Context): Edges
    reads ctx`table, ctx`leaders, ctx.table`name, ctx.table`tracer
  {
    map q | q in ctx.table :: EdgesOf(ctx, q)
  }

  ghost function TracerMap(ctx: Context): Tracers
    reads ctx`table, ctx.table`tracer
  {
    map q | q in ctx.table :: TracerOf(ctx.table, q)
  }

  ghost function WalkMap(ctx: Context): map<Process, seq<Order>>
    reads ctx`table, ctx`leaders, ctx.table`name
  {
    map q | q in ctx.table :: WalkOf(ctx, q)
  }

  ghost function PartitionMap(ctx: Context): map<Process, Partition?>
    reads ctx`table, ctx.table`partition
  {
    map q | q in ctx.table :: q.partition
  }

  ghost function Now(ctx: Context): (s: Snap)
    reads ctx`table, ctx`leaders, ctx`log, ctx.table
    ensures s.Valid() && s.log == ctx.log
    ensures (forall q :: q in ctx.table ==> q in s.edges) && forall q :: q in s.edges ==> q in ctx.table
    ensures forall q :: q in ctx.table ==> q in s.parts && s.parts[q] == q.partition
    ensures forall q :: q in ctx.table ==> q in s.tracers && s.tracers[q] == TracerOf(ctx.table, q)
    ensures forall q :: q in ctx.table ==> q in s.walks && s.walks[q] == WalkOf(ctx, q)
  {
    var s := Snap(EdgeMap(ctx), TracerMap(ctx), WalkMap(ctx), PartitionMap(ctx), ctx.log);
    assert forall q :: q in ctx.table ==> Walked(s.walks[q], s.tracers[q], s.edges[q]) by {
      forall q | q in ctx.table
        ensures Walked(s.walks[q], s.tracers[q], s.edges[q])
      {
        WalkIsWalked(ctx, q);
      }
    }
    s
  }

  // --- the operations

  /** A write to the partition's tasks file; its outcome is the kernel's. */
  method WriteTask(ctx: Context, p: Partition, q: Process) returns (chk: Result)
    modifies ctx`log
    ensures chk == ctx.kernel(|old(ctx.log)|)
    ensures Now(ctx) == old(Now(ctx)).(log := old(ctx.log) + [Write(p, q, chk)])
  {
    ghost var s0 := Now(ctx);
    hide EdgeMap, WalkMap, TracerMap, Snap.Valid, TracerOf, WalkOf;
    chk := ctx.kernel(|ctx.log|);
    ctx.log := ctx.log + [Write(p, q, chk)];
    assert EdgeMap(ctx) == s0.edges && WalkMap(ctx) == s0.walks && TracerMap(ctx) == s0.tracers;
    assert PartitionMap(ctx) == s0.parts;
  }

  method SetPartition(ctx: Context, p: Partition, q: Process)
    requires q in ctx.table
    modifies q`partition
    ensures Now(ctx) == old(Now(ctx)).(parts := old(Now(ctx)).parts[q := p])
    ensures q.partition == p
  {
    ghost var s0 := Now(ctx);
    hide EdgeMap, WalkMap, TracerMap, Snap.Valid, TracerOf, WalkOf;
    q.partition := p;
    assert EdgeMap(ctx) == s0.edges && WalkMap(ctx) == s0.walks && TracerMap(ctx) == s0.tracers;
    assert PartitionMap(ctx) == s0.parts[q := p];
  }

  /** The write, and its success recorded in the process. */
  method MoveTask(ctx: Context, p: Partition, q: Process) returns (chk: Result)
    requires q in ctx.table
    modifies ctx`log, q`partition
    ensures chk == ctx.kernel(|old(ctx.log)|)
    ensures Now(ctx) == AfterWrite(old(Now(ctx)), p, q, chk)
    ensures chk == Written ==> q.partition == p
  {
    chk := WriteTask(ctx, p, q);
    if chk == Written {
      SetPartition(ctx, p, q);
    }
  }

  // --- the same on the objects

  /** Entry `k` is the oldest with that pid. */
  predicate FirstWith(table: seq<Process>, k: int, pid: int) {
    0 <= k < |table| && table[k].pid == pid && forall j :: 0 <= j < k ==> table[j].pid != pid
  }

  /**
   Of every process moved meanwhile: its tracer, the oldest entry of that pid, has been asked to
   move, and the tasks of its program and its named followers have, unless they were in the
   partition.
   */
  twostate predicate FamilyTaken(ctx: Context, p: Partition)
    reads ctx`log
  {
    forall q :: q in old(ctx.table) && q in Moved(ctx.log, |old(ctx.log)|) ==>
      && (forall k :: old(q.tracer) != 0 && FirstWith(old(ctx.table), k, old(q.tracer)) ==>
                      old(ctx.table)[k] in Tried(ctx.log, |old(ctx.log)|))
      && (forall r :: r in old(ctx.table) && q.tgid == r.tgid && old(q.name) == old(r.name) ==>
                      old(r.partition) == p || r in Tried(ctx.log, |old(ctx.log)|))
      && (forall r :: r in old(ctx.table) && old(q.name in ctx.leaders && r.name in ctx.leaders[q.name]) ==>
                      old(r.partition) == p || r in Tried(ctx.log, |old(ctx.log)|))
  }

  /** The same for what the log is going to be. */
  ghost predicate FamilyDue(ctx: Context, p: Partition, log: seq<Write>)
    reads ctx`table, ctx`leaders, ctx`log, ctx.table`name, ctx.table`tracer, ctx.table`partition
  {
    forall q :: q in ctx.table && q in Moved(log, |ctx.log|) ==>
      && (forall k :: q.tracer != 0 && FirstWith(ctx.table, k, q.tracer) ==> ctx.table[k] in Tried(log, |ctx.log|))
      && (forall r :: r in ctx.table && q.tgid == r.tgid && q.name == r.name ==>
                      r.partition == p || r in Tried(log, |ctx.log|))
      && (forall r :: r in ctx.table && q.name in ctx.leaders && r.name in ctx.leaders[q.name] ==>
                      r.partition == p || r in Tried(log, |ctx.log|))
  }

  lemma {:induction false} LookupIsFirst(table: seq<Process>, k: nat, pid: int)
    requires FirstWith(table, k, pid)
    ensures Lookup(table, pid) == table[k]
  {
    if k > 0 {
      assert table[0].pid != pid;
      LookupIsFirst(table[1..], k - 1, pid);
    }
  }

  /** What follows from a cascade about one process that it moved, and one that this leads. */
  lemma {:induction false} LedIsTaken(s0: Snap, s1: Snap, p: Partition, sources: set<Process>, q: Process, r: Process)
    requires Spreads(s0, s1, p, sources) && q in Moved(s1.log, |s0.log|) && q in s0.edges && r in s0.edges[q] && r in s0.parts
    ensures r in Tried(s1.log, |s0.log|) || (s0.parts[r] == p && r != s0.tracers[q])
  {
    hide Visits, VisitsFrom, Walked;
    assert Taken(s1, p, q, r, |s0.log|);
    assert r in Moved(s1.log, |s0.log|) ==> r in Tried(s1.log, |s0.log|);
    assert s1.parts[r] == if r in Moved(s1.log, |s0.log|) then p else s0.parts[r];
  }

  lemma {:induction false} EdgesAre(ctx: Context, q: Process)
    requires q in ctx.table
    ensures q in Now(ctx).edges && Now(ctx).edges[q] == EdgesOf(ctx, q)
  {
  }

  /** The same about all of them. */
  ghost predicate TakenSince(s0: Snap, s1: Snap, p: Partition) {
    forall q, r :: q in Moved(s1.log, |s0.log|) && q in s0.edges && r in s0.edges[q] && r in s0.parts && q in s0.tracers ==>
      r in Tried(s1.log, |s0.log|) || (s0.parts[r] == p && r != s0.tracers[q])
  }

  lemma {:induction false} AllTaken(s0: Snap, s1: Snap, p: Partition, q: Process)
    requires Led(s0, s1, p, q)
    ensures TakenSince(s0, s1, p)
  {
    hide Spreads, Moved, Tried;
    forall u, r | u in Moved(s1.log, |s0.log|) && u in s0.edges && r in s0.edges[u] && r in s0.parts && u in s0.tracers
      ensures r in Tried(s1.log, |s0.log|) || (s0.parts[r] == p && r != s0.tracers[u])
    {
      LedIsTaken(s0, s1, p, {q}, u, r);
    }
  }

  lemma {:induction false} TracerAsked(ctx: Context, s1: Snap, p: Partition, q: Process, k: nat)
    requires q in ctx.table && q in Moved(s1.log, |ctx.log|) && q.tracer != 0 && FirstWith(ctx.table, k, q.tracer)
    requires TakenSince(Now(ctx), s1, p)
    ensures ctx.table[k] in Tried(s1.log, |ctx.log|)
  {
    hide Now, Lookup, Moved, Tried, LeadsByName;
    EdgesAre(ctx, q);
    LookupIsFirst(ctx.table, k, q.tracer);
  }

  lemma {:induction false} FollowerAsked(ctx: Context, s1: Snap, p: Partition, q: Process, r: Process)
    requires TakenSince(Now(ctx), s1, p) && q in ctx.table && q in Moved(s1.log, |ctx.log|)
    requires r in ctx.table && LeadsByName(ctx.leaders, q, r)
    ensures r.partition == p || r in Tried(s1.log, |ctx.log|)
  {
    hide Now, Lookup, Moved, Tried, TracerOf, LeadsByName;
    EdgesAre(ctx, q);
  }

  lemma {:induction false} LedFamily(ctx: Context, s1: Snap, p: Partition)
    requires TakenSince(Now(ctx), s1, p)
    ensures FamilyDue(ctx, p, s1.log)
  {
    hide TakenSince, Now, Moved, Tried, TracerOf, EdgesOf, OrdersTo;
    forall q, k | q in ctx.table && q in Moved(s1.log, |ctx.log|) && q.tracer != 0 && FirstWith(ctx.table, k, q.tracer)
      ensures ctx.table[k] in Tried(s1.log, |ctx.log|)
    {
      TracerAsked(ctx, s1, p, q, k);
    }
    forall q, r | q in ctx.table && q in Moved(s1.log, |ctx.log|) && r in ctx.table && q.tgid == r.tgid && q.name == r.name
      ensures r.partition == p || r in Tried(s1.log, |ctx.log|)
    {
      FollowerAsked(ctx, s1, p, q, r);
    }
    forall q, r | q in ctx.table && q in Moved(s1.log, |ctx.log|) && r in ctx.table
                  && q.name in ctx.leaders && r.name in ctx.leaders[q.name]
      ensures r.partition == p || r in Tried(s1.log, |ctx.log|)
    {
      FollowerAsked(ctx, s1, p, q, r);
    }
  }

  /** With every process in it the set has those that the process traces or leads by name. */
  ghost predicate Family(ctx: Context, family: set<Process>)
    reads ctx`table, ctx`leaders, ctx.table`name, ctx.table`tracer
  {
    forall q, k :: q in ctx.table && q in family && 0 <= k < |ctx.table| ==>
      var r := ctx.table[k];
      (|| (q.tracer != 0 && FirstWith(ctx.table, k, q.tracer))
       || (q.tgid == r.tgid && q.name == r.name)
       || (q.name in ctx.leaders && r.name in ctx.leaders[q.name])) ==> r in family
  }

  lemma {:induction false} LookupIsOldest(table: seq<Process>, pid: int) returns (k: int)
    requires Lookup(table, pid) != null
    ensures FirstWith(table, k, pid) && table[k] == Lookup(table, pid)
  {
    if table[0].pid == pid {
      k := 0;
    } else {
      k := LookupIsOldest(table[1..], pid);
      k := k + 1;
      assert forall j :: 0 < j < k ==> table[j] == table[1..][j - 1];
    }
  }

  lemma {:induction false} FamilyIsLed(ctx: Context, family: set<Process>, q: Process, r: Process)
    requires Family(ctx, family) && q in ctx.table && q in family && r in EdgesOf(ctx, q)
    ensures r in family
  {
    var k :| 0 <= k < |ctx.table| && ctx.table[k] == r;
    if q.tracer != 0 && r == Lookup(ctx.table, q.tracer) {
      var i := LookupIsOldest(ctx.table, q.tracer);
      assert ctx.table[i] == r;
    }
  }

  /** Nobody outside a family is ever asked to move with one of its members. */
  lemma {:induction false} OnlyFamilyAsked(ctx: Context, s1: Snap, p: Partition, family: set<Process>, q: Process)
    requires Family(ctx, family) && q in ctx.table && q in family
    requires Led(Now(ctx), s1, p, q)
    ensures Tried(s1.log, |ctx.log|) <= family
  {
    hide Family, Now, VisitsIn, Snap.Valid, Closed, EdgesOf;
    forall u, r | u in family && u in ctx.table && r in Now(ctx).edges[u]
      ensures r in family
    {
      EdgesAre(ctx, u);
      FamilyIsLed(ctx, family, u, r);
    }
    forall r | r in Tried(s1.log, |ctx.log|)
      ensures r in family
    {
      var i :| |ctx.log| <= i < |s1.log| && s1.log[i].process == r;
      assert VisitsFrom(Now(ctx), p, {q}, r);
      var n: nat :| VisitsIn(Now(ctx), p, q, r, n);
      VisitsStay(Now(ctx), p, family, q, r, n);
    }
  }

  /** If no write failed since then, all asked to move have arrived. */
  ghost predicate Arrived(ctx: Context, p: Partition, from: nat)
    reads ctx`table, ctx`log, ctx.table`partition
  {
    AllWritten(ctx.log, from) ==> forall r :: r in ctx.table && r in Tried(ctx.log, from) ==> r.partition == p
  }

  lemma {:induction false} LedArrives(ctx: Context, s0: Snap, p: Partition, q: Process)
    requires Led(s0, Now(ctx), p, q)
    ensures Arrived(ctx, p, |s0.log|)
  {
    hide Now, Snap.Valid, Spreads, Tried, AllWritten;
    LedSpreads(s0, Now(ctx), p, q);
    if AllWritten(ctx.log, |s0.log|) {
      GrantedAreInside(s0, Now(ctx), p, {q});
    }
  }

  lemma {:induction false} GrantedAreInside(s0: Snap, s1: Snap, p: Partition, sources: set<Process>)
    requires Spreads(s0, s1, p, sources) && AllWritten(s1.log, |s0.log|)
    ensures forall r :: r in Tried(s1.log, |s0.log|) ==> r in s1.parts && s1.parts[r] == p
  {
    hide Visits, VisitsFrom, Walked, Closed;
    TriedIsMoved(s1.log, |s0.log|);
    forall r | r in Tried(s1.log, |s0.log|)
      ensures r in s1.parts && s1.parts[r] == p
    {
      var i :| |s0.log| <= i < |s1.log| && s1.log[i].process == r;
      assert s1.log[i].process in s0.edges;
    }
  }

  /** Done to the depth where the recursion ends by itself: see module Halting for when it does. */
  method PartitionAddProcess(ctx: Context, p: Partition, q: Process, ghost depth: nat) returns (success: bool)
    requires q in ctx.table && Add(Now(ctx), p, q, ctx.kernel, depth).Some?
    modifies ctx`log, ctx.table`partition, ctx.table`tracer
    ensures Now(ctx) == Add(old(Now(ctx)), p, q, ctx.kernel, depth).value
    ensures Led(old(Now(ctx)), Now(ctx), p, q)
    ensures success <==> ctx.log[|old(ctx.log)|].result != Failed
    ensures FamilyTaken(ctx, p) && Arrived(ctx, p, |old(ctx.log)|)
    decreases depth, 0, 1
  {
    hide Now, Add, Act, Walk, Repeat, Snap.Valid, Led, Spreads, Spread.Followed, Arrived, Moved, Tried, TakenSince;
    hide FirstWith, Lookup, TracerOf, LeadsByName;
    ghost var s0 := Now(ctx);
    AddLeads(s0, p, q, ctx.kernel, depth);
    ghost var s1 := Add(s0, p, q, ctx.kernel, depth).value;
    AllTaken(s0, s1, p, q);
    LedFamily(ctx, s1, p);
    success := MoveAndLead(ctx, p, q, depth);
    assert FamilyTaken(ctx, p);
    LedArrives(ctx, s0, p, q);
  }

  /** The write, and on success the orders. */
  method MoveAndLead(ctx: Context, p: Partition, q: Process, ghost depth: nat) returns (success: bool)
    requires q in ctx.table && Add(Now(ctx), p, q, ctx.kernel, depth).Some?
    modifies ctx`log, ctx.table`partition, ctx.table`tracer
    ensures Now(ctx) == Add(old(Now(ctx)), p, q, ctx.kernel, depth).value
    ensures success <==> ctx.kernel(|old(ctx.log)|) != Failed
    decreases depth, 0, 0
  {
    hide Now, Add, Act, Walk, Repeat, Snap.Valid, Led, Spreads, Spread.Followed;
    AddStep(Now(ctx), p, q, ctx.kernel, depth);
    var chk := MoveTask(ctx, p, q);
    success := chk != Failed;
    if chk == Written {
      LeaderActs(ctx, p, q, depth - 1);
    }
  }

  method LeaderActs(ctx: Context, p: Partition, q: Process, ghost depth: nat)
    requires q in ctx.table && q.partition == p && Act(Now(ctx), p, q, ctx.kernel, depth).Some?
    modifies ctx`log, ctx.table`partition, ctx.table`tracer
    ensures Now(ctx) == Act(old(Now(ctx)), p, q, ctx.kernel, depth).value
    ensures Spreads(old(Now(ctx)), Now(ctx), p, {q}) && Spread.Followed(Now(ctx), p, q, |old(ctx.log)|)
    decreases depth, 3
  {
    hide FamilyTaken, Arrived;
    hide Now, Add, Act, Walk, Repeat, Snap.Valid, Led, Spreads, Spread.Followed;
    ghost var s0 := Now(ctx);
    ActStep(s0, p, q, ctx.kernel, depth);
    ActLeads(s0, p, q, ctx.kernel, depth);
    LeadTable(ctx, p, q, depth);
    if q.tracer != 0 {
      var tracer := Lookup(ctx.table, q.tracer);
      if tracer != null {
        var _ := PartitionAddProcess(ctx, p, tracer, depth);
      } else {
        ForgetTracer(ctx, q);
      }
    }
  }

  /** The walk over the process table. */
  method LeadTable(ctx: Context, p: Partition, q: Process, ghost depth: nat)
    requires q in ctx.table && q.partition == p && Walk(Now(ctx), p, q, 0, ctx.kernel, depth).Some?
    modifies ctx`log, ctx.table`partition, ctx.table`tracer
    ensures Now(ctx) == Walk(old(Now(ctx)), p, q, 0, ctx.kernel, depth).value
    decreases depth, 2
  {
    hide Now, Add, Act, Walk, Repeat, Snap.Valid, Later, Follows, Led, Spreads, Lookup, TracerOf, OrdersTo, Times, Due;
    ghost var whole := Walk(Now(ctx), p, q, 0, ctx.kernel, depth);
    var table := ctx.table;
    for i := 0 to |table|
      invariant q.partition == p && Walk(Now(ctx), p, q, i, ctx.kernel, depth) == whole
    {
      LeadEntry(ctx, p, q, i, depth);
    }
    WalkStep(Now(ctx), p, q, |table|, ctx.kernel, depth);
  }

  method LeadEntry(ctx: Context, p: Partition, q: Process, i: nat, ghost depth: nat)
    requires q in ctx.table && q.partition == p && i < |ctx.table| && Walk(Now(ctx), p, q, i, ctx.kernel, depth).Some?
    modifies ctx`log, ctx.table`partition, ctx.table`tracer
    ensures Walk(Now(ctx), p, q, i + 1, ctx.kernel, depth) == Walk(old(Now(ctx)), p, q, i, ctx.kernel, depth)
    ensures q.partition == p
    decreases depth, 1, 4
  {
    hide Now, Add, Act, Walk, Repeat, Snap.Valid, Later, Follows, Led, Spreads, Lookup, TracerOf, OrdersTo, Times, Due;
    ghost var s := Now(ctx);
    WalkStep(s, p, q, i, ctx.kernel, depth);
    LeadFollowers(ctx, p, q, ctx.table[i], s.walks[q][i].times, depth);
  }

  /** The tracer has exited: nothing changes for anybody else. */
  method ForgetTracer(ctx: Context, q: Process)
    requires q in ctx.table && TracerOf(ctx.table, q) == null
    modifies q`tracer
    ensures q.tracer == 0 && Now(ctx) == old(Now(ctx))
  {
    ghost var s := Now(ctx);
    hide WalkMap, Snap.Valid, WalkOf, LeadsByName, Lookup;
    q.tracer := 0;
    assert WalkMap(ctx) == s.walks && PartitionMap(ctx) == s.parts;
    assert TracerMap(ctx) == s.tracers;
    assert forall r :: r in ctx.table ==> EdgesOf(ctx, r) == old(EdgesOf(ctx, r));
    assert EdgeMap(ctx) == s.edges;
  }

  /** What an order leaves. */
  ghost predicate Obeyed(s: Snap, t: Snap, p: Partition, o: Order, kernel: Kernel, depth: nat)
    requires s.Valid() && o.process in s.edges
  {
    if Due(s, p, o) then Repeat(s, p, o.process, o.times, kernel, depth) == Some(t) else t == s
  }

  /** The callback, on one entry: lead it unless it is in the partition already. */
  method LeadFollowers(ctx: Context, p: Partition, q: Process, proc: Process, ghost times: nat, ghost depth: nat)
    requires q in ctx.table && q.partition == p && proc in ctx.table && times == Times(ctx.leaders, q, proc)
    requires Due(Now(ctx), p, Order(proc, times)) ==> Repeat(Now(ctx), p, proc, times, ctx.kernel, depth).Some?
    modifies ctx`log, ctx.table`partition, ctx.table`tracer
    ensures Obeyed(old(Now(ctx)), Now(ctx), p, Order(proc, times), ctx.kernel, depth) && q.partition == p
    decreases depth, 1, 3
  {
    hide Now, Add, Act, Walk, Repeat, Snap.Valid, Count;
    if q.partition == proc.partition { return; }
    if q.tgid == proc.tgid && q.name == proc.name {
      LeadTask(ctx, p, proc, 1, depth);
      RepeatStep(Now(ctx), p, proc, 0, ctx.kernel, depth);
    } else if q.name in ctx.leaders {
      RepeatStep(Now(ctx), p, proc, times, ctx.kernel, depth);
      LeadNamed(ctx, p, ctx.leaders[q.name], proc, depth);
    }
  }

  /** One of the orders still to give to an entry. */
  method LeadTask(ctx: Context, p: Partition, proc: Process, ghost left: nat, ghost depth: nat)
    requires proc in ctx.table && left > 0 && Repeat(Now(ctx), p, proc, left, ctx.kernel, depth).Some?
    modifies ctx`log, ctx.table`partition, ctx.table`tracer
    ensures Repeat(Now(ctx), p, proc, left - 1, ctx.kernel, depth) == Repeat(old(Now(ctx)), p, proc, left, ctx.kernel, depth)
    decreases depth, 1, 0
  {
    hide FamilyTaken, Arrived;
    hide Now, Add, Act, Walk, Repeat, Snap.Valid, Later, Follows, Led, Spreads, Lookup, TracerOf;
    RepeatStep(Now(ctx), p, proc, left, ctx.kernel, depth);
    var _ := PartitionAddProcess(ctx, p, proc, depth);
  }

  /** The walk over the names of the leader's followers. */
  method LeadNamed(ctx: Context, p: Partition, followers: seq<string>, proc: Process, ghost depth: nat)
    requires proc in ctx.table && Repeat(Now(ctx), p, proc, Count(followers, proc.name), ctx.kernel, depth).Some?
    modifies ctx`log, ctx.table`partition, ctx.table`tracer
    ensures Repeat(old(Now(ctx)), p, proc, Count(followers, proc.name), ctx.kernel, depth) == Some(Now(ctx))
    decreases depth, 1, 2
  {
    hide Now, Add, Act, Walk, Repeat, Snap.Valid, Later, Follows, Led, Spreads, Lookup, TracerOf, Count;
    var name := proc.name;
    CountEnds(followers, name);
    ghost var whole := Repeat(Now(ctx), p, proc, Count(followers, name), ctx.kernel, depth);
    for i := 0 to |followers|
      invariant Repeat(Now(ctx), p, proc, Count(followers[i..], name), ctx.kernel, depth) == whole
    {
      LeadFollower(ctx, p, followers, i, name, proc, depth);
    }
    RepeatStep(Now(ctx), p, proc, 0, ctx.kernel, depth);
  }

  method LeadFollower(ctx: Context, p: Partition, followers: seq<string>, i: nat, name: string, proc: Process, ghost depth: nat)
    requires proc in ctx.table && i < |followers|
    requires Repeat(Now(ctx), p, proc, Count(followers[i..], name), ctx.kernel, depth).Some?
    modifies ctx`log, ctx.table`partition, ctx.table`tracer
    ensures Repeat(Now(ctx), p, proc, Count(followers[i + 1..], name), ctx.kernel, depth)
         == Repeat(old(Now(ctx)), p, proc, Count(followers[i..], name), ctx.kernel, depth)
    decreases depth, 1, 1
  {
    hide Now, Add, Act, Walk, Repeat, Snap.Valid, Later, Follows, Led, Spreads, Lookup, TracerOf, Count;
    CountFrom(followers, i, name);
    if followers[i] == name {
      LeadTask(ctx, p, proc, Count(followers[i..], name), depth);
    }
  }
}
