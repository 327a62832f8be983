/** Moving whole groups, again after a thaw, and the table of leaders. */
module Reparent {
  import opened Sequences
  import opened CgroupTypes
  import opened Spread
  import opened Cascade
  import opened Leading
  import opened Halting

  /** The members of a group that a request for `pid` concerns; 0 stands for all. */
  ghost function Members(processes: seq<Process>, pid: int): set<Process> {
    set m | m in processes && (pid == 0 || m.pid == pid)
  }

  ghost predicate Inside(s: Snap, p: Partition, processes: set<Process>) {
    forall m :: m in processes ==> m in s.parts && s.parts[m] == p
  }

  /** Processes for which the kernel refused a move, other than because they are gone. */
  ghost function Refused(log: seq<Write>, from: nat): set<Process> {
    set i | from <= i < |log| && log[i].result == Failed :: log[i].process
  }

  ghost function Vanished(log: seq<Write>, from: nat): set<Process> {
    set i | from <= i < |log| && log[i].result == NoSuchProcess :: log[i].process
  }

  lemma {:induction false} RefusedGrows(a: seq<Write>, b: seq<Write>, from: nat)
    requires a <= b
    ensures Refused(a, from) <= Refused(b, from) && Vanished(a, from) <= Vanished(b, from)
    ensures AllWritten(b, from) ==> AllWritten(a, from)
  {
    assert forall i :: 0 <= i < |a| ==> b[i] == a[i];
    forall r | r in Refused(a, from)
      ensures r in Refused(b, from)
    {
      var i :| from <= i < |a| && a[i].result == Failed && a[i].process == r;
      assert b[i] == a[i];
    }
    forall r | r in Vanished(a, from)
      ensures r in Vanished(b, from)
    {
      var i :| from <= i < |a| && a[i].result == NoSuchProcess && a[i].process == r;
      assert b[i] == a[i];
    }
  }

  /** What the log and the success say about the members in `done`. */
  ghost predicate Reported(s0: Snap, s1: Snap, p: Partition, sources: set<Process>, done: set<Process>, success: bool) {
    && (AllWritten(s1.log, |s0.log|) ==> success && Inside(s1, p, done))
    && (success ==> Inside(s1, p, done - Vanished(s1.log, |s0.log|)))
    && (!success ==> sources * Refused(s1.log, |s0.log|) != {})
  }

  /** The members in `done` have been handled since `s0`, with this overall success. */
  ghost predicate Handled(s0: Snap, s1: Snap, p: Partition, sources: set<Process>, done: set<Process>, success: bool) {
    Spreads(s0, s1, p, sources) && done <= sources && Reported(s0, s1, p, sources, done, success)
  }

  /** One more member handled by a call of partition_add_process. */
  lemma {:induction false} MemberMoved(s0: Snap, s1: Snap, s2: Snap, p: Partition, sources: set<Process>, m: Process,
                    done: set<Process>, success: bool)
    requires Handled(s0, s1, p, sources, done, success) && m in sources && Led(s1, s2, p, m)
    ensures Handled(s0, s2, p, sources, done + {m}, success && s2.log[|s1.log|].result != Failed)
  {
    hide Visits, VisitsFrom, Closed, Walked, Snap.Valid, Reported;
    SourceVisited(s0, p, sources, m);
    SpreadsJoin(s0, s1, s2, p, sources, {m});
    MemberReported(s0, s1, s2, p, sources, m, done, success);
  }

  /** The first write of a call tells what became of its process. */
  lemma {:induction false} FirstReported(a: seq<Write>, b: seq<Write>, from: nat, m: Process)
    requires from <= |a| < |b| && b[|a|].process == m
    ensures b[|a|].result == Failed ==> m in Refused(b, from)
    ensures b[|a|].result == NoSuchProcess ==> m in Vanished(b, from)
  {
  }

  lemma {:induction false} InsideStays(s: Snap, t: Snap, p: Partition, members: set<Process>)
    requires Later(s, t, p)
    ensures Inside(s, p, members) ==> Inside(t, p, members)
  {
  }

  lemma {:induction false} LedIsInside(s: Snap, t: Snap, p: Partition, m: Process)
    requires Led(s, t, p, m)
    ensures m in s.parts && m in t.parts && (t.log[|s.log|].result == Written ==> t.parts[m] == p)
  {
    hide Visits, VisitsFrom, Closed, Walked;
    var first := t.log[|s.log|];
    assert first.result == Written ==> m in Moved(t.log, |s.log|);
  }

  lemma {:induction false} MemberReported(s0: Snap, s1: Snap, s2: Snap, p: Partition, sources: set<Process>, m: Process,
                    done: set<Process>, success: bool)
    requires Reported(s0, s1, p, sources, done, success) && s0.log <= s1.log && m in sources
    requires Led(s1, s2, p, m)
    ensures Reported(s0, s2, p, sources, done + {m}, success && s2.log[|s1.log|].result != Failed)
  {
    hide Visits, VisitsFrom, Closed, Walked, Snap.Valid, Refused, Vanished;
    RefusedGrows(s1.log, s2.log, |s0.log|);
    FirstReported(s1.log, s2.log, |s0.log|, m);
    LedIsInside(s1, s2, p, m);
    assert s2.log[|s1.log|].result == Failed ==> m in sources * Refused(s2.log, |s0.log|);
    assert sources * Refused(s1.log, |s0.log|) <= sources * Refused(s2.log, |s0.log|);
    InsideStays(s1, s2, p, done);
    InsideStays(s1, s2, p, done - Vanished(s1.log, |s0.log|));
  }

  /** A member that is in the partition needs no call. */
  lemma {:induction false} MemberInside(s0: Snap, s1: Snap, p: Partition, sources: set<Process>, m: Process,
                    done: set<Process>, success: bool)
    requires Handled(s0, s1, p, sources, done, success) && m in sources && m in s1.parts && s1.parts[m] == p
    ensures Handled(s0, s1, p, sources, done + {m}, success)
  {
    hide Spreads;
  }

  method PartitionAddGroup(ctx: Context, p: Partition, group: Group, pid: int) returns (success: bool)
    requires NoneAhead(Now(ctx), p, Members(group.processes, pid)) && forall m :: m in group.processes ==> m in ctx.table
    modifies ctx`log, ctx.table`partition, ctx.table`tracer, group`partition, group`reassign
    ensures Handled(old(Now(ctx)), Now(ctx), p, Members(group.processes, pid), Members(group.processes, pid), success)
    ensures group.partition == p && group.reassign == (old(group.reassign) || !success)
    ensures AllWritten(ctx.log, |old(ctx.log)|) ==>
              success && AllIn(group, pid, p)
    ensures old(AllIn(group, pid, p)) ==> success && ctx.log == old(ctx.log)
    ensures Moves(old(Now(ctx)), p, Concerned(group.processes, pid), ctx.kernel, Now(ctx))
  {
    hide AllWritten, AllIn, Moves, Inside;
    hide Now, NoneAhead, Snap.Valid, Handled, Members;
    ghost var s0 := Now(ctx);
    MembersInside(ctx, p, group, pid);
    success := AddMembers(ctx, p, group, pid);
    SetGroup(ctx, group, p, group.reassign || !success);
    HandledAreInside(ctx, s0, p, group, pid, success);
  }

  /** All members that a request for `pid` concerns are in the partition. */
  ghost predicate AllIn(group: Group, pid: int, p: Partition)
    reads group`processes, group.processes`partition
  {
    forall m :: m in group.processes && (pid == 0 || m.pid == pid) ==> m.partition == p
  }

  lemma {:induction false} MembersInside(ctx: Context, p: Partition, group: Group, pid: int)
    requires forall m :: m in group.processes ==> m in ctx.table
    ensures AllIn(group, pid, p) ==> Inside(Now(ctx), p, Members(group.processes, pid))
  {
    hide Now;
  }

  lemma {:induction false} HandledAreInside(ctx: Context, s0: Snap, p: Partition, group: Group, pid: int, success: bool)
    requires Handled(s0, Now(ctx), p, Members(group.processes, pid), Members(group.processes, pid), success)
    ensures AllWritten(ctx.log, |s0.log|) ==> success && AllIn(group, pid, p)
  {
    hide Now, Spreads;
    InTable(ctx);
  }

  /** Changing a group leaves the processes alone. */
  method SetGroup(ctx: Context, group: Group, p: Partition, reassign: bool)
    modifies group`partition, group`reassign
    ensures group.partition == p && group.reassign == reassign && Now(ctx) == old(Now(ctx))
  {
    hide Now, Snap.Valid;
    group.partition := p;
    group.reassign := reassign;
  }

  /** The walk over the group's members. */
  method AddMembers(ctx: Context, p: Partition, group: Group, pid: int) returns (success: bool)
    requires NoneAhead(Now(ctx), p, Members(group.processes, pid)) && forall m :: m in group.processes ==> m in ctx.table
    modifies ctx`log, ctx.table`partition, ctx.table`tracer
    ensures Handled(old(Now(ctx)), Now(ctx), p, Members(group.processes, pid), Members(group.processes, pid), success)
    ensures Inside(old(Now(ctx)), p, Members(group.processes, pid)) ==> success && Now(ctx) == old(Now(ctx))
    ensures Moves(old(Now(ctx)), p, Concerned(group.processes, pid), ctx.kernel, Now(ctx))
  {
    hide Now, NoneAhead, Snap.Valid, Handled, Members, Moves, Inside, Concerned;
    ghost var s0, sources, done: set<Process> := Now(ctx), Members(group.processes, pid), {};
    MovesNone(s0, p, ctx.kernel);
    ConcernedNext(group.processes, 0, pid);
    NothingHandled(s0, p, group.processes, pid);
    success := true;
    var processes := group.processes;
    for i := 0 to |processes|
      invariant Handled(s0, Now(ctx), p, sources, done, success)
      invariant done == Members(processes[..i], pid)
      invariant Inside(s0, p, sources) ==> success && Now(ctx) == s0
      invariant Moves(s0, p, Concerned(processes[..i], pid), ctx.kernel, Now(ctx))
    {
      MembersNext(processes, i, pid);
      ConcernedNext(processes, i, pid);
      if pid == 0 || processes[i].pid == pid {
        ghost var s1 := Now(ctx);
        InsideStayed(s0, p, sources, processes[i]);
        success := AddMember(ctx, p, processes[i], success, s0, sources, done);
        MovesJoin(s0, s1, Now(ctx), p, Concerned(processes[..i], pid), [processes[i]], ctx.kernel);
        done := done + {processes[i]};
      }
    }
    assert processes[..|processes|] == processes;
  }

  /** The members concerned, in the order of the list. */
  function Concerned(processes: seq<Process>, pid: int): seq<Process> {
    if processes == [] then []
    else
      var n := |processes| - 1;
      Concerned(processes[..n], pid) + if pid == 0 || processes[n].pid == pid then [processes[n]] else []
  }

  /** They are the members that a request concerns, kept in order. */
  lemma {:induction false} ConcernedInOrder(a: seq<Process>, b: seq<Process>, pid: int)
    ensures Concerned(a + b, pid) == Concerned(a, pid) + Concerned(b, pid)
    ensures forall m :: m in Concerned(b, pid) <==> m in Members(b, pid)
    decreases |b|
  {
    if b == [] {
      assert a + b == a;
    } else {
      var n := |b| - 1;
      assert (a + b)[..|a| + n] == a + b[..n];
      ConcernedInOrder(a, b[..n], pid);
      assert b == b[..n] + [b[n]];
    }
  }

  lemma {:induction false} ConcernedNext(processes: seq<Process>, i: nat, pid: int)
    ensures Concerned(processes[..0], pid) == []
    ensures i < |processes| ==>
              Concerned(processes[..i + 1], pid) ==
              if pid == 0 || processes[i].pid == pid then Concerned(processes[..i], pid) + [processes[i]]
              else Concerned(processes[..i], pid)
  {
    if i < |processes| {
      assert processes[..i + 1][..i] == processes[..i];
      assert Concerned(processes[..i], pid) + [] == Concerned(processes[..i], pid);
    }
  }

  lemma {:induction false} InsideStayed(s: Snap, p: Partition, sources: set<Process>, m: Process)
    requires m in sources
    ensures Inside(s, p, sources) ==> m in s.parts && s.parts[m] == p
  {
  }

  lemma {:induction false} NothingHandled(s: Snap, p: Partition, processes: seq<Process>, pid: int)
    requires s.Valid()
    ensures Members(processes[..0], pid) == {} && Handled(s, s, p, Members(processes, pid), {}, true)
  {
    SpreadsNowhere(s, p, Members(processes, pid));
  }

  lemma {:induction false} MembersNext(processes: seq<Process>, i: nat, pid: int)
    requires i < |processes|
    ensures Members(processes[..i + 1], pid) == Members(processes[..i], pid) + Members([processes[i]], pid)
    ensures Members([processes[i]], pid) == if pid == 0 || processes[i].pid == pid then {processes[i]} else {}
    ensures Members(processes[..i + 1], pid) <= Members(processes, pid)
  {
    assert processes[..i + 1] == processes[..i] + [processes[i]];
  }

  lemma {:induction false} MemberHalts(s0: Snap, s1: Snap, p: Partition, sources: set<Process>, m: Process,
                    done: set<Process>, success: bool)
    requires Handled(s0, s1, p, sources, done, success) && NoneAhead(s0, p, sources)
    requires m in sources && m in s1.parts && s1.parts[m] != p
    ensures NoCycleAhead(s1, p, m)
  {
    hide NoCycleAhead, Reported;
    NoneAheadLater(s0, s1, p, sources, sources);
  }

  /** A member outside the partition is moved there. */
  method AddMember(ctx: Context, p: Partition, m: Process, success: bool,
                   ghost s0: Snap, ghost sources: set<Process>, ghost done: set<Process>)
    returns (now: bool)
    requires m in ctx.table && m in sources
    requires Handled(s0, Now(ctx), p, sources, done, success) && NoneAhead(s0, p, sources)
    modifies ctx`log, ctx.table`partition, ctx.table`tracer
    ensures Handled(s0, Now(ctx), p, sources, done + {m}, now)
    ensures old(m.partition) == p ==> now == success && Now(ctx) == old(Now(ctx))
    ensures Moves(old(Now(ctx)), p, [m], ctx.kernel, Now(ctx))
  {
    hide Now, Add, NoneAhead, NoCycleAhead, Handled, Snap.Valid, Spreads, Moves, FamilyTaken, Arrived;
    ghost var s1, depth := Now(ctx), 0;
    now := success;
    if m.partition != p {
      MemberHalts(s0, s1, p, sources, m, done, success);
      depth := AheadHalts(s1, p, m, ctx.kernel);
      var result := PartitionAddProcess(ctx, p, m, depth);
      MemberMoved(s0, s1, Now(ctx), p, sources, m, done, success);
      now := success && result;
    } else {
      MemberInside(s0, Now(ctx), p, sources, m, done, success);
    }
    MovesOne(s1, p, m, ctx.kernel, depth, Now(ctx));
  }

  // --- thawing

  /** The groups a thaw of `p` has to move again. */
  ghost predicate Flagged(group: Group, p: Partition)
    reads group`partition, group`reassign
  {
    group.partition == p && group.reassign
  }

  ghost predicate MembersInTable(ctx: Context)
    reads ctx`table, ctx`groups, ctx.groups`processes
  {
    forall g, m :: g in ctx.groups && m in g.processes ==> m in ctx.table
  }

  ghost function FlaggedMembers(groups: seq<Group>, p: Partition): set<Process>
    reads groups`partition, groups`reassign, groups`processes
  {
    set g, m | g in groups && Flagged(g, p) && m in g.processes :: m
  }

  /** The members of one group that a thaw of `p` has to move. */
  ghost function Owed(group: Group, p: Partition): set<Process>
    reads group`partition, group`reassign, group`processes
  {
    if Flagged(group, p) then Members(group.processes, 0) else {}
  }

  /** Since `s0` only sources and what they visit were moved, and without a failure `done` are all inside. */
  ghost predicate Brought(s0: Snap, s1: Snap, p: Partition, sources: set<Process>, done: set<Process>) {
    Spreads(s0, s1, p, sources) && (AllWritten(s1.log, |s0.log|) ==> Inside(s1, p, done))
  }

  /** What was in the partition stays there, whoever is moved next. */
  lemma {:induction false} GroupMoved(s0: Snap, s1: Snap, s2: Snap, p: Partition, sources: set<Process>, members: set<Process>,
                   done: set<Process>, success: bool)
    requires Brought(s0, s1, p, sources, done)
    requires Handled(s1, s2, p, members, members, success) && members <= sources
    ensures Brought(s0, s2, p, sources, done + members)
  {
    hide Visits, VisitsFrom, Closed, Walked, Snap.Valid;
    forall m | m in members
      ensures VisitsFrom(s0, p, sources, m)
    {
      SourceVisited(s0, p, sources, m);
    }
    SpreadsJoin(s0, s1, s2, p, sources, members);
    RefusedGrows(s1.log, s2.log, |s0.log|);
    InsideStays(s1, s2, p, done);
  }

  /** What each group of a list has to move. */
  ghost function OwedBy(groups: seq<Group>, p: Partition): (owed: seq<set<Process>>)
    reads groups`partition, groups`reassign, groups`processes
    ensures |owed| == |groups|
    ensures forall k :: 0 <= k < |groups| ==> owed[k] == Owed(groups[k], p)
  {
    if groups == [] then []
    else
      var n := |groups| - 1;
      OwedBy(groups[..n], p) + [Owed(groups[n], p)]
  }

  /** Whom the turn of a group moves, in order. */
  ghost function Turn(group: Group, p: Partition): seq<Process>
    reads group`partition, group`reassign, group`processes
  {
    if Flagged(group, p) then Concerned(group.processes, 0) else []
  }

  ghost function TurnsOf(groups: seq<Group>, p: Partition): (turns: seq<seq<Process>>)
    reads groups`partition, groups`reassign, groups`processes
    ensures |turns| == |groups|
    ensures forall k :: 0 <= k < |groups| ==> turns[k] == Turn(groups[k], p)
  {
    if groups == [] then []
    else
      var n := |groups| - 1;
      TurnsOf(groups[..n], p) + [Turn(groups[n], p)]
  }

  function Flat(turns: seq<seq<Process>>): seq<Process> {
    if turns == [] then [] else Flat(turns[..|turns| - 1]) + turns[|turns| - 1]
  }

  lemma {:induction false} FlatNext(turns: seq<seq<Process>>, i: nat)
    ensures Flat(turns[..0]) == []
    ensures i < |turns| ==> Flat(turns[..i + 1]) == Flat(turns[..i]) + turns[i]
    ensures turns[..|turns|] == turns
  {
    if i < |turns| {
      assert turns[..i + 1][..i] == turns[..i];
    }
  }

  lemma {:induction false} SomeGroupOwes(groups: seq<Group>, p: Partition, m: Process) returns (k: nat)
    requires m in FlaggedMembers(groups, p)
    ensures k < |groups| && m in Owed(groups[k], p)
  {
    var g :| g in groups && Flagged(g, p) && m in g.processes;
    k :| k < |groups| && groups[k] == g;
  }

  ghost predicate Covered(sources: set<Process>, owed: seq<set<Process>>) {
    forall m :: m in sources ==> exists k :: 0 <= k < |owed| && m in owed[k]
  }

  /** All flagged members are owed by some group, and no others. */
  lemma {:induction false} OwedAreFlagged(groups: seq<Group>, p: Partition)
    ensures var owed := OwedBy(groups, p);
            && (forall k :: 0 <= k < |owed| ==> owed[k] <= FlaggedMembers(groups, p))
            && Covered(FlaggedMembers(groups, p), owed)
  {
    forall m | m in FlaggedMembers(groups, p)
      ensures exists k :: 0 <= k < |groups| && m in OwedBy(groups, p)[k]
    {
      var k := SomeGroupOwes(groups, p, m);
      assert m in OwedBy(groups, p)[k];
    }
  }

  /** The loop over the groups; `owed` is what they had to move before it. */
  method FixupGroups(ctx: Context, p: Partition, ghost s0: Snap, ghost sources: set<Process>,
                     ghost owed: seq<set<Process>>)
    returns (ghost done: set<Process>)
    requires NoDuplicates(ctx.groups) && MembersInTable(ctx)
    requires s0 == Now(ctx) && NoneAhead(s0, p, sources)
    requires owed == OwedBy(ctx.groups, p) && forall k :: 0 <= k < |owed| ==> owed[k] <= sources
    modifies ctx`log, ctx.table`partition, ctx.table`tracer, ctx.groups`partition, ctx.groups`reassign
    ensures Brought(s0, Now(ctx), p, sources, done)
    ensures forall k :: 0 <= k < |owed| ==> owed[k] <= done
    ensures forall g :: g in ctx.groups ==> g.partition == old(g.partition)
    ensures forall g :: g in ctx.groups ==> g.reassign == (old(g.reassign) && old(g.partition) != p)
    ensures Moves(s0, p, old(Flat(TurnsOf(ctx.groups, p))), ctx.kernel, Now(ctx))
  {
    hide Now, NoneAhead, Snap.Valid, Brought, OwedBy, Members, Moves, TurnsOf, Flat, Concerned, Turn, Owed;
    var groups := ctx.groups;
    ghost var turns := TurnsOf(groups, p);
    done := {};
    MovesNone(s0, p, ctx.kernel);
    FlatNext(turns, 0);
    NothingBrought(s0, p, sources);
    for i := 0 to |groups|
      invariant Brought(s0, Now(ctx), p, sources, done)
      invariant forall k :: 0 <= k < |groups| ==> groups[k].partition == old(groups[k].partition)
      invariant forall k :: 0 <= k < i ==> groups[k].reassign == (old(groups[k].reassign) && old(groups[k].partition) != p)
      invariant forall k :: i <= k < |groups| ==> groups[k].reassign == old(groups[k].reassign)
      invariant forall k :: 0 <= k < i ==> owed[k] <= done
      invariant Moves(s0, p, Flat(turns[..i]), ctx.kernel, Now(ctx))
    {
      assert Owed(groups[i], p) == owed[i] && Turn(groups[i], p) == turns[i];
      ghost var s1 := Now(ctx);
      done := FixupGroup(ctx, p, groups[i], s0, sources, done);
      MovesJoin(s0, s1, Now(ctx), p, Flat(turns[..i]), turns[i], ctx.kernel);
      FlatNext(turns, i);
    }
    FlatNext(turns, |turns|);
  }

  /** After a thaw every flagged group of the partition is moved once more and unflagged. */
  method UnfreezeFixup(ctx: Context, p: Partition)
    requires NoneAhead(Now(ctx), p, FlaggedMembers(ctx.groups, p)) && NoDuplicates(ctx.groups) && MembersInTable(ctx)
    modifies ctx`log, ctx.table`partition, ctx.table`tracer, ctx.groups`partition, ctx.groups`reassign
    ensures var flagged := old(FlaggedMembers(ctx.groups, p));
            Brought(old(Now(ctx)), Now(ctx), p, flagged, flagged)
    ensures forall g :: g in ctx.groups ==> g.partition == old(g.partition)
    ensures forall g :: g in ctx.groups ==> g.reassign == (old(g.reassign) && old(g.partition) != p)
    ensures Moves(old(Now(ctx)), p, old(Flat(TurnsOf(ctx.groups, p))), ctx.kernel, Now(ctx))
    ensures (forall g :: g in ctx.groups ==> old(g.partition != p || !g.reassign)) ==> ctx.log == old(ctx.log)
    ensures AllWritten(ctx.log, |old(ctx.log)|) ==>
              forall g, m :: g in ctx.groups && old(g.partition) == p && old(g.reassign) && m in g.processes ==> m.partition == p
  {
    hide Now, NoneAhead, Snap.Valid, Brought, OwedBy, FlaggedMembers, Moves, TurnsOf, Flat;
    ghost var s0, sources, owed := Now(ctx), FlaggedMembers(ctx.groups, p), OwedBy(ctx.groups, p);
    OwedAreFlagged(ctx.groups, p);
    FlaggedAre(ctx.groups, p);
    ghost var done := FixupGroups(ctx, p, s0, sources, owed);
    FewerBrought(s0, Now(ctx), p, sources, done, sources);
    BroughtAreInside(ctx, s0, p, sources, sources);
    if sources == {} {
      NobodyBrought(s0, Now(ctx), p, sources);
    }
  }

  lemma {:induction false} NobodyBrought(s0: Snap, s1: Snap, p: Partition, done: set<Process>)
    requires Brought(s0, s1, p, {}, done)
    ensures s1.log == s0.log
  {
    hide Closed, Walked, Snap.Valid, MovedOnly;
    forall r
      ensures !VisitsFrom(s0, p, {}, r)
    {
    }
    assert |s0.log| < |s1.log| ==> VisitsFrom(s0, p, {}, s1.log[|s0.log|].process);
  }

  lemma {:induction false} FlaggedAre(groups: seq<Group>, p: Partition)
    ensures forall g, m :: g in groups && g.partition == p && g.reassign && m in g.processes ==> m in FlaggedMembers(groups, p)
    ensures (forall g :: g in groups ==> g.partition != p || !g.reassign) ==> FlaggedMembers(groups, p) == {}
  {
  }

  lemma {:induction false} BroughtAreInside(ctx: Context, s0: Snap, p: Partition, sources: set<Process>, done: set<Process>)
    requires Brought(s0, Now(ctx), p, sources, done)
    ensures AllWritten(ctx.log, |s0.log|) ==> forall m :: m in done ==> m.partition == p
  {
    hide Now, Spreads;
    InTable(ctx);
  }

  lemma {:induction false} InTable(ctx: Context)
    ensures forall m :: m in Now(ctx).parts ==> m in ctx.table
  {
  }

  lemma {:induction false} NothingBrought(s: Snap, p: Partition, sources: set<Process>)
    requires s.Valid()
    ensures Brought(s, s, p, sources, {})
  {
    SpreadsNowhere(s, p, sources);
  }

  lemma {:induction false} FewerBrought(s0: Snap, s1: Snap, p: Partition, sources: set<Process>, done: set<Process>, fewer: set<Process>)
    requires Brought(s0, s1, p, sources, done) && fewer <= done
    ensures Brought(s0, s1, p, sources, fewer)
  {
    hide Spreads;
  }

  /** All members again, and the flag cleared whatever became of them. */
  method ReaddGroup(ctx: Context, p: Partition, group: Group) returns (success: bool)
    requires NoneAhead(Now(ctx), p, Members(group.processes, 0)) && forall m :: m in group.processes ==> m in ctx.table
    modifies ctx`log, ctx.table`partition, ctx.table`tracer, group`partition, group`reassign
    ensures Handled(old(Now(ctx)), Now(ctx), p, Members(group.processes, 0), Members(group.processes, 0), success)
    ensures group.partition == p && !group.reassign
    ensures Moves(old(Now(ctx)), p, Concerned(group.processes, 0), ctx.kernel, Now(ctx))
  {
    hide Now, NoneAhead, Snap.Valid, Handled, Members, Moves, AllIn;
    success := PartitionAddGroup(ctx, p, group, 0);
    SetGroup(ctx, group, p, false);
  }

  /** The turn of one group in the loop above. */
  method FixupGroup(ctx: Context, p: Partition, group: Group, ghost s0: Snap,
                    ghost sources: set<Process>, ghost done: set<Process>)
    returns (ghost now: set<Process>)
    requires forall m :: m in group.processes ==> m in ctx.table
    requires Brought(s0, Now(ctx), p, sources, done) && NoneAhead(s0, p, sources) && Owed(group, p) <= sources
    modifies ctx`log, ctx.table`partition, ctx.table`tracer, group`partition, group`reassign
    ensures Brought(s0, Now(ctx), p, sources, now) && now == done + old(Owed(group, p))
    ensures group.partition == old(group.partition)
    ensures group.reassign == (old(group.reassign) && group.partition != p)
    ensures Moves(old(Now(ctx)), p, old(Turn(group, p)), ctx.kernel, Now(ctx))
  {
    hide Now, NoneAhead, Handled, Snap.Valid, Spreads, Inside, Members, Moves, Concerned;
    MovesNone(Now(ctx), p, ctx.kernel);
    now := done;
    if group.partition == p && group.reassign {
      ghost var s1, members := Now(ctx), Members(group.processes, 0);
      MembersHalt(s0, s1, p, sources, done, members);
      var success := ReaddGroup(ctx, p, group);
      GroupMoved(s0, s1, Now(ctx), p, sources, members, done, success);
      now := done + members;
    }
  }

  lemma {:induction false} MembersHalt(s0: Snap, s1: Snap, p: Partition, sources: set<Process>, done: set<Process>, members: set<Process>)
    requires Brought(s0, s1, p, sources, done) && NoneAhead(s0, p, sources) && members <= sources
    ensures NoneAhead(s1, p, members)
  {
    hide NoneAhead;
    NoneAheadLater(s0, s1, p, sources, members);
  }

  /** Writing the freezer control; a successful thaw moves the flagged groups again. */
  method PartitionFreeze(ctx: Context, p: Partition, freeze: bool) returns (success: bool)
    requires NoneAhead(Now(ctx), p, FlaggedMembers(ctx.groups, p)) && NoDuplicates(ctx.groups) && MembersInTable(ctx)
    modifies ctx`log, ctx.table`partition, ctx.table`tracer, ctx.groups`partition, ctx.groups`reassign
    ensures !p.freezable ==> success
    ensures !p.freezable || freeze || !success ==>
      Now(ctx) == old(Now(ctx)) && forall g :: g in ctx.groups ==> g.reassign == old(g.reassign)
    ensures p.freezable && !freeze && success ==>
      && Brought(old(Now(ctx)), Now(ctx), p, old(FlaggedMembers(ctx.groups, p)), old(FlaggedMembers(ctx.groups, p)))
      && (forall g :: g in ctx.groups ==> g.reassign == (old(g.reassign) && old(g.partition) != p))
    ensures forall g :: g in ctx.groups ==> g.partition == old(g.partition)
  {
    hide Now, NoneAhead, Snap.Valid, Brought, FlaggedMembers, Moves, TurnsOf, Flat;
    if !p.freezable { return true; }
    success := *;
    if !freeze && success {
      UnfreezeFixup(ctx, p);
    }
  }

  // --- the table of leaders

  /** Every leader names each of its followers once. */
  ghost predicate ProperLeaders(leaders: map<string, seq<string>>) {
    forall l :: l in leaders ==> leaders[l] != [] && NoDuplicates(leaders[l])
  }

  /** A follower is recorded once, at the end of its leader's list; other leaders keep theirs. */
  method LeaderAddFollower(ctx: Context, l: string, name: string)
    requires ProperLeaders(ctx.leaders)
    modifies ctx`leaders
    ensures ProperLeaders(ctx.leaders)
    ensures ctx.leaders.Keys == old(ctx.leaders.Keys) + {l}
    ensures var was := if l in old(ctx.leaders) then old(ctx.leaders[l]) else [];
            ctx.leaders[l] == if name in was then was else was + [name]
    ensures forall k :: k in old(ctx.leaders) && k != l ==> ctx.leaders[k] == old(ctx.leaders[k])
  {
    var followers := if l in ctx.leaders then ctx.leaders[l] else [];
    for i := 0 to |followers|
      invariant name !in followers[..i]
    {
      if followers[i] == name { return; }
    }
    ctx.leaders := ctx.leaders[l := followers + [name]];
  }
}
