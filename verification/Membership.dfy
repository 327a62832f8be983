/** The operations behind the bookkeeping events, on the objects themselves. */
module Membership {
  import opened Wrappers
  import opened Sequences
  import opened CgroupTypes
  import opened Spread
  import opened Cascade
  import opened Leading
  import opened Halting
  import opened Buckets
  import opened ResponseCurve
  import Priority
  import PriorityTasks
  import opened Registry

  ghost function GroupMap(ctx: Context): map<Process, Group?>
    reads ctx`table, ctx.table`group
  {
    map p | p in ctx.table :: p.group
  }

  ghost function ListMap(ctx: Context): map<Group, seq<Process>>
    reads ctx`groups, ctx.groups`processes
  {
    map g | g in ctx.groups :: g.processes
  }

  ghost function View(ctx: Context): Roster
    reads ctx`table, ctx`groups, ctx`activeProcess, ctx`activeGroup, ctx.table`group, ctx.groups`processes
  {
    Roster(ctx.table, GroupMap(ctx), ListMap(ctx), ctx.activeProcess, ctx.activeGroup)
  }

  /** Partitions and cascades do not depend on memberships, nor memberships on them. */
  twostate lemma {:induction false} NowUnchanged(ctx: Context)
    requires unchanged(ctx`table, ctx`leaders, ctx`log)
    requires forall p :: p in ctx.table ==>
               p.name == old(p.name) && p.tracer == old(p.tracer) && p.partition == old(p.partition)
    ensures Now(ctx) == old(Now(ctx))
  {
    hide Snap.Valid, Walked, EdgesOf, WalkOf, TracerOf;
    assert forall q :: q in ctx.table ==> EdgesOf(ctx, q) == old(EdgesOf(ctx, q));
    assert forall q :: q in ctx.table ==> WalkOf(ctx, q) == old(WalkOf(ctx, q));
    assert forall q :: q in ctx.table ==> TracerOf(ctx.table, q) == old(TracerOf(ctx.table, q));
    assert forall q :: q in ctx.table ==> q.partition == old(q.partition);
    assert EdgeMap(ctx) == old(EdgeMap(ctx));
    assert WalkMap(ctx) == old(WalkMap(ctx));
    assert TracerMap(ctx) == old(TracerMap(ctx));
    assert PartitionMap(ctx) == old(PartitionMap(ctx));
  }

  twostate lemma {:induction false} ViewUnchanged(ctx: Context)
    requires unchanged(ctx`table, ctx`groups, ctx`activeProcess, ctx`activeGroup)
    requires forall p :: p in ctx.table ==> unchanged(p`group)
    requires forall g :: g in ctx.groups ==> unchanged(g`processes)
    ensures View(ctx) == old(View(ctx))
  {
    assert GroupMap(ctx) == old(GroupMap(ctx));
    assert ListMap(ctx) == old(ListMap(ctx));
  }

  /** A process's group is one of the context's. */
  ghost predicate Grouped(ctx: Context, process: Process)
    reads ctx`table, ctx`groups, process`group
  {
    process in ctx.table && (process.group != null ==> process.group in ctx.groups)
  }

  /** The end of a bucket. */
  method FindSlot(table: seq<Process>, b: nat) returns (at: nat)
    ensures at == Slot(table, b)
  {
    hide Bucket;
    at := |table|;
    while at > 0 && Bucket(table[at - 1].pid) > b
      invariant at <= |table| && Slot(table[..at], b) == Slot(table, b)
    {
      at := at - 1;
      assert table[..at + 1][..at] == table[..at];
    }
    assert table[..at] == [] || table[..at][at - 1] == table[at - 1];
  }

  method InsertInBucket(table: seq<Process>, process: Process) returns (now: seq<Process>)
    ensures now == Inserted(table, process)
  {
    hide Slot;
    var at := FindSlot(table, Bucket(process.pid));
    now := table[..at] + [process] + table[at..];
  }

  method HashInsert(ctx: Context, process: Process)
    requires process.group == null
    modifies ctx`table
    ensures View(ctx) == Create(old(View(ctx)), process)
  {
    hide Inserted;
    ghost var r, table := View(ctx), ctx.table;
    ctx.table := InsertInBucket(ctx.table, process);
    InsertedMembers(table, process);
    assert GroupMap(ctx) == Create(r, process).group;
  }

  /** A new process, in no group, enters the table at the end of its bucket. */
  method ProcessCreate(ctx: Context, pid: int, tgid: int, tracer: int, name: string) returns (process: Process)
    modifies ctx`table
    ensures fresh(process) && process.pid == pid && process.tgid == tgid && process.tracer == tracer && process.name == name
    ensures process.partition == null
    ensures Enabled(old(View(ctx)), Created(process)) && View(ctx) == Create(old(View(ctx)), process)
  {
    process := new Process(pid, tgid, tracer, name);
    HashInsert(ctx, process);
  }

  lemma {:induction false} InsertedMembers(table: seq<Process>, p: Process)
    ensures forall q :: q in table ==> q in Inserted(table, p)
    ensures forall q :: q in Inserted(table, p) ==> q == p || q in table
    ensures p in Inserted(table, p)
  {
    hide Bucket;
    var at := Slot(table, Bucket(p.pid));
    assert table == table[..at] + table[at..];
  }

  /** The list and pointer updates of a move between groups. */
  method MoveToGroup(ctx: Context, group: Group, process: Process)
    requires Grouped(ctx, process) && group in ctx.groups && process.group != group
    modifies process`group, ctx.groups`processes
    ensures View(ctx) == Join(old(View(ctx)), process, group).(activeGroup := old(ctx.activeGroup))
  {
    hide Without;
    ghost var r := View(ctx);
    var previous := process.group;
    if previous != null {
      previous.processes := Without(previous.processes, process);
    }
    process.group := group;
    group.processes := group.processes + [process];
    assert ListMap(ctx) == Join(r, process, group).lists;
    assert GroupMap(ctx) == Join(r, process, group).group;
  }

  /** Where a move between groups takes the process, if anywhere. */
  function Target(current: Partition?, previous: Partition?, root: Partition): Partition? {
    if current != null then current
    else if previous != null then root
    else null
  }

  ghost function PartitionOf(group: Group?): Partition?
    reads if group == null then {} else {group}
  {
    if group == null then null else group.partition
  }

  /** What became of a process that had to follow its group to `target`. */
  ghost predicate MovedTo(s0: Snap, s1: Snap, target: Partition?, process: Process, success: bool) {
    var stayed := success && s1 == s0;
    var led := target != null && Led(s0, s1, target, process) && (success <==> s1.log[|s0.log|].result != Failed);
    if target == null then stayed else led
  }

  /** The move of a process to `target`, if any, ends. */
  ghost predicate MayMove(s: Snap, target: Partition?, process: Process)
    requires s.Valid()
  {
    target != null ==> NoCycleAhead(s, target, process)
  }

  /** The partition follows the group. */
  method FollowGroup(ctx: Context, current: Partition?, previous: Partition?, process: Process) returns (success: bool)
    requires process in ctx.table && MayMove(Now(ctx), Target(current, previous, ctx.root), process)
    modifies ctx`log, ctx.table`partition, ctx.table`tracer
    ensures View(ctx) == old(View(ctx))
    ensures MovedTo(old(Now(ctx)), Now(ctx), Target(current, previous, ctx.root), process, success)
  {
    hide Now, NoCycleAhead, View, Led, Snap.Valid;
    success := true;
    if current != null {
      success := MoveTo(ctx, current, process);
    } else if previous != null {
      success := MoveTo(ctx, ctx.root, process);
    }
  }

  method MoveTo(ctx: Context, target: Partition, process: Process) returns (success: bool)
    requires process in ctx.table && NoCycleAhead(Now(ctx), target, process)
    modifies ctx`log, ctx.table`partition, ctx.table`tracer
    ensures View(ctx) == old(View(ctx)) && MovedTo(old(Now(ctx)), Now(ctx), target, process, success)
  {
    hide Now, NoCycleAhead, Add, Snap.Valid, Led, View;
    ghost var depth := AheadHalts(Now(ctx), target, process, ctx.kernel);
    success := PartitionAddProcess(ctx, target, process, depth);
  }

  method SetActiveGroup(ctx: Context, group: Group?)
    modifies ctx`activeGroup
    ensures View(ctx) == old(View(ctx)).(activeGroup := group)
  {
    ctx.activeGroup := group;
  }

  /** The memberships and the active group; partitions are not involved. */
  method Regroup(ctx: Context, group: Group, process: Process)
    requires Grouped(ctx, process) && group in ctx.groups && process.group != group
    modifies process`group, ctx.groups`processes, ctx`activeGroup
    ensures View(ctx) == Join(old(View(ctx)), process, group)
  {
    MoveToGroup(ctx, group, process);
    if ctx.activeProcess == process {
      SetActiveGroup(ctx, group);
    }
  }

  method RegroupOnly(ctx: Context, group: Group, process: Process)
    requires Grouped(ctx, process) && group in ctx.groups && process.group != group
    modifies process`group, ctx.groups`processes, ctx`activeGroup
    ensures View(ctx) == Join(old(View(ctx)), process, group) && Now(ctx) == old(Now(ctx))
  {
    Regroup(ctx, group, process);
    NowUnchanged(ctx);
  }

  /** Where joining `group` takes the process, if anywhere. */
  ghost function JoinTarget(ctx: Context, group: Group, process: Process): Partition?
    reads ctx`root, group`partition, process`group, if process.group == null then {} else {process.group}
  {
    if process.group == group then null else Target(group.partition, PartitionOf(process.group), ctx.root)
  }

  /**
   Membership moves to `group`; the process moves to the group's partition, or from its old
   group's partition to the root; an active process takes the active group along; and the
   process gets the group's priority.
   */
  method GroupAddProcess(ctx: Context, group: Group, process: Process, curve: Curve?, preserve: Priority.Preserve, lowered: bool)
    returns (success: bool, ghost moved: bool, ghost result: Result)
    requires Grouped(ctx, process) && group in ctx.groups && PriorityTasks.ValidCurve(curve)
    requires MayMove(Now(ctx), JoinTarget(ctx, group, process), process)
    modifies process`group, ctx.groups`processes, ctx`activeGroup, ctx`log, ctx.table`partition, ctx.table`tracer
    modifies process`priority, process`prioMode, process`asked, process`nice
    ensures View(ctx) == Join(old(View(ctx)), process, group)
    ensures MovedTo(old(Now(ctx)), Now(ctx), old(JoinTarget(ctx, group, process)), process, moved)
    ensures old(process.group) == group ==> success && PriorityTasks.TaskOf(process) == old(PriorityTasks.TaskOf(process))
    ensures old(process.group) != group ==>
              Prioritised(PriorityTasks.TableOrNone(curve), old(PriorityTasks.TaskOf(process)), PriorityTasks.TaskOf(process),
                          group.priority, preserve.Keeps(lowered), result, success, moved)
    ensures old(process.group) != group && process !in old(group.processes) ==>
              PriorityTasks.MembersOf(group)
              == Priority.AfterEvent(PriorityTasks.TableOrNone(curve), old(PriorityTasks.MembersOf(group)),
                                     Priority.Joined(old(PriorityTasks.TaskOf(process)), preserve.Keeps(lowered), result))
    ensures process.group == group
    ensures old(process.group) != group ==> group.processes == old(group.processes) + [process]
    ensures old(process.group) != group && group.partition != null ==>
              && |ctx.log| > |old(ctx.log)| && ctx.log[|old(ctx.log)|].process == process
              && ctx.log[|old(ctx.log)|].target == group.partition
    ensures old(process.group) != group && group.partition == null ==>
              if old(process.group != null && process.group.partition != null)
              then && |ctx.log| > |old(ctx.log)| && ctx.log[|old(ctx.log)|].process == process
                   && ctx.log[|old(ctx.log)|].target == ctx.root
              else ctx.log == old(ctx.log)
  {
    hide Now, Snap.Valid, NoCycleAhead, MovedTo, View, Join, JoinTarget, Target;
    hide PriorityTasks.TaskOf, PriorityTasks.MembersOf, Priority.AfterEvent, Prioritised;
    var previous := process.group;
    if group == previous {
      JoinOwnGroup(ctx, group, process);
      return true, true, Written;
    }
    var left := if previous != null then previous.partition else null;
    JoinOtherGroup(ctx, group, process, left);
    ghost var s0, target := Now(ctx), JoinTarget(ctx, group, process);
    JoinAppends(ctx, group, process);
    success, moved, result := JoinAsEvent(ctx, group, process, left, curve, preserve, lowered);
    JoinedView(ctx, group, process);
    MoveIsAsked(s0, Now(ctx), target, process, moved);
  }

  /** A move starts with a request for it. */
  lemma {:induction false} MoveIsAsked(s0: Snap, s1: Snap, target: Partition?, process: Process, success: bool)
    requires MovedTo(s0, s1, target, process, success)
    ensures target == null ==> s1.log == s0.log
    ensures target != null ==>
              && |s1.log| > |s0.log| && s1.log[|s0.log|].process == process && s1.log[|s0.log|].target == target
  {
    hide Visits, VisitsFrom, Closed, Snap.Valid, Walked;
  }

  lemma {:induction false} JoinedView(ctx: Context, group: Group, process: Process)
    requires group in ctx.groups && process in ctx.table
    ensures group in View(ctx).lists && View(ctx).lists[group] == group.processes
    ensures process in View(ctx).group && View(ctx).group[process] == process.group
  {
  }

  /** To the group's members and their priorities it is the event of module Priority. */
  lemma {:induction false} JoinIsEvent(group: Group, was: seq<Process>, before: Priority.Members, process: Process, t: Priority.Task,
                                      curve: Option<Table>, kept: bool, result: Result, success: bool, moved: bool)
    requires Priority.IsCurve(curve) && group.processes == was + [process]
    requires before == Priority.Members(group.priority, PriorityTasks.TasksOf(was))
    requires Prioritised(curve, t, PriorityTasks.TaskOf(process), group.priority, kept, result, success, moved)
    ensures PriorityTasks.MembersOf(group) == Priority.AfterEvent(curve, before, Priority.Joined(t, kept, result))
  {
    hide PriorityTasks.TaskOf, Priority.JoinTask;
  }

  lemma {:induction false} MembersAre(group: Group)
    ensures PriorityTasks.MembersOf(group) == Priority.Members(group.priority, PriorityTasks.TasksOf(group.processes))
  {
  }

  lemma {:induction false} JoinAppends(ctx: Context, group: Group, process: Process)
    requires Grouped(ctx, process) && group in ctx.groups && process.group != group
    ensures group in Join(View(ctx), process, group).lists
    ensures Join(View(ctx), process, group).lists[group] == group.processes + [process]
    ensures process in Join(View(ctx), process, group).group && Join(View(ctx), process, group).group[process] == group
  {
  }

  lemma {:induction false} ListOfView(ctx: Context, group: Group)
    requires group in ctx.groups
    ensures group in View(ctx).lists && View(ctx).lists[group] == group.processes
  {
  }

  lemma {:induction false} JoinOtherGroup(ctx: Context, group: Group, process: Process, left: Partition?)
    requires process.group != group && left == PartitionOf(process.group)
    ensures JoinTarget(ctx, group, process) == Target(group.partition, left, ctx.root)
    ensures JoinTarget(ctx, group, process) == if group.partition != null then group.partition
                                               else if process.group != null && process.group.partition != null then ctx.root
                                               else null
  {
  }

  /** The priority given to a task that joins, and the success of a move followed by that. */
  ghost predicate Prioritised(curve: Option<Table>, before: Priority.Task, after: Priority.Task, priority: int, kept: bool,
                              result: Result, success: bool, moved: bool)
    requires Priority.IsCurve(curve)
  {
    && after == Priority.JoinTask(curve, before, priority, kept, result)
    && success == (moved && (priority == CGRP_DEFAULT_PRIORITY || PriorityTasks.SetSucceeds(before, priority, kept, result)))
  }

  lemma {:induction false} PrioritisedAfterMove(curve: Option<Table>, before: Priority.Task, after: Priority.Task,
                                               priority: int, kept: bool, result: Result, given: bool, moved: bool)
    requires Priority.IsCurve(curve) && Prioritised(curve, before, after, priority, kept, result, given, true)
    ensures Prioritised(curve, before, after, priority, kept, result, moved && given, moved)
  {
  }

  lemma {:induction false} JoinOwnGroup(ctx: Context, group: Group, process: Process)
    requires Grouped(ctx, process) && group in ctx.groups && process.group == group
    ensures Join(View(ctx), process, group) == View(ctx) && JoinTarget(ctx, group, process) == null
    ensures MovedTo(Now(ctx), Now(ctx), null, process, true)
  {
    hide Now;
  }

  method JoinOther(ctx: Context, group: Group, process: Process, left: Partition?,
                   curve: Curve?, preserve: Priority.Preserve, lowered: bool)
    returns (success: bool, ghost moved: bool, ghost result: Result)
    requires Grouped(ctx, process) && group in ctx.groups && process.group != group && PriorityTasks.ValidCurve(curve)
    requires MayMove(Now(ctx), Target(group.partition, left, ctx.root), process)
    modifies process`group, ctx.groups`processes, ctx`activeGroup, ctx`log, ctx.table`partition, ctx.table`tracer
    modifies process`priority, process`prioMode, process`asked, process`nice
    ensures View(ctx) == Join(old(View(ctx)), process, group)
    ensures MovedTo(old(Now(ctx)), Now(ctx), Target(group.partition, left, ctx.root), process, moved)
    ensures Prioritised(PriorityTasks.TableOrNone(curve), old(PriorityTasks.TaskOf(process)), PriorityTasks.TaskOf(process),
                        group.priority, preserve.Keeps(lowered), result, success, moved)
  {
    hide Now, Snap.Valid, NoCycleAhead, MovedTo, MayMove, View, Join, Target, PriorityTasks.TaskOf, PriorityTasks.TableOrNone, Prioritised;
    success := ChangeGroup(ctx, group, process, left);
    moved := success;
    assert PriorityTasks.TaskOf(process) == old(PriorityTasks.TaskOf(process));
    var given;
    given, result := GivePriority(ctx, group, process, curve, preserve, lowered);
    success := success && given;
    PrioritisedAfterMove(PriorityTasks.TableOrNone(curve), old(PriorityTasks.TaskOf(process)), PriorityTasks.TaskOf(process),
                         group.priority, preserve.Keeps(lowered), result, given, moved);
  }

  /** The same, with what it means to the members of the group. */
  method JoinAsEvent(ctx: Context, group: Group, process: Process, left: Partition?,
                     curve: Curve?, preserve: Priority.Preserve, lowered: bool)
    returns (success: bool, ghost moved: bool, ghost result: Result)
    requires Grouped(ctx, process) && group in ctx.groups && process.group != group && PriorityTasks.ValidCurve(curve)
    requires MayMove(Now(ctx), Target(group.partition, left, ctx.root), process)
    modifies process`group, ctx.groups`processes, ctx`activeGroup, ctx`log, ctx.table`partition, ctx.table`tracer
    modifies process`priority, process`prioMode, process`asked, process`nice
    ensures View(ctx) == Join(old(View(ctx)), process, group)
    ensures MovedTo(old(Now(ctx)), Now(ctx), Target(group.partition, left, ctx.root), process, moved)
    ensures Prioritised(PriorityTasks.TableOrNone(curve), old(PriorityTasks.TaskOf(process)), PriorityTasks.TaskOf(process),
                        group.priority, preserve.Keeps(lowered), result, success, moved)
    ensures process !in old(group.processes) ==>
              PriorityTasks.MembersOf(group)
              == Priority.AfterEvent(PriorityTasks.TableOrNone(curve), old(PriorityTasks.MembersOf(group)),
                                     Priority.Joined(old(PriorityTasks.TaskOf(process)), preserve.Keeps(lowered), result))
  {
    hide Now, Snap.Valid, NoCycleAhead, MovedTo, MayMove, View, Join, Target, Prioritised;
    hide PriorityTasks.TaskOf, PriorityTasks.TasksOf, PriorityTasks.MembersOf, PriorityTasks.TableOrNone;
    hide Priority.AfterEvent, Priority.Preserve.Keeps;
    ghost var was, before, t := group.processes, PriorityTasks.MembersOf(group), PriorityTasks.TaskOf(process);
    MembersAre(group);
    JoinAppends(ctx, group, process);
    success, moved, result := JoinOther(ctx, group, process, left, curve, preserve, lowered);
    ListOfView(ctx, group);
    if process !in was {
      assert PriorityTasks.TasksOf(was) == before.tasks;
      JoinIsEvent(group, was, before, process, t, PriorityTasks.TableOrNone(curve), preserve.Keeps(lowered), result, success, moved);
    }
  }

  /** The group's priority, if it sets one; that has nothing to do with memberships or partitions. */
  method GivePriority(ctx: Context, group: Group, process: Process, curve: Curve?, preserve: Priority.Preserve, lowered: bool)
    returns (ok: bool, ghost result: Result)
    requires PriorityTasks.ValidCurve(curve)
    modifies process`priority, process`prioMode, process`asked, process`nice
    ensures View(ctx) == old(View(ctx)) && Now(ctx) == old(Now(ctx))
    ensures Prioritised(PriorityTasks.TableOrNone(curve), old(PriorityTasks.TaskOf(process)), PriorityTasks.TaskOf(process),
                        group.priority, preserve.Keeps(lowered), result, ok, true)
  {
    hide Now, View, Snap.Valid, PriorityTasks.TaskOf, PriorityTasks.TableOrNone, Prioritised;
    ok, result := JoinPriority(group.priority, process, curve, preserve, lowered);
    NowUnchanged(ctx);
    ViewUnchanged(ctx);
  }

  method JoinPriority(priority: int, process: Process, curve: Curve?, preserve: Priority.Preserve, lowered: bool)
    returns (ok: bool, ghost result: Result)
    requires PriorityTasks.ValidCurve(curve)
    modifies process`priority, process`prioMode, process`asked, process`nice
    ensures Prioritised(PriorityTasks.TableOrNone(curve), old(PriorityTasks.TaskOf(process)), PriorityTasks.TaskOf(process),
                        priority, preserve.Keeps(lowered), result, ok, true)
  {
    hide Priority.SetTask, PriorityTasks.SetSucceeds;
    ok, result := true, Written;
    if priority != CGRP_DEFAULT_PRIORITY {
      ok, result := PriorityTasks.ProcessSetPriority(curve, process, priority, preserve, lowered);
    }
  }

  /** A move to a different group, out of a group in partition `left`. */
  method ChangeGroup(ctx: Context, group: Group, process: Process, left: Partition?) returns (success: bool)
    requires Grouped(ctx, process) && group in ctx.groups && process.group != group
    requires MayMove(Now(ctx), Target(group.partition, left, ctx.root), process)
    modifies process`group, ctx.groups`processes, ctx`activeGroup, ctx`log, ctx.table`partition, ctx.table`tracer
    ensures View(ctx) == Join(old(View(ctx)), process, group)
    ensures MovedTo(old(Now(ctx)), Now(ctx), Target(group.partition, left, ctx.root), process, success)
  {
    hide Now, MovedTo, MayMove, View, Join, Snap.Valid, Target;
    RegroupOnly(ctx, group, process);
    success := FollowGroup(ctx, group.partition, left, process);
  }

  /** Only the two documented states are accepted; a missing process is nothing to update. */
  method ProcessUpdateState(ctx: Context, process: Process?, state: string) returns (known: bool)
    requires (process != null ==> process in ctx.table)
    modifies ctx`activeProcess, ctx`activeGroup
    ensures process == null ==> known && View(ctx) == old(View(ctx))
    ensures process != null ==> View(ctx) == Notify(old(View(ctx)), process, state)
    ensures process != null ==> (known <==> state == APP_ACTIVE || state == APP_INACTIVE)
    ensures process != null && state == "active" ==> ctx.activeProcess == process && ctx.activeGroup == process.group
    ensures process != null && state == "standby" && old(ctx.activeProcess) == process ==>
              ctx.activeProcess == null && ctx.activeGroup == null
  {
    if process == null { return true; }
    if state == APP_ACTIVE {
      ctx.activeProcess := process;
      ctx.activeGroup := process.group;
      return true;
    }
    if state == APP_INACTIVE {
      if process == ctx.activeProcess {
        ctx.activeProcess := null;
        ctx.activeGroup := null;
      }
      return true;
    }
    return false;
  }

  /** The process leaves its group's list. */
  method GroupDelProcess(ctx: Context, process: Process)
    requires Grouped(ctx, process)
    modifies process`group, ctx.groups`processes
    ensures process.group == null
    ensures View(ctx) == old(View(ctx).(group := View(ctx).group[process := null],
                                        lists := Unlist(View(ctx).lists, View(ctx).group[process], process)))
  {
    ghost var r := View(ctx);
    var group := process.group;
    if group != null {
      process.group := null;
      group.processes := Without(group.processes, process);
    }
    assert ListMap(ctx) == Unlist(r.lists, r.group[process], process);
    assert GroupMap(ctx) == r.group[process := null];
  }

  method ClearActive(ctx: Context)
    modifies ctx`activeProcess, ctx`activeGroup
    ensures View(ctx) == old(View(ctx)).(active := null, activeGroup := null)
  {
    ctx.activeProcess := null;
    ctx.activeGroup := null;
  }

  method Unhash(ctx: Context, process: Process)
    modifies ctx`table
    ensures View(ctx) == old(View(ctx)).(table := Without(old(ctx.table), process), group := old(View(ctx)).group - {process})
  {
    ghost var r := View(ctx);
    WithoutMembers(ctx.table, process);
    ctx.table := Without(ctx.table, process);
    assert GroupMap(ctx) == r.group - {process};
  }

  /** The process leaves the active pair, its group's list and the table. */
  method ProcessRemove(ctx: Context, process: Process)
    requires Grouped(ctx, process)
    modifies ctx`activeProcess, ctx`activeGroup, ctx`table, process`group, ctx.groups`processes
    ensures View(ctx) == Remove(old(View(ctx)), process)
    ensures process.group == null
  {
    ghost var r := View(ctx);
    if process == ctx.activeProcess {
      ClearActive(ctx);
    }
    GroupDelProcess(ctx, process);
    Unhash(ctx, process);
    RemoveInSteps(r, process);
  }

  lemma {:induction false} RemoveInSteps(r: Roster, p: Process)
    requires p in r.group
    ensures Remove(r, p).group == r.group[p := null] - {p}
  {
  }

  lemma {:induction false} ViewIsTable(ctx: Context, process: Process)
    requires process in ctx.table
    ensures process in View(ctx).group && forall q :: q in Remove(View(ctx), process).table ==> q in ctx.table
  {
    WithoutMembers(ctx.table, process);
  }

  lemma {:induction false} TableOfView(ctx: Context)
    ensures View(ctx).table == ctx.table
  {
  }

  method MoveHome(ctx: Context, process: Process) returns (ghost moved: Snap)
    requires process in ctx.table && NoCycleAhead(Now(ctx), ctx.root, process)
    modifies ctx`log, ctx.table`partition, ctx.table`tracer
    ensures View(ctx) == old(View(ctx)) && moved == Now(ctx) && Led(old(Now(ctx)), moved, ctx.root, process)
  {
    hide Now, Led, Snap.Valid, NoCycleAhead, View;
    var _ := MoveTo(ctx, ctx.root, process);
    moved := Now(ctx);
  }

  /** An ignored process leads its followers back to the root partition, and is forgotten. */
  method ProcessIgnore(ctx: Context, process: Process) returns (ghost moved: Snap)
    requires Grouped(ctx, process) && NoCycleAhead(Now(ctx), ctx.root, process)
    modifies ctx`activeProcess, ctx`activeGroup, ctx`table, process`group, ctx.groups`processes
    modifies ctx`log, ctx.table`partition, ctx.table`tracer
    ensures View(ctx) == Remove(old(View(ctx)), process)
    ensures Led(old(Now(ctx)), moved, ctx.root, process) && ctx.log == moved.log
    ensures forall q :: q in ctx.table ==> q in moved.parts && q.partition == moved.parts[q]
  {
    hide Now, Led, Snap.Valid, NoCycleAhead, View, Remove, Without;
    ViewIsTable(ctx, process);
    moved := MoveHome(ctx, process);
    ProcessRemove(ctx, process);
    TableOfView(ctx);
  }
}
