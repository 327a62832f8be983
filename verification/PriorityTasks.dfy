/** Adjusting the priorities of processes and groups in place. */
module PriorityTasks {
  import opened Wrappers
  import opened Sequences
  import opened CgroupTypes
  import opened ResponseCurve
  import opened Priority

  function TaskOf(p: Process): Task
    reads p`priority, p`prioMode, p`asked, p`nice
  {
    Task(p.priority, p.prioMode, p.asked, p.nice)
  }

  ghost function TasksOf(processes: seq<Process>): (tasks: seq<Task>)
    reads processes`priority, processes`prioMode, processes`asked, processes`nice
    ensures |tasks| == |processes|
    ensures forall i :: 0 <= i < |processes| ==> tasks[i] == TaskOf(processes[i])
  {
    if processes == [] then []
    else
      var n := |processes| - 1;
      TasksOf(processes[..n]) + [TaskOf(processes[n])]
  }

  ghost function MembersOf(g: Group): Members
    reads g, g.processes`priority, g.processes`prioMode, g.processes`asked, g.processes`nice
  {
    Members(g.priority, TasksOf(g.processes))
  }

  ghost predicate ValidCurve(curve: Curve?) {
    curve != null ==> curve.Valid()
  }

  ghost function TableOrNone(curve: Curve?): (t: Option<Table>)
    requires ValidCurve(curve)
    reads if curve == null then {} else {curve.out}
    ensures IsCurve(t)
  {
    if curve == null then None else Some(curve.Contents())
  }

  /** setpriority, whose answer is the kernel's. */
  method AskKernel(process: Process, nice: int) returns (result: Result)
    modifies process`asked, process`nice
    ensures process.asked == Some(nice)
    ensures process.nice == if result == Written then Some(nice) else old(process.nice)
  {
    result := *;
    process.asked := Some(nice);
    if result == Written {
      process.nice := Some(nice);
    }
  }

  /** The mode switch; false when the request goes no further. */
  method SwitchMode(process: Process, adjust: Adjust) returns (considered: bool)
    modifies process`prioMode
    ensures (process.prioMode, considered) == Decide(old(process.prioMode), adjust)
  {
    match process.prioMode {
      case Default =>
        if adjust == Lock {
          process.prioMode := Locked;
        } else if adjust == ToExtern {
          process.prioMode := Extern;
          return false;
        }
      case Locked =>
        if adjust == Unlock {
          process.prioMode := Default;
        } else if adjust == ToExtern {
          process.prioMode := Extern;
          return false;
        } else if adjust != Lock {
          return false;
        }
      case Extern =>
        if adjust != ToIntern { return false; }
        process.prioMode := Default;
    }
    considered := true;
  }

  method AdjustPriority(curve: Curve?, process: Process, adjust: Adjust, value: int)
    returns (ok: bool, ghost result: Result)
    requires ValidCurve(curve)
    modifies process`priority, process`prioMode, process`asked, process`nice
    ensures TaskOf(process) == Apply(TableOrNone(curve), old(TaskOf(process)), Command(adjust, value, result))
    ensures ok <==> Asks(old(TaskOf(process)), Command(adjust, value, result)) ==> result != Failed
  {
    result := Written;
    var priority := if adjust == Relative then process.priority + value else value;
    var considered := SwitchMode(process, adjust);
    if !considered || priority == process.priority {
      return true, result;
    }
    var mapped, clamped := CurveMap(curve, priority);
    process.priority := clamped;
    if mapped > 19 { mapped := 19; } else if mapped < -20 { mapped := -20; }
    var answer := AskKernel(process, mapped);
    ok, result := answer != Failed, answer;
  }

  /** The priority was kept, or there was nothing to ask of the kernel, or it did not refuse. */
  predicate SetSucceeds(t: Task, priority: int, kept: bool, result: Result) {
    !kept && Asks(t, Command(Absolute, priority, result)) ==> result != Failed
  }

  /** Unless its present priority is to be kept, a process is given a priority; `lowered` is getpriority's answer. */
  method ProcessSetPriority(curve: Curve?, process: Process, priority: int, preserve: Preserve, lowered: bool)
    returns (ok: bool, ghost result: Result)
    requires ValidCurve(curve)
    modifies process`priority, process`prioMode, process`asked, process`nice
    ensures TaskOf(process) == SetTask(TableOrNone(curve), old(TaskOf(process)), priority, preserve.Keeps(lowered), result)
    ensures ok <==> SetSucceeds(old(TaskOf(process)), priority, preserve.Keeps(lowered), result)
    ensures preserve == All || (preserve == Low && lowered) ==> ok && TaskOf(process) == old(TaskOf(process))
    ensures preserve == Overwrite || (preserve == Low && !lowered) ==>
              TaskOf(process) == Apply(TableOrNone(curve), old(TaskOf(process)), Command(Absolute, priority, result))
  {
    result := Written;
    if preserve.Keeps(lowered) {
      ok := true;
    } else {
      ok, result := AdjustPriority(curve, process, Absolute, priority);
    }
  }

  /** Every member is adjusted; one that fails does not stop the others. */
  method GroupAdjustPriority(curve: Curve?, group: Group, adjust: Adjust, value: int)
    returns (success: bool, ghost results: seq<Result>)
    requires ValidCurve(curve) && NoDuplicates(group.processes)
    modifies group.processes`priority, group.processes`prioMode, group.processes`asked, group.processes`nice
    ensures |results| == |group.processes|
    ensures TasksOf(group.processes) ==
            ApplyAll(TableOrNone(curve), old(TasksOf(group.processes)), GroupCommand(adjust, value, results))
    ensures forall i :: 0 <= i < |results| ==>
              TaskOf(group.processes[i])
              == Apply(TableOrNone(curve), old(TasksOf(group.processes))[i], Command(adjust, value, results[i]))
    ensures success <==> forall i :: 0 <= i < |results| ==>
              Asks(old(TasksOf(group.processes))[i], Command(adjust, value, results[i])) ==> results[i] != Failed
  {
    hide TasksOf, Apply, Asks;
    ghost var table, before := TableOrNone(curve), TasksOf(group.processes);
    success, results := true, [];
    for i := 0 to |group.processes|
      invariant |results| == i
      invariant forall k :: 0 <= k < i ==>
                  TaskOf(group.processes[k]) == Apply(table, before[k], Command(adjust, value, results[k]))
      invariant forall k :: i <= k < |group.processes| ==> TaskOf(group.processes[k]) == before[k]
      invariant success <==> forall k :: 0 <= k < i ==>
                  Asks(before[k], Command(adjust, value, results[k])) ==> results[k] != Failed
    {
      var ok; ghost var result;
      ok, result := AdjustPriority(curve, group.processes[i], adjust, value);
      success, results := success && ok, results + [result];
    }
  }

  /** Which members keep their present priority. */
  function KeptBy(processes: seq<Process>, preserve: Preserve, lowered: Process -> bool): (kept: seq<bool>)
    ensures |kept| == |processes|
    ensures forall i :: 0 <= i < |kept| ==> kept[i] == preserve.Keeps(lowered(processes[i]))
  {
    seq(|processes|, i requires 0 <= i < |processes| => preserve.Keeps(lowered(processes[i])))
  }

  /** A group's priority is given to every member, unless it is the group's already. */
  method GroupSetPriority(curve: Curve?, group: Group, priority: int, preserve: Preserve, lowered: Process -> bool)
    returns (success: bool, ghost results: seq<Result>)
    requires ValidCurve(curve) && NoDuplicates(group.processes)
    modifies group`priority
    modifies group.processes`priority, group.processes`prioMode, group.processes`asked, group.processes`nice
    ensures |results| == |group.processes|
    ensures MembersOf(group) == SetMembers(TableOrNone(curve), old(MembersOf(group)), priority,
                                           KeptBy(group.processes, preserve, lowered), results)
    ensures success <==> old(group.priority) == priority || forall i :: 0 <= i < |results| ==>
              SetSucceeds(old(TasksOf(group.processes))[i], priority, KeptBy(group.processes, preserve, lowered)[i], results[i])
    ensures group.priority == priority
    ensures old(group.priority) == priority ==> success && TasksOf(group.processes) == old(TasksOf(group.processes))
    ensures preserve == Overwrite ==>
              Overwriting(TableOrNone(curve), SetPriority(priority, KeptBy(group.processes, preserve, lowered), results))
  {
    hide SetTask, SetSucceeds, KeptBy, TasksOf, TaskOf;
    results := seq(|group.processes|, _ => Written);
    if group.priority == priority { return true, results; }
    ghost var before := TasksOf(group.processes);
    group.priority := priority;
    success, results := SetEach(curve, group.processes, priority, preserve, lowered);
    assert TasksOf(group.processes)
        == SetMembers(TableOrNone(curve), old(MembersOf(group)), priority, KeptBy(group.processes, preserve, lowered), results).tasks;
  }

  /** The walk over the members; one that fails does not stop the others. */
  method SetEach(curve: Curve?, processes: seq<Process>, priority: int, preserve: Preserve, lowered: Process -> bool)
    returns (success: bool, ghost results: seq<Result>)
    requires ValidCurve(curve) && NoDuplicates(processes)
    modifies processes`priority, processes`prioMode, processes`asked, processes`nice
    ensures |results| == |processes|
    ensures forall k :: 0 <= k < |processes| ==>
              TasksOf(processes)[k] == SetTask(TableOrNone(curve), old(TasksOf(processes))[k], priority,
                                               KeptBy(processes, preserve, lowered)[k], results[k])
    ensures success <==> forall k :: 0 <= k < |processes| ==>
              SetSucceeds(old(TasksOf(processes))[k], priority, KeptBy(processes, preserve, lowered)[k], results[k])
  {
    hide SetTask, SetSucceeds, KeptBy, Preserve.Keeps, TasksOf;
    ghost var table, before, kept := TableOrNone(curve), TasksOf(processes), KeptBy(processes, preserve, lowered);
    success, results := true, [];
    for i := 0 to |processes|
      invariant |results| == i
      invariant forall k :: 0 <= k < i ==> TaskOf(processes[k]) == SetTask(table, before[k], priority, kept[k], results[k])
      invariant forall k :: i <= k < |processes| ==> TaskOf(processes[k]) == before[k]
      invariant success <==> forall k :: 0 <= k < i ==> SetSucceeds(before[k], priority, kept[k], results[k])
    {
      var process := processes[i];
      var ok; ghost var result;
      ok, result := ProcessSetPriority(curve, process, priority, preserve, lowered(process));
      success, results := success && ok, results + [result];
    }
  }
}
