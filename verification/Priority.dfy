/** Process priorities: who may set them, how they become nice values, and what the kernel is told. */
module Priority {
  import opened Wrappers
  import opened CgroupTypes
  import opened ResponseCurve

  datatype Adjust = Absolute | Relative | Lock | Unlock | ToExtern | ToIntern

  /** A process's priority fields; `asked` and `nice` are the last nice values asked and accepted. */
  datatype Task = Task(priority: int, mode: PrioMode, asked: Option<int>, nice: Option<int>)

  /** A request, and what the kernel would say to a nice value from it. */
  datatype Command = Command(adjust: Adjust, value: int, result: Result)

  const Fresh: Task := Task(0, Default, None, None)

  ghost predicate IsCurve(curve: Option<Table>) {
    curve.Some? ==> curve.value.Valid()
  }

  function Clamped(curve: Option<Table>, x: int): int {
    if curve == None then x else curve.value.Clamp(x)
  }

  function Nice(curve: Option<Table>, x: int): (nice: int)
    requires IsCurve(curve)
    ensures -20 <= nice <= 19
  {
    var mapped := if curve == None then x else curve.value.Map(x);
    if mapped > 19 then 19 else if mapped < -20 then -20 else mapped
  }

  /** The mode after a request, and whether its value is considered. */
  function Decide(mode: PrioMode, adjust: Adjust): (PrioMode, bool) {
    match mode
    case Default =>
      if adjust == Lock then (Locked, true) else if adjust == ToExtern then (Extern, false) else (Default, true)
    case Locked =>
      if adjust == Unlock then (Default, true)
      else if adjust == ToExtern then (Extern, false)
      else (Locked, adjust == Lock)
    case Extern =>
      if adjust == ToIntern then (Default, true) else (Extern, false)
  }

  function Wanted(t: Task, c: Command): int {
    if c.adjust == Relative then t.priority + c.value else c.value
  }

  /** Whether a request reaches the kernel. */
  predicate Asks(t: Task, c: Command) {
    Decide(t.mode, c.adjust).1 && Wanted(t, c) != t.priority
  }

  /** The priority is recorded whatever the kernel says. */
  function Apply(curve: Option<Table>, t: Task, c: Command): Task
    requires IsCurve(curve)
  {
    var mode := Decide(t.mode, c.adjust).0;
    if !Asks(t, c) then t.(mode := mode)
    else
      var nice := Some(Nice(curve, Wanted(t, c)));
      Task(Clamped(curve, Wanted(t, c)), mode, nice, if c.result == Written then nice else t.nice)
  }

  function Run(curve: Option<Table>, t: Task, cs: seq<Command>): Task
    requires IsCurve(curve)
    decreases |cs|
  {
    if cs == [] then t else Run(curve, Apply(curve, t, cs[0]), cs[1..])
  }

  // --- modes

  function Only(cs: seq<Command>, adjust: Adjust): seq<Command> {
    if cs == [] then []
    else (if cs[0].adjust == adjust then [cs[0]] else []) + Only(cs[1..], adjust)
  }

  /** From lock to unlock or extern, a run does what its lock requests alone would do. */
  lemma {:induction false} OnlyLocksCount(curve: Option<Table>, t: Task, cs: seq<Command>)
    requires IsCurve(curve) && t.mode == Locked
    requires forall c :: c in cs ==> c.adjust != Unlock && c.adjust != ToExtern
    ensures Run(curve, t, cs) == Run(curve, t, Only(cs, Lock)) && Run(curve, t, cs).mode == Locked
    decreases |cs|
  {
    if cs != [] {
      var t' := Apply(curve, t, cs[0]);
      OnlyLocksCount(curve, t', cs[1..]);
      if cs[0].adjust == Lock {
        assert Only(cs, Lock)[1..] == Only(cs[1..], Lock);
      } else {
        assert t' == t;
        assert Only(cs, Lock) == Only(cs[1..], Lock);
      }
    }
  }

  /** From extern to intern, nothing is recorded and nothing is asked of the kernel. */
  lemma {:induction false} ExternIsLeftAlone(curve: Option<Table>, t: Task, cs: seq<Command>)
    requires IsCurve(curve) && t.mode == Extern
    requires forall c :: c in cs ==> c.adjust != ToIntern
    ensures Run(curve, t, cs) == t
    decreases |cs|
  {
    if cs != [] {
      ExternIsLeftAlone(curve, t, cs[1..]);
    }
  }

  /**
   Extern hands a process over as it is; lock, unlock from locked and intern from extern set mode and
   priority together.
   */
  lemma {:induction false} RequestsSwitchModes(curve: Option<Table>, t: Task, c: Command)
    requires IsCurve(curve)
    ensures var t' := Apply(curve, t, c);
            && (c.adjust == ToExtern ==> t' == t.(mode := Extern))
            && (c.adjust == Lock && t.mode != Extern ==> t'.mode == Locked && Takes(curve, t, t', c.value))
            && (c.adjust == Unlock && t.mode == Locked ==> t'.mode == Default && Takes(curve, t, t', c.value))
            && (c.adjust == ToIntern && t.mode == Extern ==> t'.mode == Default && Takes(curve, t, t', c.value))
  {
  }

  /**
   In default mode a relative request adds to the recorded priority and an absolute one replaces it,
   and what is asked of the kernel, if the priority is to change, is the nice value of that.
   */
  lemma {:induction false} DefaultTakesRequests(curve: Option<Table>, t: Task, value: int, result: Result)
    requires IsCurve(curve) && t.mode == Default
    ensures var t' := Apply(curve, t, Command(Relative, value, result));
            && t'.mode == Default && Takes(curve, t, t', t.priority + value)
            && (value == 0 ==> t' == t)
            && (value != 0 ==> t'.asked == Some(Nice(curve, t.priority + value))
                               && t'.nice == if result == Written then t'.asked else t.nice)
    ensures forall adjust :: adjust == Absolute || adjust == Unlock || adjust == ToIntern ==>
              var t' := Apply(curve, t, Command(adjust, value, result));
              && t'.mode == Default && Takes(curve, t, t', value)
              && (value == t.priority ==> t' == t)
              && (value != t.priority ==> t'.asked == Some(Nice(curve, value))
                                          && t'.nice == if result == Written then t'.asked else t.nice)
  {
  }

  /** In every mode: a priority that changes is asked of the kernel, and only what the kernel grants is set there. */
  lemma {:induction false} ChangesAreAsked(curve: Option<Table>, t: Task, c: Command)
    requires IsCurve(curve)
    ensures var t' := Apply(curve, t, c);
            && (t'.priority != t.priority ==> t'.asked == Some(Nice(curve, c.value + if c.adjust == Relative then t.priority else 0)))
            && (t'.nice != t.nice ==> c.result == Written && t'.nice == t'.asked)
            && (t'.asked != t.asked && c.result == Written ==> t'.nice == t'.asked)
  {
  }

  function Sum(cs: seq<Command>): int {
    if cs == [] then 0 else cs[0].value + Sum(cs[1..])
  }

  /** Without a curve, relative requests in default mode add up, and the kernel ends with the clipped total. */
  lemma {:induction false} RelativesAddUp(t: Task, cs: seq<Command>)
    requires t.mode == Default && (forall c :: c in cs ==> c.adjust == Relative && c.result == Written)
    requires -20 <= t.priority + Sum(cs) <= 19
    ensures var t' := Run(None, t, cs);
            && t'.mode == Default && t'.priority == t.priority + Sum(cs)
            && (InStep(None, t) ==> t'.nice == Some(t.priority + Sum(cs)))
    decreases |cs|
  {
    if cs != [] {
      DefaultTakesRequests(None, t, cs[0].value, Written);
      assert cs[0] == Command(Relative, cs[0].value, Written);
      RelativesAddUp(Apply(None, t, cs[0]), cs[1..]);
    }
  }

  /** What an input has become in a table, if there is one. */
  ghost predicate Looked(curve: Option<Table>, x: int, mapped: int)
    requires IsCurve(curve)
  {
    match curve
    case None => mapped == x
    case Some(t) =>
      && (x < t.min ==> mapped == t.out[0])
      && (t.min <= x <= t.max ==> mapped == t.out[x - t.min])
      && (x > t.max ==> mapped == t.out[|t.out| - 1])
  }

  /** The nice value is the one of the kernel's range nearest to what the curve gives. */
  lemma {:induction false} NiceIsNearest(curve: Option<Table>, x: int, mapped: int)
    requires IsCurve(curve) && Looked(curve, x, mapped)
    ensures -20 <= mapped <= 19 ==> Nice(curve, x) == mapped
    ensures mapped > 19 ==> Nice(curve, x) == 19
    ensures mapped < -20 ==> Nice(curve, x) == -20
    ensures Clamped(curve, x) == match curve
                                 case None => x
                                 case Some(t) => if x < t.min then t.min else if x > t.max then t.max else x
  {
    if curve.Some? {
      MapIsLookup(curve.value, x);
    }
  }

  /** The value has become the priority, clamped unless it was the priority already. */
  predicate Takes(curve: Option<Table>, t: Task, t': Task, value: int) {
    t'.priority == if value == t.priority then value else Clamped(curve, value)
  }

  // --- recorded priority and nice value

  /** The nice value last asked for is that of the recorded priority. */
  ghost predicate Matches(curve: Option<Table>, t: Task)
    requires IsCurve(curve)
  {
    t.asked != None ==> t.asked.value == Nice(curve, t.priority)
  }

  lemma {:induction false} AskedMatchesRecorded(curve: Option<Table>, t: Task, cs: seq<Command>)
    requires IsCurve(curve) && Matches(curve, t)
    ensures Matches(curve, Run(curve, t, cs))
    decreases |cs|
  {
    if cs != [] {
      AskedMatchesRecorded(curve, Apply(curve, t, cs[0]), cs[1..]);
    }
  }

  lemma {:induction false} AskedStays(curve: Option<Table>, t: Task, cs: seq<Command>)
    requires IsCurve(curve) && t.asked != None
    ensures Run(curve, t, cs).asked != None
    decreases |cs|
  {
    if cs != [] {
      AskedStays(curve, Apply(curve, t, cs[0]), cs[1..]);
    }
  }

  ghost predicate AllWritten(cs: seq<Command>) {
    forall c :: c in cs ==> c.result == Written
  }

  lemma {:induction false} AcceptedAsAsked(curve: Option<Table>, t: Task, cs: seq<Command>)
    requires IsCurve(curve) && AllWritten(cs) && t.nice == t.asked
    ensures var t' := Run(curve, t, cs); t'.nice == t'.asked
    decreases |cs|
  {
    if cs != [] {
      AcceptedAsAsked(curve, Apply(curve, t, cs[0]), cs[1..]);
    }
  }

  /**
   From the first write on, while writes succeed, the kernel has the nice value of the recorded
   priority: passing over a request for the recorded priority loses nothing.
   */
  lemma {:induction false} NiceFollowsPriority(curve: Option<Table>, before: seq<Command>, after: seq<Command>)
    requires IsCurve(curve) && AllWritten(before) && AllWritten(after)
    requires Run(curve, Fresh, before).asked != None
    ensures var t := Run(curve, Run(curve, Fresh, before), after); t.nice == Some(Nice(curve, t.priority))
  {
    var t := Run(curve, Fresh, before);
    AskedMatchesRecorded(curve, Fresh, before);
    AcceptedAsAsked(curve, Fresh, before);
    AskedMatchesRecorded(curve, t, after);
    AcceptedAsAsked(curve, t, after);
    AskedStays(curve, t, after);
  }

  ghost predicate InStep(curve: Option<Table>, t: Task)
    requires IsCurve(curve)
  {
    t.nice == Some(Nice(curve, t.priority))
  }

  /**
   One request keeps the kernel in step if and only if it asks for nothing, is granted, or asks
   for the nice value already set.
   */
  lemma {:induction false} StaysInStepIff(curve: Option<Table>, t: Task, c: Command)
    requires IsCurve(curve) && InStep(curve, t)
    ensures InStep(curve, Apply(curve, t, c)) <==>
            !Asks(t, c) || c.result == Written || Nice(curve, Wanted(t, c)) == Nice(curve, t.priority)
  {
  }

  /** An update that failed is lost: asking for the same priority again never reaches the kernel. */
  lemma {:induction false} FailedUpdateIsLost(curve: Option<Table>, t: Task, c: Command, again: seq<Command>)
    requires IsCurve(curve) && InStep(curve, t) && t.mode == Default
    requires c.adjust == Absolute && c.result != Written && Clamped(curve, c.value) == c.value
    requires Nice(curve, c.value) != Nice(curve, t.priority)
    requires forall d :: d in again ==> d.adjust == Absolute && d.value == c.value
    ensures !InStep(curve, Run(curve, Apply(curve, t, c), again))
    decreases |again|
  {
    var t' := Apply(curve, t, c);
    SameRequestIsPassedOver(curve, t', c.value, again);
  }

  lemma {:induction false} SameRequestIsPassedOver(curve: Option<Table>, t: Task, value: int, again: seq<Command>)
    requires IsCurve(curve) && t.mode == Default && t.priority == value
    requires forall d :: d in again ==> d.adjust == Absolute && d.value == value
    ensures Run(curve, t, again) == t
    decreases |again|
  {
    if again != [] {
      SameRequestIsPassedOver(curve, t, value, again[1..]);
    }
  }

  // --- groups

  /** A request to each task of a group, with the kernel's answers. */
  datatype GroupCommand = GroupCommand(adjust: Adjust, value: int, results: seq<Result>)

  function ApplyAll(curve: Option<Table>, tasks: seq<Task>, c: GroupCommand): (after: seq<Task>)
    requires IsCurve(curve) && |c.results| == |tasks|
    ensures |after| == |tasks|
  {
    seq(|tasks|, i requires 0 <= i < |tasks| => Apply(curve, tasks[i], Command(c.adjust, c.value, c.results[i])))
  }

  function RunAll(curve: Option<Table>, tasks: seq<Task>, cs: seq<GroupCommand>): (after: seq<Task>)
    requires IsCurve(curve) && forall c :: c in cs ==> |c.results| == |tasks|
    ensures |after| == |tasks|
    decreases |cs|
  {
    if cs == [] then tasks else RunAll(curve, ApplyAll(curve, tasks, cs[0]), cs[1..])
  }

  /** A recorded priority is the initial one or in the curve's range. */
  ghost predicate Settled(curve: Option<Table>, t: Task)
    requires IsCurve(curve)
  {
    (t.priority == 0 || Clamped(curve, t.priority) == t.priority) && Matches(curve, t)
  }

  lemma {:induction false} RunSettles(curve: Option<Table>, t: Task, cs: seq<Command>)
    requires IsCurve(curve) && Settled(curve, t)
    ensures Settled(curve, Run(curve, t, cs))
    decreases |cs|
  {
    if cs != [] {
      RunSettles(curve, Apply(curve, t, cs[0]), cs[1..]);
    }
  }

  ghost predicate Ordered(curve: Option<Table>, a: Task, b: Task)
    requires IsCurve(curve)
  {
    Settled(curve, a) && Settled(curve, b) && a.mode == b.mode && a.priority <= b.priority
  }

  lemma {:induction false} ApplySettles(curve: Option<Table>, t: Task, c: Command)
    requires IsCurve(curve) && Settled(curve, t)
    ensures Settled(curve, Apply(curve, t, c))
  {
  }

  lemma {:induction false} PrioritiesStayOrdered(curve: Option<Table>, a: Task, b: Task, adjust: Adjust, value: int, ra: Result, rb: Result)
    requires IsCurve(curve) && Ordered(curve, a, b)
    ensures Apply(curve, a, Command(adjust, value, ra)).priority <= Apply(curve, b, Command(adjust, value, rb)).priority
  {
    hide Nice;
    if adjust == Relative {
      assert Clamped(curve, a.priority + value) <= Clamped(curve, b.priority + value);
    }
  }

  lemma {:induction false} ApplyKeepsOrder(curve: Option<Table>, a: Task, b: Task, adjust: Adjust, value: int, ra: Result, rb: Result)
    requires IsCurve(curve) && Ordered(curve, a, b)
    ensures Ordered(curve, Apply(curve, a, Command(adjust, value, ra)), Apply(curve, b, Command(adjust, value, rb)))
  {
    ApplySettles(curve, a, Command(adjust, value, ra));
    ApplySettles(curve, b, Command(adjust, value, rb));
    PrioritiesStayOrdered(curve, a, b, adjust, value, ra, rb);
  }

  lemma {:induction false} NiceIsMonotone(curve: Option<Table>, lo: int, hi: int, x: int, y: int)
    requires IsCurve(curve) && (curve.Some? ==> curve.value.Climbs(lo, hi)) && x <= y
    ensures Nice(curve, x) <= Nice(curve, y)
  {
    if curve.Some? {
      var t := curve.value;
      assert t.out[t.Clamp(x) - t.min] <= t.out[t.Clamp(y) - t.min];
    }
  }

  /**
   Two members that start in the same mode keep the order of their priorities over every run of
   group requests, whatever the kernel answers; with a climbing curve the nice values asked for
   them are in that order too.
   */
  lemma {:induction false} GroupRunKeepsOrder(curve: Option<Table>, lo: int, hi: int, tasks: seq<Task>,
                                              cs: seq<GroupCommand>, i: nat, j: nat)
    requires IsCurve(curve) && (curve.Some? ==> curve.value.Climbs(lo, hi))
    requires forall c :: c in cs ==> |c.results| == |tasks|
    requires i < |tasks| && j < |tasks| && Ordered(curve, tasks[i], tasks[j])
    ensures var after := RunAll(curve, tasks, cs);
            && Ordered(curve, after[i], after[j])
            && (after[i].asked != None && after[j].asked != None ==> after[i].asked.value <= after[j].asked.value)
    decreases |cs|
  {
    if cs == [] {
      NiceIsMonotone(curve, lo, hi, tasks[i].priority, tasks[j].priority);
    } else {
      var c := cs[0];
      ApplyKeepsOrder(curve, tasks[i], tasks[j], c.adjust, c.value, c.results[i], c.results[j]);
      GroupRunKeepsOrder(curve, lo, hi, ApplyAll(curve, tasks, c), cs[1..], i, j);
    }
  }

  // --- the priority of a group

  /** What becomes of a priority the process may have lowered itself (a positive nice value). */
  datatype Preserve = Low | Overwrite | All {
    predicate Keeps(lowered: bool) {
      this == All || (this == Low && lowered)
    }
  }

  function SetTask(curve: Option<Table>, t: Task, priority: int, kept: bool, result: Result): Task
    requires IsCurve(curve)
  {
    if kept then t else Apply(curve, t, Command(Absolute, priority, result))
  }

  /** The tasks of a group and its priority. */
  datatype Members = Members(priority: int, tasks: seq<Task>)

  datatype MemberEvent =
    | SetPriority(priority: int, allKept: seq<bool>, results: seq<Result>)
    | Joined(task: Task, kept: bool, result: Result)

  predicate Fits(g: Members, e: MemberEvent) {
    e.SetPriority? ==> |e.allKept| == |e.results| == |g.tasks|
  }

  function SetMembers(curve: Option<Table>, g: Members, priority: int, kept: seq<bool>, results: seq<Result>): Members
    requires IsCurve(curve) && |kept| == |results| == |g.tasks|
  {
    if g.priority == priority then g
    else Members(priority, seq(|g.tasks|, i requires 0 <= i < |g.tasks| =>
                                 SetTask(curve, g.tasks[i], priority, kept[i], results[i])))
  }

  /** A task that joins gets the priority of the group, if the group sets one. */
  function JoinTask(curve: Option<Table>, t: Task, priority: int, kept: bool, result: Result): Task
    requires IsCurve(curve)
  {
    if priority == CGRP_DEFAULT_PRIORITY then t else SetTask(curve, t, priority, kept, result)
  }

  /** Unless its group sets no priority, or its own is kept, a task that joins in default mode takes the group's. */
  lemma {:induction false} JoinersTake(curve: Option<Table>, t: Task, priority: int, kept: bool, result: Result)
    requires IsCurve(curve) && t.mode == Default
    ensures var t' := JoinTask(curve, t, priority, kept, result);
            if priority == 0xffff || kept then t' == t else t'.mode == Default && Takes(curve, t, t', priority)
  {
  }

  function AfterEvent(curve: Option<Table>, g: Members, e: MemberEvent): Members
    requires IsCurve(curve) && Fits(g, e)
  {
    match e
    case SetPriority(priority, kept, results) => SetMembers(curve, g, priority, kept, results)
    case Joined(t, kept, result) => g.(tasks := g.tasks + [JoinTask(curve, t, g.priority, kept, result)])
  }

  ghost function RunMembers(curve: Option<Table>, g: Members, es: seq<MemberEvent>): Option<Members>
    requires IsCurve(curve)
    decreases |es|
  {
    if es == [] then Some(g)
    else if !Fits(g, es[0]) then None
    else RunMembers(curve, AfterEvent(curve, g, es[0]), es[1..])
  }

  /** A task in default mode with a priority of the curve's range. */
  predicate Plain(curve: Option<Table>, t: Task) {
    t.mode == Default && Clamped(curve, t.priority) == t.priority
  }

  ghost predicate Uniform(curve: Option<Table>, g: Members) {
    forall t :: t in g.tasks ==>
      Plain(curve, t) && (g.priority != CGRP_DEFAULT_PRIORITY ==> t.priority == Clamped(curve, g.priority))
  }

  /** Nothing is kept, and tasks join in default mode. */
  ghost predicate Overwriting(curve: Option<Table>, e: MemberEvent) {
    match e
    case SetPriority(_, kept, _) => forall i :: 0 <= i < |kept| ==> !kept[i]
    case Joined(t, kept, _) => Plain(curve, t) && !kept
  }

  lemma {:induction false} SetTaskIsPlain(curve: Option<Table>, t: Task, priority: int, result: Result)
    requires IsCurve(curve) && Plain(curve, t)
    ensures var t' := SetTask(curve, t, priority, false, result);
            Plain(curve, t') && t'.priority == Clamped(curve, priority)
  {
  }

  lemma {:induction false} EventKeepsUniform(curve: Option<Table>, g: Members, e: MemberEvent)
    requires IsCurve(curve) && Uniform(curve, g) && Overwriting(curve, e) && Fits(g, e)
    ensures Uniform(curve, AfterEvent(curve, g, e))
  {
    match e {
      case SetPriority(priority, kept, results) =>
        forall i | 0 <= i < |g.tasks|
          ensures var t' := SetTask(curve, g.tasks[i], priority, kept[i], results[i]);
                  Plain(curve, t') && t'.priority == Clamped(curve, priority)
        {
          assert Plain(curve, g.tasks[i]) && !kept[i];
          SetTaskIsPlain(curve, g.tasks[i], priority, results[i]);
        }
      case Joined(t, kept, result) => SetTaskIsPlain(curve, t, g.priority, result);
    }
  }

  /** A group's priority holds for all its members over every run, those that join late included. */
  lemma {:induction false} GroupPriorityHolds(curve: Option<Table>, g: Members, es: seq<MemberEvent>)
    requires IsCurve(curve) && Uniform(curve, g)
    requires forall e :: e in es ==> Overwriting(curve, e)
    requires RunMembers(curve, g, es) != None
    ensures Uniform(curve, RunMembers(curve, g, es).value)
    decreases |es|
  {
    if es != [] {
      assert es[0] in es;
      EventKeepsUniform(curve, g, es[0]);
      GroupPriorityHolds(curve, AfterEvent(curve, g, es[0]), es[1..]);
    }
  }
}
