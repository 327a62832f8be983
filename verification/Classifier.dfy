/** The classification functions at work on the attributes of one process. */
module Classifier {
  import opened Wrappers
  import opened Reclassify

  class ProcAttr {
    const pid: int
    const retry: nat
    const argv: Option<seq<string>>    // what reading the arguments gives
    const stray: string                // what stands in front of them
    var binary: string
    var byArgv: bool

    constructor (pid: int, retry: nat, argv: Option<seq<string>>, stray: string, binary: string)
      ensures Value() == Attr(pid, binary, argv, stray, retry, false)
    {
      this.pid, this.retry, this.argv, this.stray := pid, retry, argv, stray;
      this.binary, byArgv := binary, false;
    }

    function Value(): Attr
      reads this
    {
      Attr(pid, binary, argv, stray, retry, byArgv)
    }
  }

  /** What classify_by_binary returns: an error, which is not 0, or the answer of the rules. */
  datatype Status = NoSuchProcess | Classified(success: bool)

  class Context {
    const base: RuleBase
    var known: multiset<int>    // the pids of the process table
    var effects: seq<Effect>    // timers set, processes given up and grouped, actions performed

    constructor (base: RuleBase, known: multiset<int>)
      ensures this.base == base && this.known == known && effects == []
    {
      this.base, this.known, effects := base, known, [];
    }

    /** The state after a pass that started with `before` done. */
    ghost predicate Done(attr: ProcAttr, p: Pass, before: seq<Effect>, success: bool)
      reads this, attr
    {
      attr.Value() == p.attr && known == p.known && effects == before + p.effects && success == p.success
    }

    method ClassifySchedule(pid: int, delay: nat, count: nat)
      modifies this`effects
      ensures effects == old(effects) + [Scheduled(pid, delay, count)]
    {
      effects := effects + [Scheduled(pid, delay, count)];
    }

    /** At the maximum the process is looked up and ignored for good. */
    method GiveUp(pid: int)
      modifies this
      ensures known == old(known) - multiset{pid} && effects == old(effects) + [GaveUp(pid)]
    {
      effects := effects + [GaveUp(pid)];
      if pid in known {
        known := known - multiset{pid};
      }
    }

    /** The process is looked up, or created, and put into the group. */
    method ActionGroupExec(pid: int, id: nat)
      modifies this
      ensures known == Met(old(known), pid) && effects == old(effects) + [Grouped(pid, id)]
      ensures pid in known && old(known) <= known
    {
      if pid !in known {
        known := known + multiset{pid};
      }
      effects := effects + [Grouped(pid, id)];
    }

    method ClassifyByArgvx(attr: ProcAttr, argn: int) returns (success: bool)
      modifies this, attr
      ensures Done(attr, ByArgvx(base, old(attr.Value()), old(known), argn), old(effects), success)
      decreases Level(attr.Value()), 0, 0
    {
      if attr.byArgv {
        effects := effects + [LoopRefused];
        return false;
      }
      if attr.argv == None { return false; }
      effects := effects + [ByArgument(argn)];
      var argv := attr.argv.value;
      attr.binary := if argn >= |argv| then NO_ARGUMENT else if argn < 0 then attr.stray else argv[argn];
      attr.byArgv := true;
      success := ClassifyByRules(Event(Exec, 0), attr);
    }

    method ActionClassifyExec(attr: ProcAttr, delay: int) returns (success: bool)
      modifies this, attr
      ensures Done(attr, Act(base, old(attr.Value()), old(known), Reclassify(delay)), old(effects), success)
      decreases Level(attr.Value()), 0, 1
    {
      if delay > 0 {
        if attr.retry < CGRP_RECLASSIFY_MAX {
          ClassifySchedule(attr.pid, delay, attr.retry + 1);
        } else {
          GiveUp(attr.pid);
        }
        return true;
      }
      success := ClassifyByArgvx(attr, -delay - 1);
    }

    method ActionExecOne(attr: ProcAttr, action: Action) returns (success: bool)
      modifies this, attr
      ensures Done(attr, Act(base, old(attr.Value()), old(known), action), old(effects), success)
      decreases Level(attr.Value()), 0, 2
    {
      match action {
        case Reclassify(delay) => success := ActionClassifyExec(attr, delay);
        case Group(id) =>
          ActionGroupExec(attr.pid, id);
          success := true;
        case Ignore => success := true;
        case Other(id, ok) =>
          effects := effects + [Performed(id)];
          success := ok;
      }
    }

    /** Every action is carried out, in order; one that fails does not stop the others. */
    method ActionExec(attr: ProcAttr, actions: seq<Action>) returns (success: bool)
      modifies this, attr
      ensures Done(attr, ExecAll(base, old(attr.Value()), old(known), actions), old(effects), success)
      decreases Level(attr.Value()), 1, |actions|
    {
      ghost var whole := ExecAll(base, attr.Value(), known, actions);
      success := true;
      for i := 0 to |actions|
        invariant attr.byArgv || !old(attr.byArgv)
        invariant var rest := ExecAll(base, attr.Value(), known, actions[i..]);
                  whole.attr == rest.attr && whole.known == rest.known && whole.success == (success && rest.success) &&
                  old(effects) + whole.effects == effects + rest.effects
      {
        assert actions[i..][1..] == actions[i + 1..];
        var ok := ActionExecOne(attr, actions[i]);
        success := success && ok;
      }
    }

    method ClassifyByRules(event: Event, attr: ProcAttr) returns (success: bool)
      modifies this, attr
      ensures Done(attr, ByRules(base, event, old(attr.Value()), old(known)), old(effects), success)
      decreases Level(attr.Value()), 2, 0
    {
      var rule := Find(base, event, attr.binary);
      var actions := [];
      if rule == None {
        if Omitted(base, event) { return true; }
      } else {
        actions := rule.value(attr.Value());
      }
      if actions == [] && base.fallback != None {
        actions := base.fallback.value(attr.Value());
      }
      assert Choose(base, event, attr.Value()) == Some(actions);
      if actions == [] { return false; }
      success := ActionExec(attr, actions);
    }

    /** A reclassification timer fires: an unknown process is created first, unless it is gone already. */
    method ClassifyByBinary(pid: int, count: nat, binary: string, readable: bool, argv: Option<seq<string>>, stray: string)
      returns (status: Status)
      modifies this
      ensures var p := ByRules(base, Event(Exec, 0), Attr(pid, binary, argv, stray, count, false), Met(old(known), pid));
              if pid !in old(known) && !readable
              then status == NoSuchProcess && known == old(known) && effects == old(effects)
              else status == Classified(p.success) && known == p.known && effects == old(effects) + p.effects
      ensures count < 16 && (pid in old(known) || readable) ==> pid in known
      ensures count < 16 ==> old(known) <= known
    {
      if pid !in known {
        if !readable { return NoSuchProcess; }
        known := known + multiset{pid};
      }
      var attr := new ProcAttr(pid, count, argv, stray, binary);
      if count < 16 {
        PassKeeps(base, Event(Exec, 0), attr.Value(), known);
      }
      var success := ClassifyByRules(Event(Exec, 0), attr);
      status := Classified(success);
    }
  }
}
