/** Classification by rules, reclassification after a delay, and classification by an argument. */
module Reclassify {
  import opened Wrappers

  const CGRP_RECLASSIFY_MAX: nat := 16
  const NO_ARGUMENT: string := "<none>"

  /**
   What is known of the process being classified; `argv` is None when it cannot be read, and `stray`
   is what happens to stand in front of the arguments.
   */
  datatype Attr = Attr(pid: int, binary: string, argv: Option<seq<string>>, stray: string, retry: nat, byArgv: bool)

  /**
   A positive delay classifies again later, -1 - n classifies by argument n now. `ok` is what an
   action returns that has to do with neither rules nor the process table.
   */
  datatype Action = Reclassify(delay: int) | Group(id: nat) | Ignore | Other(id: nat, ok: bool)

  datatype Effect =
    | Scheduled(pid: int, delay: nat, count: nat)
    | GaveUp(pid: int)
    | Grouped(pid: int, id: nat)
    | ByArgument(argn: int)
    | LoopRefused
    | Performed(id: nat)

  datatype Kind = Exec | Fork | Force | Uid | Gid | Sid | Comm | Thread
  datatype Event = Event(kind: Kind, id: int)

  /** Rules give actions; a definition has rules for some events only. */
  type Rule = Attr -> seq<Action>
  type Definition = Event -> Option<Rule>

  /** Definitions by binary, from the configuration and from add-ons, and the fallback. */
  datatype RuleBase = RuleBase(
    primary: map<string, Definition>,
    addons: map<string, Definition>,
    fallback: Option<Rule>,
    alwaysFallback: bool)

  function Find(base: RuleBase, event: Event, binary: string): Option<Rule> {
    if binary in base.primary then base.primary[binary](event)
    else if binary in base.addons then base.addons[binary](event)
    else None
  }

  /** Without rules of their own, these events are passed over unless the fallback is always to be used. */
  predicate Omitted(base: RuleBase, event: Event) {
    !base.alwaysFallback && event.kind in {Uid, Gid, Sid, Comm, Thread}
  }

  /** The actions for a process, or None if the event is passed over. */
  function Choose(base: RuleBase, event: Event, attr: Attr): Option<seq<Action>> {
    var rule := Find(base, event, attr.binary);
    if rule == None && Omitted(base, event) then None
    else
      var actions := if rule == None then [] else rule.value(attr);
      Some(if actions != [] || base.fallback == None then actions else base.fallback.value(attr))
  }

  /** What became of an attempt: the attributes and the known processes after it, its effects and its answer. */
  datatype Pass = Pass(attr: Attr, known: multiset<int>, effects: seq<Effect>, success: bool)

  function Level(attr: Attr): nat {
    if attr.byArgv then 0 else 1
  }

  /** The attributes for classification by an argument. */
  function Named(attr: Attr, argn: int): (named: Attr)
    requires attr.argv != None
    ensures named.byArgv && named.pid == attr.pid && named.retry == attr.retry
  {
    var argv := attr.argv.value;
    attr.(binary := if argn >= |argv| then NO_ARGUMENT else if argn < 0 then attr.stray else argv[argn], byArgv := true)
  }

  ghost predicate Continues(p: Pass, attr: Attr) {
    p.attr.pid == attr.pid && p.attr.retry == attr.retry && (attr.byArgv ==> p.attr.byArgv)
  }

  function ByRules(base: RuleBase, event: Event, attr: Attr, known: multiset<int>): (p: Pass)
    ensures Continues(p, attr)
    decreases Level(attr), 2, 0
  {
    match Choose(base, event, attr)
    case None => Pass(attr, known, [], true)
    case Some(actions) => if actions == [] then Pass(attr, known, [], false) else ExecAll(base, attr, known, actions)
  }

  function ExecAll(base: RuleBase, attr: Attr, known: multiset<int>, actions: seq<Action>): (p: Pass)
    ensures Continues(p, attr)
    decreases Level(attr), 1, |actions|
  {
    if actions == [] then Pass(attr, known, [], true)
    else
      var first := Act(base, attr, known, actions[0]);
      var rest := ExecAll(base, first.attr, first.known, actions[1..]);
      Pass(rest.attr, rest.known, first.effects + rest.effects, first.success && rest.success)
  }

  /** At the maximum the oldest entry of the process is dropped, if there is one. */
  function Act(base: RuleBase, attr: Attr, known: multiset<int>, action: Action): (p: Pass)
    ensures Continues(p, attr)
    decreases Level(attr), 0, 1
  {
    match action
    case Reclassify(delay) =>
      if delay <= 0 then ByArgvx(base, attr, known, -delay - 1)
      else if attr.retry < CGRP_RECLASSIFY_MAX then
        Pass(attr, known, [Scheduled(attr.pid, delay, attr.retry + 1)], true)
      else Pass(attr, known - multiset{attr.pid}, [GaveUp(attr.pid)], true)
    case Group(id) =>
      Pass(attr, if attr.pid in known then known else known + multiset{attr.pid}, [Grouped(attr.pid, id)], true)
    case Ignore => Pass(attr, known, [], true)
    case Other(id, ok) => Pass(attr, known, [Performed(id)], ok)
  }

  function ByArgvx(base: RuleBase, attr: Attr, known: multiset<int>, argn: int): (p: Pass)
    ensures Continues(p, attr)
    decreases Level(attr), 0, 0
  {
    if attr.byArgv then Pass(attr, known, [LoopRefused], false)
    else if attr.argv == None then Pass(attr, known, [], false)
    else
      var inner := ByRules(base, Event(Exec, 0), Named(attr, argn), known);
      inner.(effects := [ByArgument(argn)] + inner.effects)
  }

  // --- rules and add-ons

  /** Two rule bases that choose alike for an event. */
  ghost predicate ChooseAlike(a: RuleBase, b: RuleBase, event: Event) {
    forall attr :: Choose(a, event, attr) == Choose(b, event, attr)
  }

  lemma {:induction false} AlikeExecAll(a: RuleBase, b: RuleBase, attr: Attr, known: multiset<int>, actions: seq<Action>)
    requires ChooseAlike(a, b, Event(Exec, 0))
    ensures ExecAll(a, attr, known, actions) == ExecAll(b, attr, known, actions)
    decreases Level(attr), 1, |actions|
  {
    if actions != [] {
      AlikeAct(a, b, attr, known, actions[0]);
      var first := Act(a, attr, known, actions[0]);
      AlikeExecAll(a, b, first.attr, first.known, actions[1..]);
    }
  }

  lemma {:induction false} AlikeAct(a: RuleBase, b: RuleBase, attr: Attr, known: multiset<int>, action: Action)
    requires ChooseAlike(a, b, Event(Exec, 0))
    ensures Act(a, attr, known, action) == Act(b, attr, known, action)
    decreases Level(attr), 0, 1
  {
    if action.Reclassify? && action.delay <= 0 && !attr.byArgv && attr.argv != None {
      AlikeByRules(a, b, Event(Exec, 0), Named(attr, -action.delay - 1), known);
      assert ByArgvx(a, attr, known, -action.delay - 1) == ByArgvx(b, attr, known, -action.delay - 1);
    }
  }

  /** Passes depend on a rule base only through what it chooses, those by argument included. */
  lemma {:induction false} AlikeByRules(a: RuleBase, b: RuleBase, event: Event, attr: Attr, known: multiset<int>)
    requires ChooseAlike(a, b, event) && ChooseAlike(a, b, Event(Exec, 0))
    ensures ByRules(a, event, attr, known) == ByRules(b, event, attr, known)
    decreases Level(attr), 2, 0
  {
    assert Choose(a, event, attr) == Choose(b, event, attr);
    var choice := Choose(a, event, attr);
    if choice != None {
      AlikeExecAll(a, b, attr, known, choice.value);
    }
  }

  /** Add-ons for binaries that the configuration defines make no difference to any pass. */
  lemma {:induction false} AddOnsNeverShadow(base: RuleBase, event: Event, attr: Attr, known: multiset<int>)
    ensures ByRules(base.(addons := base.addons - base.primary.Keys), event, attr, known) ==
            ByRules(base, event, attr, known)
  {
    AlikeByRules(base.(addons := base.addons - base.primary.Keys), base, event, attr, known);
  }

  /** A binary without a definition is classified on exec as if the fallback were its own rule. */
  lemma {:induction false} FallbackStandsIn(base: RuleBase, binary: string, attr: Attr, known: multiset<int>)
    requires binary !in base.primary && binary !in base.addons
    ensures var own: Definition := (event: Event) => base.fallback;
            ByRules(base.(primary := base.primary[binary := own]), Event(Exec, 0), attr, known) ==
            ByRules(base, Event(Exec, 0), attr, known)
  {
    var own: Definition := (event: Event) => base.fallback;
    AlikeByRules(base.(primary := base.primary[binary := own]), base, Event(Exec, 0), attr, known);
  }

  // --- one pass

  function Nestings(effects: seq<Effect>): nat {
    if effects == [] then 0 else (if effects[0].ByArgument? then 1 else 0) + Nestings(effects[1..])
  }

  function Schedules(effects: seq<Effect>): seq<Effect> {
    if effects == [] then []
    else (if effects[0].Scheduled? then [effects[0]] else []) + Schedules(effects[1..])
  }

  lemma {:induction false} EffectsConcat(a: seq<Effect>, b: seq<Effect>)
    ensures Nestings(a + b) == Nestings(a) + Nestings(b)
    ensures Schedules(a + b) == Schedules(a) + Schedules(b)
  {
    if a == [] {
      assert a + b == b;
    } else {
      assert (a + b)[1..] == a[1..] + b;
      EffectsConcat(a[1..], b);
      var first := if a[0].Scheduled? then [a[0]] else [];
      assert first + (Schedules(a[1..]) + Schedules(b)) == first + Schedules(a[1..]) + Schedules(b);
    }
  }

  /** Everything scheduled is for the same process, once more, and only below the maximum. */
  ghost predicate CountsOn(scheduled: seq<Effect>, attr: Attr) {
    forall i :: 0 <= i < |scheduled| ==>
      && scheduled[i].Scheduled? && scheduled[i].pid == attr.pid && scheduled[i].delay > 0
      && scheduled[i].count == attr.retry + 1 <= CGRP_RECLASSIFY_MAX
  }

  lemma {:induction false} CountsOnTogether(a: seq<Effect>, b: seq<Effect>, attr: Attr, next: Attr)
    requires CountsOn(a, attr) && CountsOn(b, next) && next.pid == attr.pid && next.retry == attr.retry
    ensures CountsOn(a + b, attr)
  {
  }

  lemma {:induction false} PassCountsOn(base: RuleBase, attr: Attr, known: multiset<int>, actions: seq<Action>)
    ensures CountsOn(Schedules(ExecAll(base, attr, known, actions).effects), attr)
    decreases Level(attr), 1, |actions|
  {
    if actions != [] {
      var first := Act(base, attr, known, actions[0]);
      var rest := ExecAll(base, first.attr, first.known, actions[1..]);
      ActCountsOn(base, attr, known, actions[0]);
      PassCountsOn(base, first.attr, first.known, actions[1..]);
      EffectsConcat(first.effects, rest.effects);
      CountsOnTogether(Schedules(first.effects), Schedules(rest.effects), attr, first.attr);
    }
  }

  lemma {:induction false} ActCountsOn(base: RuleBase, attr: Attr, known: multiset<int>, action: Action)
    ensures CountsOn(Schedules(Act(base, attr, known, action).effects), attr)
    decreases Level(attr), 0, 1
  {
    if action.Reclassify? && action.delay <= 0 && !attr.byArgv && attr.argv != None {
      var argn := -action.delay - 1;
      ByRulesCountsOn(base, Event(Exec, 0), Named(attr, argn), known);
      EffectsConcat([ByArgument(argn)], ByRules(base, Event(Exec, 0), Named(attr, argn), known).effects);
    }
  }

  lemma {:induction false} ByRulesCountsOn(base: RuleBase, event: Event, attr: Attr, known: multiset<int>)
    ensures CountsOn(Schedules(ByRules(base, event, attr, known).effects), attr)
    decreases Level(attr), 2, 0
  {
    var choice := Choose(base, event, attr);
    if choice != None {
      PassCountsOn(base, attr, known, choice.value);
    }
  }

  /** No event gives more than `limit` actions. */
  ghost predicate AtMost(base: RuleBase, limit: nat) {
    forall event, attr :: Choose(base, event, attr) != None ==> |Choose(base, event, attr).value| <= limit
  }

  /** The nestings and schedulings that a part of a pass may have, with `n` actions of its own. */
  ghost predicate Moderate(p: Pass, attr: Attr, limit: nat, n: nat) {
    && Nestings(p.effects) + Level(p.attr) <= Level(attr)
    && |Schedules(p.effects)| <= n + if Level(p.attr) < Level(attr) then limit else 0
  }

  lemma {:induction false} ModerateTogether(first: Pass, rest: Pass, both: Pass, attr: Attr, limit: nat, n: nat)
    requires Moderate(first, attr, limit, 1) && Moderate(rest, first.attr, limit, n)
    requires both.attr == rest.attr && both.effects == first.effects + rest.effects
    ensures Moderate(both, attr, limit, n + 1)
  {
    EffectsConcat(first.effects, rest.effects);
  }

  lemma {:induction false} ExecAllIsModerate(base: RuleBase, limit: nat, attr: Attr, known: multiset<int>, actions: seq<Action>)
    requires AtMost(base, limit)
    ensures Moderate(ExecAll(base, attr, known, actions), attr, limit, |actions|)
    decreases Level(attr), 1, |actions|
  {
    if actions != [] {
      var first := Act(base, attr, known, actions[0]);
      var rest := ExecAll(base, first.attr, first.known, actions[1..]);
      ActIsModerate(base, limit, attr, known, actions[0]);
      ExecAllIsModerate(base, limit, first.attr, first.known, actions[1..]);
      ModerateTogether(first, rest, ExecAll(base, attr, known, actions), attr, limit, |actions| - 1);
    }
  }

  lemma {:induction false} ActIsModerate(base: RuleBase, limit: nat, attr: Attr, known: multiset<int>, action: Action)
    requires AtMost(base, limit)
    ensures Moderate(Act(base, attr, known, action), attr, limit, 1)
    decreases Level(attr), 0, 1
  {
    if action.Reclassify? && action.delay <= 0 && !attr.byArgv && attr.argv != None {
      var argn := -action.delay - 1;
      ByRulesIsModerate(base, limit, Event(Exec, 0), Named(attr, argn), known);
      EffectsConcat([ByArgument(argn)], ByRules(base, Event(Exec, 0), Named(attr, argn), known).effects);
    }
  }

  lemma {:induction false} ByRulesIsModerate(base: RuleBase, limit: nat, event: Event, attr: Attr, known: multiset<int>)
    requires AtMost(base, limit)
    ensures Moderate(ByRules(base, event, attr, known), attr, limit, limit)
    decreases Level(attr), 2, 0
  {
    var choice := Choose(base, event, attr);
    if choice != None {
      ExecAllIsModerate(base, limit, attr, known, choice.value);
    }
  }

  /** A pass classifies by argument at most once, and schedules at most twice what one rule may ask for. */
  lemma {:induction false} PassIsBounded(base: RuleBase, limit: nat, event: Event, attr: Attr, known: multiset<int>)
    requires AtMost(base, limit)
    ensures var effects := ByRules(base, event, attr, known).effects;
            Nestings(effects) <= 1 && |Schedules(effects)| <= 2 * limit
  {
    ByRulesIsModerate(base, limit, event, attr, known);
  }

  // --- the last attempt

  function Drops(effects: seq<Effect>): nat {
    if effects == [] then 0 else Drops(effects[..|effects| - 1]) + if effects[|effects| - 1].GaveUp? then 1 else 0
  }

  /** No group was given after the process was given up last. */
  predicate GroupsGivenUp(effects: seq<Effect>) {
    effects == [] ||
    var last := effects[|effects| - 1];
    last.GaveUp? || (!last.Grouped? && GroupsGivenUp(effects[..|effects| - 1]))
  }

  /** The entries of a process after effects on it, from `n` on. */
  function Entries(n: nat, effects: seq<Effect>): nat {
    if effects == [] then n
    else
      var before, last := Entries(n, effects[..|effects| - 1]), effects[|effects| - 1];
      if last.GaveUp? && before > 0 then before - 1
      else if last.Grouped? && before == 0 then 1
      else before
  }

  lemma {:induction false} EntriesConcat(n: nat, a: seq<Effect>, b: seq<Effect>)
    ensures Entries(n, a + b) == Entries(Entries(n, a), b)
  {
    if b == [] {
      assert a + b == a;
    } else {
      assert (a + b)[..|a + b| - 1] == a + b[..|b| - 1];
      EntriesConcat(n, a, b[..|b| - 1]);
    }
  }

  /** In all: one entry less for each time given up, but one at least after a group that was not given up again. */
  lemma {:induction false} EntriesLeft(n: nat, effects: seq<Effect>)
    ensures Entries(n, effects) == if n > Drops(effects) then n - Drops(effects) else if GroupsGivenUp(effects) then 0 else 1
  {
    if effects != [] {
      EntriesLeft(n, effects[..|effects| - 1]);
    }
  }

  /** At the maximum, a pass changes the entries of its process by giving it up and grouping it, and nobody else's. */
  ghost predicate Accounts(p: Pass, attr: Attr, known: multiset<int>) {
    && p.known[attr.pid] == Entries(known[attr.pid], p.effects)
    && forall pid :: pid != attr.pid ==> p.known[pid] == known[pid]
  }

  lemma {:induction false} ExecAllAccounts(base: RuleBase, attr: Attr, known: multiset<int>, actions: seq<Action>)
    requires attr.retry >= CGRP_RECLASSIFY_MAX
    ensures Accounts(ExecAll(base, attr, known, actions), attr, known)
    decreases Level(attr), 1, |actions|
  {
    if actions != [] {
      var first := Act(base, attr, known, actions[0]);
      var rest := ExecAll(base, first.attr, first.known, actions[1..]);
      ActAccounts(base, attr, known, actions[0]);
      ExecAllAccounts(base, first.attr, first.known, actions[1..]);
      EntriesConcat(known[attr.pid], first.effects, rest.effects);
    }
  }

  lemma {:induction false} ActAccounts(base: RuleBase, attr: Attr, known: multiset<int>, action: Action)
    requires attr.retry >= CGRP_RECLASSIFY_MAX
    ensures Accounts(Act(base, attr, known, action), attr, known)
    decreases Level(attr), 0, 1
  {
    if action.Reclassify? && action.delay <= 0 && !attr.byArgv && attr.argv != None {
      var argn := -action.delay - 1;
      ByRulesAccounts(base, Event(Exec, 0), Named(attr, argn), known);
      var inner := ByRules(base, Event(Exec, 0), Named(attr, argn), known).effects;
      EntriesConcat(known[attr.pid], [ByArgument(argn)], inner);
      EntriesOfOne(known[attr.pid], ByArgument(argn));
    } else {
      var p := Act(base, attr, known, action);
      if p.effects != [] {
        EntriesOfOne(known[attr.pid], p.effects[0]);
      }
    }
  }

  lemma {:induction false} EntriesOfOne(n: nat, e: Effect)
    ensures Entries(n, [e]) == if e.GaveUp? && n > 0 then n - 1 else if e.Grouped? && n == 0 then 1 else n
  {
    assert [e][..0] == [];
  }

  lemma {:induction false} ByRulesAccounts(base: RuleBase, event: Event, attr: Attr, known: multiset<int>)
    requires attr.retry >= CGRP_RECLASSIFY_MAX
    ensures Accounts(ByRules(base, event, attr, known), attr, known)
    decreases Level(attr), 2, 0
  {
    var choice := Choose(base, event, attr);
    if choice != None {
      ExecAllAccounts(base, attr, known, choice.value);
    }
  }

  /**
   After a pass at the maximum, by argument or not, the process is out of the table if and only if
   it was given up as often as it had entries, and no group action came after the last giving up.
   */
  lemma {:induction false} LastAttemptDrops(base: RuleBase, event: Event, attr: Attr, known: multiset<int>)
    requires attr.retry >= CGRP_RECLASSIFY_MAX
    ensures var p := ByRules(base, event, attr, known);
            attr.pid !in p.known <==> known[attr.pid] <= Drops(p.effects) && GroupsGivenUp(p.effects)
  {
    ByRulesAccounts(base, event, attr, known);
    EntriesLeft(known[attr.pid], ByRules(base, event, attr, known).effects);
  }

  /** Nothing by argument: what the actions come to can then be read off the list. */
  predicate Plain(actions: seq<Action>) {
    forall i :: 0 <= i < |actions| ==> actions[i].Reclassify? ==> actions[i].delay > 0
  }

  function Attempts(actions: seq<Action>): nat {
    if actions == [] then 0 else (if actions[0].Reclassify? then 1 else 0) + Attempts(actions[1..])
  }

  /** Every group action has a reclassifying one behind it. */
  predicate GroupsFollowed(actions: seq<Action>) {
    actions == [] || ((actions[0].Group? ==> Attempts(actions[1..]) > 0) && GroupsFollowed(actions[1..]))
  }

  /** The same for a plain list of actions, in terms of the list: the order of its actions decides. */
  lemma {:induction false} LastActionsDrop(base: RuleBase, attr: Attr, known: multiset<int>, actions: seq<Action>)
    requires attr.retry >= CGRP_RECLASSIFY_MAX && Plain(actions)
    ensures attr.pid !in ExecAll(base, attr, known, actions).known <==>
            known[attr.pid] <= Attempts(actions) && GroupsFollowed(actions)
    decreases |actions|
  {
    if actions != [] {
      var first := Act(base, attr, known, actions[0]);
      LastActionsDrop(base, first.attr, first.known, actions[1..]);
    }
  }

  /** Giving a group to a process that has been given up puts it back into the table. */
  lemma {:induction false} RegroupedAtLast(base: RuleBase, attr: Attr, known: multiset<int>, delay: nat, id: nat)
    requires attr.retry >= CGRP_RECLASSIFY_MAX && delay > 0
    ensures attr.pid in ExecAll(base, attr, known, [Reclassify(delay), Group(id)]).known
    ensures known[attr.pid] <= 1 ==> attr.pid !in ExecAll(base, attr, known, [Group(id), Reclassify(delay)]).known
  {
    LastActionsDrop(base, attr, known, [Reclassify(delay), Group(id)]);
    LastActionsDrop(base, attr, known, [Group(id), Reclassify(delay)]);
    assert [Reclassify(delay), Group(id)][1..] == [Group(id)] && [Group(id)][1..] == [];
    assert [Group(id), Reclassify(delay)][1..] == [Reclassify(delay)] && [Reclassify(delay)][1..] == [];
    assert !GroupsFollowed([Group(id)]) && GroupsFollowed([Reclassify(delay)]);
    assert Attempts([Reclassify(delay)]) == 1;
  }

  // --- what actions ask for

  /** What an action that has to do with no argument comes to: up to the 16th time a delay sets a timer. */
  function Wish(attr: Attr, action: Action): seq<Effect> {
    match action
    case Reclassify(delay) =>
      if delay <= 0 then [] else if attr.retry < 16 then [Scheduled(attr.pid, delay, attr.retry + 1)] else [GaveUp(attr.pid)]
    case Group(id) => [Grouped(attr.pid, id)]
    case Ignore => []
    case Other(id, _) => [Performed(id)]
  }

  function Wishes(attr: Attr, actions: seq<Action>): seq<Effect> {
    if actions == [] then [] else Wish(attr, actions[0]) + Wishes(attr, actions[1..])
  }

  /** A plain list does what its actions wish, in order, and changes no attributes. */
  lemma {:induction false} PlainEffects(base: RuleBase, attr: Attr, known: multiset<int>, actions: seq<Action>)
    requires Plain(actions)
    ensures var p := ExecAll(base, attr, known, actions); p.attr == attr && p.effects == Wishes(attr, actions)
    decreases |actions|
  {
    if actions != [] {
      var first := Act(base, attr, known, actions[0]);
      PlainEffects(base, first.attr, first.known, actions[1..]);
    }
  }

  lemma {:induction false} PlainAction(base: RuleBase, attr: Attr, known: multiset<int>, action: Action)
    requires action.Reclassify? ==> action.delay > 0
    ensures var p := Act(base, attr, known, action);
            && p.attr == attr && p.success == (action.Other? ==> action.ok)
            && (attr.retry < 16 ==>
                  p.known == if action.Group? && attr.pid !in known then known + multiset{attr.pid} else known)
  {
  }

  predicate Groups(actions: seq<Action>) {
    exists i :: 0 <= i < |actions| && actions[i].Group?
  }

  predicate AllOk(actions: seq<Action>) {
    forall i :: 0 <= i < |actions| && actions[i].Other? ==> actions[i].ok
  }

  lemma {:induction false} OneActionMore(actions: seq<Action>)
    requires actions != []
    ensures Groups(actions) <==> actions[0].Group? || Groups(actions[1..])
    ensures AllOk(actions) <==> (actions[0].Other? ==> actions[0].ok) && AllOk(actions[1..])
  {
    if Groups(actions[1..]) {
      var i :| 0 <= i < |actions[1..]| && actions[1..][i].Group?;
      assert actions[i + 1].Group?;
    }
    forall i | AllOk(actions) && 0 <= i < |actions[1..]| && actions[1..][i].Other?
      ensures actions[1..][i].ok
    {
      assert actions[i + 1].ok;
    }
  }

  /** It succeeds if every action does, and leaves the process in the table if one gives it a group. */
  lemma {:induction false} PlainSucceeds(base: RuleBase, attr: Attr, known: multiset<int>, actions: seq<Action>)
    requires Plain(actions)
    ensures var p := ExecAll(base, attr, known, actions);
            && p.success == AllOk(actions)
            && (attr.retry < 16 ==>
                  p.known == if attr.pid !in known && Groups(actions) then known + multiset{attr.pid} else known)
    decreases |actions|
  {
    hide Act;
    if actions != [] {
      var first := Act(base, attr, known, actions[0]);
      PlainAction(base, attr, known, actions[0]);
      OneActionMore(actions);
      PlainSucceeds(base, first.attr, first.known, actions[1..]);
    }
  }

  // --- classification by an argument

  /** Once a process goes by an argument nothing renames it again. */
  lemma {:induction false} NameStays(base: RuleBase, attr: Attr, known: multiset<int>, actions: seq<Action>)
    requires attr.byArgv
    ensures ExecAll(base, attr, known, actions).attr == attr
    decreases |actions|
  {
    if actions != [] {
      var first := Act(base, attr, known, actions[0]);
      assert first.attr == attr by {
        if actions[0].Reclassify? && actions[0].delay <= 0 {
          assert first == ByArgvx(base, attr, known, -actions[0].delay - 1);
        }
      }
      NameStays(base, first.attr, first.known, actions[1..]);
    }
  }

  /**
   -1 - n is classification by argument n: the process goes by that argument from then on, or by a
   name of its own if there are fewer, and what happens is what rules for that name say.
   */
  lemma {:induction false} GoesByArgument(base: RuleBase, attr: Attr, known: multiset<int>, n: nat)
    requires !attr.byArgv && attr.argv != None
    ensures var name := if n < |attr.argv.value| then attr.argv.value[n] else "<none>";
            var named := Attr(attr.pid, name, attr.argv, attr.stray, attr.retry, true);
            var p, inner := Act(base, attr, known, Reclassify(-1 - n)), ByRules(base, Event(Exec, 0), named, known);
            && p.attr == named
            && p.known == inner.known && p.success == inner.success && p.effects == [ByArgument(n)] + inner.effects
  {
    var named := Named(attr, n);
    assert named == Attr(attr.pid, if n < |attr.argv.value| then attr.argv.value[n] else "<none>", attr.argv, attr.stray, attr.retry, true);
    assert Act(base, attr, known, Reclassify(-1 - n)) == ByArgvx(base, attr, known, n);
    ByRulesNameStays(base, named, known);
  }

  lemma {:induction false} ByRulesNameStays(base: RuleBase, attr: Attr, known: multiset<int>)
    requires attr.byArgv
    ensures ByRules(base, Event(Exec, 0), attr, known).attr == attr
  {
    var choice := Choose(base, Event(Exec, 0), attr);
    if choice != None {
      NameStays(base, attr, known, choice.value);
    }
  }

  // --- which actions are chosen

  /** Rules of a binary decide, unless they ask for nothing and there is a fallback. */
  lemma {:induction false} WithRules(base: RuleBase, event: Event, attr: Attr, known: multiset<int>, rule: Rule)
    requires attr.binary in base.primary && base.primary[attr.binary](event) == Some(rule)
    ensures var p := ByRules(base, event, attr, known);
            if rule(attr) != [] then p == ExecAll(base, attr, known, rule(attr))
            else if base.fallback != None && base.fallback.value(attr) != [] then
              p == ExecAll(base, attr, known, base.fallback.value(attr))
            else p == Pass(attr, known, [], false)
  {
  }

  /** Only changes of ids, names and threads are passed over, and only if nothing else is wanted. */
  lemma {:induction false} WithoutRules(base: RuleBase, event: Event, attr: Attr, known: multiset<int>)
    requires attr.binary !in base.primary && attr.binary !in base.addons
    ensures var p := ByRules(base, event, attr, known);
            if base.alwaysFallback || event.kind == Exec || event.kind == Fork || event.kind == Force then
              if base.fallback == None || base.fallback.value(attr) == [] then p == Pass(attr, known, [], false)
              else p == ExecAll(base, attr, known, base.fallback.value(attr))
            else p == Pass(attr, known, [], true)
  {
  }

  // --- below the maximum

  lemma {:induction false} ExecAllKeeps(base: RuleBase, attr: Attr, known: multiset<int>, actions: seq<Action>)
    requires attr.retry < 16
    ensures known <= ExecAll(base, attr, known, actions).known
    decreases Level(attr), 1, |actions|
  {
    if actions != [] {
      ActKeeps(base, attr, known, actions[0]);
      var first := Act(base, attr, known, actions[0]);
      ExecAllKeeps(base, first.attr, first.known, actions[1..]);
    }
  }

  lemma {:induction false} ActKeeps(base: RuleBase, attr: Attr, known: multiset<int>, action: Action)
    requires attr.retry < 16
    ensures known <= Act(base, attr, known, action).known
    decreases Level(attr), 0, 1
  {
    if action.Reclassify? && action.delay <= 0 && !attr.byArgv && attr.argv != None {
      PassKeeps(base, Event(Exec, 0), Named(attr, -action.delay - 1), known);
    }
  }

  /** Before the last attempt no pass takes any process out of the table. */
  lemma {:induction false} PassKeeps(base: RuleBase, event: Event, attr: Attr, known: multiset<int>)
    requires attr.retry < 16
    ensures known <= ByRules(base, event, attr, known).known
    decreases Level(attr), 2, 0
  {
    var choice := Choose(base, event, attr);
    if choice != None && choice.value != [] {
      ExecAllKeeps(base, attr, known, choice.value);
    }
  }

  // --- chains of passes

  /** A timer: `depth` is how many reclassifications led to it. */
  datatype Pending = Pending(pid: int, count: nat, depth: nat)

  datatype World = World(pending: seq<Pending>, known: multiset<int>)

  /**
   A timer fires. The binary of its process is the one on record, or is read if the process is not
   known; what rules give may have changed since the last pass.
   */
  datatype Firing = Firing(at: nat, base: RuleBase, binary: string, readable: bool, argv: Option<seq<string>>, stray: string)

  function AttrOf(t: Pending, f: Firing): Attr {
    Attr(t.pid, f.binary, f.argv, f.stray, t.count, false)
  }

  function Timers(scheduled: seq<Effect>, depth: nat): seq<Pending> {
    if scheduled == [] then []
    else
      (if scheduled[0].Scheduled? then [Pending(scheduled[0].pid, scheduled[0].count, depth)] else []) +
      Timers(scheduled[1..], depth)
  }

  function AllBut<T>(s: seq<T>, at: nat): seq<T>
    requires at < |s|
  {
    s[..at] + s[at + 1..]
  }

  /** The process is looked up, or created if its binary can be read. */
  function Met(known: multiset<int>, pid: int): multiset<int> {
    if pid in known then known else known + multiset{pid}
  }

  function PassOf(w: World, t: Pending, f: Firing): Pass {
    ByRules(f.base, Event(Exec, 0), AttrOf(t, f), Met(w.known, t.pid))
  }

  function Fire(w: World, f: Firing): World
    requires f.at < |w.pending|
  {
    var t, rest := w.pending[f.at], AllBut(w.pending, f.at);
    if t.pid !in w.known && !f.readable then w.(pending := rest)
    else
      var p := PassOf(w, t, f);
      World(rest + Timers(Schedules(p.effects), t.depth + 1), p.known)
  }

  /** How many passes a timer of a count may bring about: its own, and those of the timers it sets. */
  function Weight(branches: nat, count: nat): nat
    decreases CGRP_RECLASSIFY_MAX + 1 - count
  {
    if count > CGRP_RECLASSIFY_MAX then 0 else 1 + branches * Weight(branches, count + 1)
  }

  function Total(branches: nat, pending: seq<Pending>): nat {
    if pending == [] then 0
    else Weight(branches, pending[0].count) + Total(branches, pending[1..])
  }

  /** A timer's count is the number of reclassifications before it, and never above the maximum. */
  ghost predicate Counted(pending: seq<Pending>) {
    forall i :: 0 <= i < |pending| ==> pending[i].depth == pending[i].count <= CGRP_RECLASSIFY_MAX
  }

  lemma {:induction false} TotalConcat(branches: nat, a: seq<Pending>, b: seq<Pending>)
    ensures Total(branches, a + b) == Total(branches, a) + Total(branches, b)
  {
    if a == [] {
      assert a + b == b;
    } else {
      assert (a + b)[1..] == a[1..] + b;
      TotalConcat(branches, a[1..], b);
    }
  }

  lemma {:induction false} TotalAllBut(branches: nat, pending: seq<Pending>, at: nat)
    requires at < |pending|
    ensures Total(branches, pending) == Weight(branches, pending[at].count) + Total(branches, AllBut(pending, at))
  {
    assert pending == pending[..at] + ([pending[at]] + pending[at + 1..]);
    TotalConcat(branches, pending[..at], [pending[at]] + pending[at + 1..]);
    TotalConcat(branches, pending[..at], pending[at + 1..]);
  }

  ghost predicate AllFor(scheduled: seq<Effect>, count: nat) {
    forall i :: 0 <= i < |scheduled| ==> scheduled[i].Scheduled? && scheduled[i].count == count
  }

  lemma {:induction false} TimersCount(scheduled: seq<Effect>, depth: nat, count: nat)
    requires AllFor(scheduled, count)
    ensures var timers := Timers(scheduled, depth);
            && |timers| == |scheduled|
            && forall i :: 0 <= i < |timers| ==> timers[i].count == count && timers[i].depth == depth
  {
    if scheduled != [] {
      TimersCount(scheduled[1..], depth, count);
    }
  }

  lemma {:induction false} TimersWeigh(branches: nat, timers: seq<Pending>, count: nat)
    requires forall i :: 0 <= i < |timers| ==> timers[i].count == count
    ensures Total(branches, timers) == |timers| * Weight(branches, count)
  {
    if timers != [] {
      TimersWeigh(branches, timers[1..], count);
      OneMore(|timers| - 1, Weight(branches, count));
    }
  }

  lemma {:induction false} OneMore(n: nat, weight: nat)
    ensures weight + n * weight == (n + 1) * weight
  {
  }

  lemma {:induction false} AtMostTimes(n: nat, branches: nat, weight: nat)
    requires n <= branches
    ensures n * weight <= branches * weight
  {
  }

  /** No exec pass sets more than `branches` timers. */
  ghost predicate Branches(base: RuleBase, branches: nat) {
    forall attr, known :: |Schedules(ByRules(base, Event(Exec, 0), attr, known).effects)| <= branches
  }

  /** What a pass schedules weighs less than the pass, and is counted on. */
  lemma {:induction false} ScheduledWeighsLess(base: RuleBase, branches: nat, attr: Attr, known: multiset<int>)
    requires Branches(base, branches) && attr.retry <= CGRP_RECLASSIFY_MAX
    ensures var timers := Timers(Schedules(ByRules(base, Event(Exec, 0), attr, known).effects), attr.retry + 1);
            Counted(timers) && Total(branches, timers) < Weight(branches, attr.retry)
  {
    var scheduled := Schedules(ByRules(base, Event(Exec, 0), attr, known).effects);
    ByRulesCountsOn(base, Event(Exec, 0), attr, known);
    TimersCount(scheduled, attr.retry + 1, attr.retry + 1);
    TimersWeigh(branches, Timers(scheduled, attr.retry + 1), attr.retry + 1);
    AtMostTimes(|scheduled|, branches, Weight(branches, attr.retry + 1));
    if scheduled != [] {
      assert scheduled[0].count <= CGRP_RECLASSIFY_MAX;
    }
  }

  /** A timer replaced by others that are counted and weigh less than it. */
  lemma {:induction false} ReplacedByLess(branches: nat, pending: seq<Pending>, at: nat, timers: seq<Pending>)
    requires Counted(pending) && at < |pending| && Counted(timers)
    requires Total(branches, timers) < Weight(branches, pending[at].count)
    ensures Counted(AllBut(pending, at) + timers)
    ensures Total(branches, AllBut(pending, at) + timers) < Total(branches, pending)
  {
    TotalAllBut(branches, pending, at);
    TotalConcat(branches, AllBut(pending, at), timers);
  }

  /** Every firing uses up at least one of the passes that the pending timers may bring about. */
  lemma {:induction false} FiringUsesUp(branches: nat, w: World, f: Firing)
    requires Branches(f.base, branches) && Counted(w.pending) && f.at < |w.pending|
    ensures var w' := Fire(w, f);
            Counted(w'.pending) && Total(branches, w'.pending) < Total(branches, w.pending)
  {
    var t := w.pending[f.at];
    if t.pid in w.known || f.readable {
      ScheduledWeighsLess(f.base, branches, AttrOf(t, f), Met(w.known, t.pid));
      ReplacedByLess(branches, w.pending, f.at, Timers(Schedules(PassOf(w, t, f).effects), t.depth + 1));
    } else {
      ReplacedByLess(branches, w.pending, f.at, []);
      assert AllBut(w.pending, f.at) + [] == AllBut(w.pending, f.at);
    }
  }

  function Run(w: World, firings: seq<Firing>): Option<World>
    decreases |firings|
  {
    if firings == [] then Some(w)
    else if firings[0].at >= |w.pending| then None
    else Run(Fire(w, firings[0]), firings[1..])
  }

  /**
   Whatever rules give from one pass to the next, reclassification ends: no chain is longer than the
   maximum, and however the timers fire there are never more passes than the pending timers may
   bring about when every pass sets up to `branches` of them.
   */
  lemma {:induction false} ReclassificationEnds(branches: nat, w: World, firings: seq<Firing>)
    requires forall i :: 0 <= i < |firings| ==> Branches(firings[i].base, branches)
    requires Counted(w.pending) && Run(w, firings) != None
    ensures var w' := Run(w, firings).value;
            Counted(w'.pending) && |firings| + Total(branches, w'.pending) <= Total(branches, w.pending)
    decreases |firings|
  {
    if firings != [] {
      FiringUsesUp(branches, w, firings[0]);
      ReclassificationEnds(branches, Fire(w, firings[0]), firings[1..]);
    }
  }

  lemma {:induction false} FewActionsFewBranches(base: RuleBase, limit: nat)
    requires AtMost(base, limit)
    ensures Branches(base, 2 * limit)
  {
    forall attr, known
      ensures |Schedules(ByRules(base, Event(Exec, 0), attr, known).effects)| <= 2 * limit
    {
      PassIsBounded(base, limit, Event(Exec, 0), attr, known);
    }
  }

  /** With rules of at most `limit` actions every pass may set twice as many timers. */
  lemma {:induction false} ShortRulesEnd(limit: nat, w: World, firings: seq<Firing>)
    requires forall i :: 0 <= i < |firings| ==> AtMost(firings[i].base, limit)
    requires Counted(w.pending) && Run(w, firings) != None
    ensures |firings| <= Total(2 * limit, w.pending)
  {
    forall i | 0 <= i < |firings|
      ensures Branches(firings[i].base, 2 * limit)
    {
      FewActionsFewBranches(firings[i].base, limit);
    }
    ReclassificationEnds(2 * limit, w, firings);
  }

  lemma {:induction false} WeightOfOne(count: nat)
    requires count <= CGRP_RECLASSIFY_MAX + 1
    ensures Weight(1, count) == CGRP_RECLASSIFY_MAX + 1 - count
    decreases CGRP_RECLASSIFY_MAX + 1 - count
  {
    if count <= CGRP_RECLASSIFY_MAX {
      WeightOfOne(count + 1);
    }
  }

  /** Rules that classify every process again after one second. */
  function Again(): RuleBase {
    RuleBase(map[], map[], Some((attr: Attr) => [Reclassify(1)]), false)
  }

  lemma {:induction false} AgainPass(attr: Attr, known: multiset<int>)
    ensures var p := ByRules(Again(), Event(Exec, 0), attr, known);
            Schedules(p.effects) == if attr.retry < 16 then [Scheduled(attr.pid, 1, attr.retry + 1)] else []
  {
    PlainEffects(Again(), attr, known, [Reclassify(1)]);
    assert [Reclassify(1)][1..] == [];
    var wish := Wish(attr, Reclassify(1));
    assert Wishes(attr, [Reclassify(1)]) == wish && wish[1..] == [];
  }

  lemma {:induction false} AgainFires(pid: int, count: nat, depth: nat, known: multiset<int>) returns (firings: seq<Firing>)
    requires count <= 16
    ensures |firings| == 17 - count && Run(World([Pending(pid, count, depth)], known), firings) != None
    ensures forall i :: 0 <= i < |firings| ==> firings[i].base == Again()
    decreases 16 - count
  {
    var f := Firing(0, Again(), "", true, None, "");
    var w := World([Pending(pid, count, depth)], known);
    AgainPass(AttrOf(w.pending[0], f), Met(known, pid));
    assert AllBut(w.pending, 0) == [];
    if count < 16 {
      var next := Fire(w, f);
      assert [Scheduled(pid, 1, count + 1)][1..] == [];
      assert Timers([Scheduled(pid, 1, count + 1)], depth + 1) == [Pending(pid, count + 1, depth + 1)];
      assert next.pending == [Pending(pid, count + 1, depth + 1)];
      var rest := AgainFires(pid, count + 1, depth + 1, next.known);
      firings := [f] + rest;
      assert firings[1..] == rest;
    } else {
      firings := [f];
      assert firings[1..] == [];
    }
  }

  /** Seventeen times is possible. */
  lemma {:induction false} SeventeenTimes(pid: int, known: multiset<int>) returns (firings: seq<Firing>)
    ensures |firings| == 17 && Run(World([Pending(pid, 0, 0)], known), firings) != None
    ensures forall i :: 0 <= i < |firings| ==> Branches(firings[i].base, 1)
  {
    firings := AgainFires(pid, 0, 0, known);
    forall attr, known
      ensures |Schedules(ByRules(Again(), Event(Exec, 0), attr, known).effects)| <= 1
    {
      AgainPass(attr, known);
    }
  }

  /** When passes set one timer at most, a process is classified at most 17 times from its first timer on. */
  lemma {:induction false} OneBranch(pid: int, known: multiset<int>, firings: seq<Firing>)
    requires forall i :: 0 <= i < |firings| ==> Branches(firings[i].base, 1)
    requires Run(World([Pending(pid, 0, 0)], known), firings) != None
    ensures |firings| <= 17
  {
    var w := World([Pending(pid, 0, 0)], known);
    ReclassificationEnds(1, w, firings);
    WeightOfOne(0);
    assert w.pending[1..] == [];
  }
}
