/**
 The recursion of a move as a function of the snapshot and the kernel's answers, cut off at a
 depth, and exactly when it ends by itself.
 */
module Leading {
  import opened Wrappers
  import opened CgroupTypes
  import opened Spread

  /** The kernel's answer to the i-th write. */
  type Kernel = nat -> Result

  /** `t` is a snapshot after `s`, of the same processes. */
  ghost predicate Follows(s: Snap, p: Partition, t: Option<Snap>) {
    t.Some? ==> Later(s, t.value, p)
  }

  /** The entry is not in the partition and has to be ordered there. */
  ghost predicate Due(s: Snap, p: Partition, o: Order) {
    o.times > 0 && o.process in s.parts && s.parts[o.process] != p
  }

  // --- the four functions that call each other

  /** partition_add_process: the write, and on success the orders of the process moved. */
  ghost function Add(s: Snap, p: Partition, q: Process, kernel: Kernel, depth: nat): (t: Option<Snap>)
    requires s.Valid() && q in s.edges
    ensures Follows(s, p, t)
    decreases depth, 0
  {
    hide Walked;
    var chk := kernel(|s.log|);
    WriteIsLater(s, p, q, chk);
    if depth == 0 then None
    else if chk == Written then Act(AfterWrite(s, p, q, chk), p, q, kernel, depth - 1)
    else Some(AfterWrite(s, p, q, chk))
  }

  /** leader_acts: the walk over the process table, then the tracer. */
  ghost function Act(s: Snap, p: Partition, q: Process, kernel: Kernel, depth: nat): (t: Option<Snap>)
    requires s.Valid() && q in s.edges
    ensures Follows(s, p, t)
    decreases depth, 3
  {
    var walked := Walk(s, p, q, 0, kernel, depth);
    if walked.None? || s.tracers[q] == null then walked
    else Add(walked.value, p, s.tracers[q], kernel, depth)
  }

  /** The walk from the i-th entry on: an entry in the partition is passed over. */
  ghost function Walk(s: Snap, p: Partition, q: Process, i: nat, kernel: Kernel, depth: nat): (t: Option<Snap>)
    requires s.Valid() && q in s.edges && i <= |s.walks[q]|
    ensures Follows(s, p, t)
    decreases depth, 2, |s.walks[q]| - i
  {
    if i == |s.walks[q]| then Some(s)
    else
      var o := s.walks[q][i];
      var ordered := if Due(s, p, o) then Repeat(s, p, o.process, o.times, kernel, depth) else Some(s);
      if ordered.None? then None else Walk(ordered.value, p, q, i + 1, kernel, depth)
  }

  /** The orders to one entry. */
  ghost function Repeat(s: Snap, p: Partition, r: Process, times: nat, kernel: Kernel, depth: nat): (t: Option<Snap>)
    requires s.Valid() && r in s.edges
    ensures Follows(s, p, t)
    decreases depth, 1, times
  {
    hide Walked;
    if times == 0 then Some(s)
    else
      var once := Add(s, p, r, kernel, depth);
      if once.None? then None else Repeat(once.value, p, r, times - 1, kernel, depth)
  }

  // --- single steps

  lemma {:induction false} AddStep(s: Snap, p: Partition, q: Process, kernel: Kernel, depth: nat)
    requires s.Valid() && q in s.edges
    ensures var chk := kernel(|s.log|);
            var s1 := AfterWrite(s, p, q, chk);
            && Later(s, s1, p)
            && (depth == 0 ==> Add(s, p, q, kernel, depth).None?)
            && (depth > 0 && chk == Written ==> Add(s, p, q, kernel, depth) == Act(s1, p, q, kernel, depth - 1))
            && (depth > 0 && chk != Written ==> Add(s, p, q, kernel, depth) == Some(s1))
  {
    hide Act, Visits, Walked;
    WriteIsLater(s, p, q, kernel(|s.log|));
  }

  lemma {:induction false} ActStep(s: Snap, p: Partition, q: Process, kernel: Kernel, depth: nat)
    requires s.Valid() && q in s.edges
    ensures var walked := Walk(s, p, q, 0, kernel, depth);
            Act(s, p, q, kernel, depth) ==
            if walked.None? || s.tracers[q] == null then walked else Add(walked.value, p, s.tracers[q], kernel, depth)
  {
    hide Walk, Add, Visits, Walked;
  }

  lemma {:induction false} RepeatStep(s: Snap, p: Partition, r: Process, times: nat, kernel: Kernel, depth: nat)
    requires s.Valid() && r in s.edges
    ensures times == 0 ==> Repeat(s, p, r, times, kernel, depth) == Some(s)
    ensures times > 0 ==>
              var once := Add(s, p, r, kernel, depth);
              && (once.None? ==> Repeat(s, p, r, times, kernel, depth).None?)
              && (once.Some? ==> Repeat(s, p, r, times, kernel, depth) == Repeat(once.value, p, r, times - 1, kernel, depth))
  {
    hide Add, Visits, Walked;
  }

  lemma {:induction false} WalkStep(s: Snap, p: Partition, q: Process, i: nat, kernel: Kernel, depth: nat)
    requires s.Valid() && q in s.edges && i <= |s.walks[q]|
    ensures i == |s.walks[q]| ==> Walk(s, p, q, i, kernel, depth) == Some(s)
    ensures i < |s.walks[q]| ==>
              var o := s.walks[q][i];
              var ordered := if Due(s, p, o) then Repeat(s, p, o.process, o.times, kernel, depth) else Some(s);
              Walk(s, p, q, i, kernel, depth) ==
              if ordered.None? then None else Walk(ordered.value, p, q, i + 1, kernel, depth)
  {
    hide Repeat, Visits, Ordered;
  }

  // --- more depth changes nothing

  lemma {:induction false} AddDeeper(s: Snap, p: Partition, q: Process, kernel: Kernel, d: nat, e: nat)
    requires s.Valid() && q in s.edges && d <= e && Add(s, p, q, kernel, d).Some?
    ensures Add(s, p, q, kernel, e) == Add(s, p, q, kernel, d)
    decreases d, 0
  {
    hide Add, Act, Walk, Repeat, Visits, Walked, Snap.Valid;
    AddStep(s, p, q, kernel, d);
    AddStep(s, p, q, kernel, e);
    var chk := kernel(|s.log|);
    if chk == Written {
      ActDeeper(AfterWrite(s, p, q, chk), p, q, kernel, d - 1, e - 1);
      assert Act(AfterWrite(s, p, q, chk), p, q, kernel, e - 1) == Add(s, p, q, kernel, d);
    } else {
      assert Add(s, p, q, kernel, d) == Some(AfterWrite(s, p, q, chk));
    }
  }

  lemma {:induction false} ActDeeper(s: Snap, p: Partition, q: Process, kernel: Kernel, d: nat, e: nat)
    requires s.Valid() && q in s.edges && d <= e && Act(s, p, q, kernel, d).Some?
    ensures Act(s, p, q, kernel, e) == Act(s, p, q, kernel, d)
    decreases d, 3
  {
    hide Add, Act, Walk, Repeat, Visits, Walked;
    ActStep(s, p, q, kernel, d);
    ActStep(s, p, q, kernel, e);
    WalkDeeper(s, p, q, 0, kernel, d, e);
    if s.tracers[q] != null {
      AddDeeper(Walk(s, p, q, 0, kernel, d).value, p, s.tracers[q], kernel, d, e);
    }
  }

  lemma {:induction false} WalkDeeper(s: Snap, p: Partition, q: Process, i: nat, kernel: Kernel, d: nat, e: nat)
    requires s.Valid() && q in s.edges && i <= |s.walks[q]| && d <= e && Walk(s, p, q, i, kernel, d).Some?
    ensures Walk(s, p, q, i, kernel, e) == Walk(s, p, q, i, kernel, d)
    decreases d, 2, |s.walks[q]| - i
  {
    hide Add, Act, Walk, Repeat, Visits, Walked;
    WalkStep(s, p, q, i, kernel, d);
    WalkStep(s, p, q, i, kernel, e);
    if i < |s.walks[q]| {
      var o := s.walks[q][i];
      if Due(s, p, o) {
        RepeatDeeper(s, p, o.process, o.times, kernel, d, e);
        WalkDeeper(Repeat(s, p, o.process, o.times, kernel, d).value, p, q, i + 1, kernel, d, e);
      } else {
        WalkDeeper(s, p, q, i + 1, kernel, d, e);
      }
    }
  }

  lemma {:induction false} RepeatDeeper(s: Snap, p: Partition, r: Process, times: nat, kernel: Kernel, d: nat, e: nat)
    requires s.Valid() && r in s.edges && d <= e && Repeat(s, p, r, times, kernel, d).Some?
    ensures Repeat(s, p, r, times, kernel, e) == Repeat(s, p, r, times, kernel, d)
    decreases d, 1, times
  {
    hide Add, Act, Walk, Repeat, Visits, Walked, Snap.Valid;
    RepeatStep(s, p, r, times, kernel, d);
    RepeatStep(s, p, r, times, kernel, e);
    if times > 0 {
      AddDeeper(s, p, r, kernel, d, e);
      var once := Add(s, p, r, kernel, d).value;
      RepeatDeeper(once, p, r, times - 1, kernel, d, e);
      assert Repeat(once, p, r, times - 1, kernel, e) == Repeat(s, p, r, times, kernel, d);
    }
  }

  // --- what a call that ends has done

  /** A call that ends has asked its process first, and spread from there. */
  lemma {:induction false} AddLeads(s: Snap, p: Partition, q: Process, kernel: Kernel, depth: nat)
    requires s.Valid() && q in s.edges && Add(s, p, q, kernel, depth).Some?
    ensures var t := Add(s, p, q, kernel, depth).value;
            Led(s, t, p, q) && t.log[|s.log|].result == kernel(|s.log|)
    decreases depth, 0
  {
    hide Add, Act, Walk, Repeat, Spreads, Visits, VisitsFrom, Walked, Led, Followed, Snap.Valid;
    AddStep(s, p, q, kernel, depth);
    var chk := kernel(|s.log|);
    if chk == Written {
      ActLeads(AfterWrite(s, p, q, chk), p, q, kernel, depth - 1);
      WriteThenSpread(s, Add(s, p, q, kernel, depth).value, p, q);
    } else {
      FailedWriteSpreads(s, p, q, chk);
    }
  }

  lemma {:induction false} ActLeads(s: Snap, p: Partition, q: Process, kernel: Kernel, depth: nat)
    requires s.Valid() && q in s.edges && Act(s, p, q, kernel, depth).Some?
    ensures var t := Act(s, p, q, kernel, depth).value;
            Spreads(s, t, p, {q}) && Followed(t, p, q, |s.log|)
    decreases depth, 3
  {
    hide Add, Act, Walk, Repeat, Spreads, Visits, VisitsFrom, Walked, Given, Followed;
    ActStep(s, p, q, kernel, depth);
    WalkLeads(s, p, q, 0, kernel, depth);
    var s1, tracer := Walk(s, p, q, 0, kernel, depth).value, s.tracers[q];
    if tracer == null {
      AllGiven(s1, p, q, |s.log|);
    } else {
      AddLeads(s1, p, tracer, kernel, depth);
      TracerLed(s, s1, Act(s, p, q, kernel, depth).value, p, q);
    }
  }

  lemma {:induction false} AllGiven(s: Snap, p: Partition, q: Process, from: nat)
    requires s.Valid() && q in s.edges && Given(s, p, q, 0, from)
    requires s.tracers[q] == null || s.tracers[q] in Tried(s.log, from)
    ensures Followed(s, p, q, from)
  {
    forall r | r in s.edges[q]
      ensures Taken(s, p, q, r, from)
    {
      if r != s.tracers[q] {
        var k :| 0 <= k < |s.walks[q]| && s.walks[q][k].process == r && s.walks[q][k].times > 0;
      }
    }
  }

  /** The orders given stay given. */
  lemma {:induction false} StayGiven(s: Snap, s1: Snap, s2: Snap, p: Partition, q: Process, i: nat)
    requires Later(s, s1, p) && Later(s1, s2, p) && q in s.edges && Given(s1, p, q, i, |s.log|)
    ensures Given(s2, p, q, i, |s.log|)
  {
    LogsJoin(s.log, s1.log, s2.log);
  }

  lemma {:induction false} TracerLed(s: Snap, s1: Snap, s2: Snap, p: Partition, q: Process)
    requires Spreads(s, s1, p, {q}) && q in s.edges && s.tracers[q] != null
    requires Led(s1, s2, p, s.tracers[q]) && Given(s1, p, q, 0, |s.log|)
    ensures Spreads(s, s2, p, {q}) && Followed(s2, p, q, |s.log|)
  {
    hide Given, Followed;
    var tracer := s.tracers[q];
    assert Takes(s, p, q, tracer);
    VisitsOne(s, p, q, tracer);
    hide Visits, VisitsFrom, Walked, Closed;
    SpreadsOn(s, s1, s2, p, q, tracer);
    StayGiven(s, s1, s2, p, q, 0);
    assert s2.log[|s1.log|].process == tracer;
    AllGiven(s2, p, q, |s.log|);
  }

  /** Of the orders from the i-th on, all have been given where they had to be. */
  ghost predicate Given(s: Snap, p: Partition, q: Process, i: nat, from: nat)
    requires s.Valid() && q in s.edges
  {
    forall k :: i <= k < |s.walks[q]| && s.walks[q][k].times > 0 ==>
      s.parts[s.walks[q][k].process] == p || s.walks[q][k].process in Tried(s.log, from)
  }

  lemma {:induction false} NoneGiven(s: Snap, p: Partition, q: Process, i: nat)
    requires s.Valid() && q in s.edges && i == |s.walks[q]|
    ensures Given(s, p, q, i, |s.log|)
  {
  }

  lemma {:induction false} GivenBefore(s: Snap, s1: Snap, p: Partition, q: Process, i: nat)
    requires Later(s, s1, p) && q in s.edges && i < |s.walks[q]| && Given(s1, p, q, i + 1, |s.log|)
    requires !Due(s, p, s.walks[q][i])
    ensures Given(s1, p, q, i, |s.log|)
  {
  }

  lemma {:induction false} OrderLed(s: Snap, s1: Snap, s2: Snap, p: Partition, q: Process, i: nat)
    requires s.Valid() && q in s.edges && i < |s.walks[q]|
    requires var o := s.walks[q][i];
             Due(s, p, o) && Spreads(s, s1, p, {o.process}) && o.process in Tried(s1.log, |s.log|)
    requires Spreads(s1, s2, p, {q}) && Given(s2, p, q, i + 1, |s1.log|)
    ensures Spreads(s, s2, p, {q}) && Given(s2, p, q, i, |s.log|)
  {
    hide Visits, VisitsFrom, Walked, Closed, MovedOnly, Given, Due, Tried, Moved;
    var r := s.walks[q][i].process;
    DueIsVisited(s, p, q, i);
    SpreadsNowhere(s, p, {q});
    SpreadsOn(s, s, s1, p, q, r);
    SpreadsOn(s, s1, s2, p, q, q);
    OneMoreGiven(s2, p, q, i, |s.log|, |s1.log|);
  }

  lemma {:induction false} DueIsVisited(s: Snap, p: Partition, q: Process, i: nat)
    requires s.Valid() && q in s.edges && i < |s.walks[q]| && Due(s, p, s.walks[q][i])
    ensures Visits(s, p, q, q) && Visits(s, p, q, s.walks[q][i].process)
  {
    hide Ordered;
    assert Takes(s, p, q, s.walks[q][i].process);
    VisitsOne(s, p, q, s.walks[q][i].process);
  }

  lemma {:induction false} OneMoreGiven(s: Snap, p: Partition, q: Process, i: nat, from: nat, later: nat)
    requires s.Valid() && q in s.edges && i < |s.walks[q]| && from <= later && Given(s, p, q, i + 1, later)
    requires s.walks[q][i].process in Tried(s.log, from)
    ensures Given(s, p, q, i, from)
  {
  }

  lemma {:induction false} WalkLeads(s: Snap, p: Partition, q: Process, i: nat, kernel: Kernel, depth: nat)
    requires s.Valid() && q in s.edges && i <= |s.walks[q]| && Walk(s, p, q, i, kernel, depth).Some?
    ensures var t := Walk(s, p, q, i, kernel, depth).value;
            Spreads(s, t, p, {q}) && Given(t, p, q, i, |s.log|)
    decreases depth, 2, |s.walks[q]| - i
  {
    hide Add, Act, Walk, Repeat, Spreads, Visits, VisitsFrom, Walked, Given;
    WalkStep(s, p, q, i, kernel, depth);
    if i == |s.walks[q]| {
      SpreadsNowhere(s, p, {q});
      NoneGiven(s, p, q, i);
    } else {
      var o, t := s.walks[q][i], Walk(s, p, q, i, kernel, depth).value;
      if Due(s, p, o) {
        RepeatLeads(s, p, o.process, o.times, kernel, depth);
        var s1 := Repeat(s, p, o.process, o.times, kernel, depth).value;
        WalkLeads(s1, p, q, i + 1, kernel, depth);
        OrderLed(s, s1, t, p, q, i);
      } else {
        WalkLeads(s, p, q, i + 1, kernel, depth);
        GivenBefore(s, t, p, q, i);
      }
    }
  }

  lemma {:induction false} RepeatLeads(s: Snap, p: Partition, r: Process, times: nat, kernel: Kernel, depth: nat)
    requires s.Valid() && r in s.edges && Repeat(s, p, r, times, kernel, depth).Some?
    ensures var t := Repeat(s, p, r, times, kernel, depth).value;
            Spreads(s, t, p, {r}) && (times > 0 ==> r in Tried(t.log, |s.log|))
    decreases depth, 1, times
  {
    hide Add, Act, Walk, Repeat, Spreads, Visits, VisitsFrom, Walked, Snap.Valid;
    RepeatStep(s, p, r, times, kernel, depth);
    if times == 0 {
      SpreadsNowhere(s, p, {r});
    } else {
      AddLeads(s, p, r, kernel, depth);
      var s1 := Add(s, p, r, kernel, depth).value;
      RepeatLeads(s1, p, r, times - 1, kernel, depth);
      OnceMore(s, s1, Repeat(s, p, r, times, kernel, depth).value, p, r);
    }
  }

  lemma {:induction false} OnceMore(s: Snap, s1: Snap, s2: Snap, p: Partition, r: Process)
    requires Led(s, s1, p, r) && Spreads(s1, s2, p, {r})
    ensures Spreads(s, s2, p, {r}) && r in Tried(s2.log, |s.log|)
  {
    VisitsOne(s, p, r, r);
    hide Visits, VisitsFrom, Walked, Closed, Snap.Valid;
    SpreadsOn(s, s1, s2, p, r, r);
    assert s1.log[|s.log|].process == r;
  }

  // --- in which order

  function Copies(r: Process, times: nat): seq<Process> {
    if times == 0 then [] else [r] + Copies(r, times - 1)
  }

  /** The processes to be ordered from the i-th entry on, in table order, each as often as it is to be. */
  ghost function DueFrom(s: Snap, p: Partition, q: Process, i: nat): seq<Process>
    requires s.Valid() && q in s.edges && i <= |s.walks[q]|
    decreases |s.walks[q]| - i
  {
    if i == |s.walks[q]| then []
    else
      var o := s.walks[q][i];
      (if Due(s, p, o) then Copies(o.process, o.times) else []) + DueFrom(s, p, q, i + 1)
  }

  function Refusals(p: Partition, asked: seq<Process>): (log: seq<Write>)
    ensures |log| == |asked|
    ensures forall i :: 0 <= i < |log| ==> log[i] == Write(p, asked[i], Failed)
  {
    seq(|asked|, i requires 0 <= i < |asked| => Write(p, asked[i], Failed))
  }

  ghost predicate Refuses(kernel: Kernel, from: nat) {
    forall i :: i >= from ==> kernel(i) == Failed
  }

  /** The snapshot after requests that were all refused. */
  ghost function Refused(s: Snap, p: Partition, asked: seq<Process>): Snap {
    s.(log := s.log + Refusals(p, asked))
  }

  lemma {:induction false} RefusedTwice(s: Snap, p: Partition, a: seq<Process>, b: seq<Process>)
    ensures Refused(Refused(s, p, a), p, b) == Refused(s, p, a + b)
  {
    assert s.log + Refusals(p, a) + Refusals(p, b) == s.log + Refusals(p, a + b);
  }

  lemma {:induction false} AddRefused(s: Snap, p: Partition, r: Process, kernel: Kernel, depth: nat)
    requires s.Valid() && r in s.edges && Refuses(kernel, |s.log|) && depth > 0
    ensures Add(s, p, r, kernel, depth) == Some(Refused(s, p, [r])) && Refused(s, p, [r]).Valid()
  {
    AddStep(s, p, r, kernel, depth);
    assert Refusals(p, [r]) == [Write(p, r, Failed)];
    assert AfterWrite(s, p, r, Failed) == Refused(s, p, [r]);
  }

  lemma {:induction false} RepeatRefused(s: Snap, p: Partition, r: Process, times: nat, kernel: Kernel, depth: nat)
    requires s.Valid() && r in s.edges && Refuses(kernel, |s.log|) && depth > 0
    ensures Repeat(s, p, r, times, kernel, depth) == Some(Refused(s, p, Copies(r, times)))
    ensures Refused(s, p, Copies(r, times)).Valid()
    decreases times
  {
    hide Add, Repeat, Walked, Refusals;
    RepeatStep(s, p, r, times, kernel, depth);
    if times == 0 {
      RefusedNone(s, p);
    } else {
      AddRefused(s, p, r, kernel, depth);
      RepeatRefused(Refused(s, p, [r]), p, r, times - 1, kernel, depth);
      RefusedTwice(s, p, [r], Copies(r, times - 1));
    }
  }

  lemma {:induction false} RefusedNone(s: Snap, p: Partition)
    ensures Refused(s, p, []) == s
  {
    assert s.log + Refusals(p, []) == s.log;
  }

  lemma {:induction false} DueIsSame(s: Snap, p: Partition, q: Process, i: nat, asked: seq<Process>)
    requires s.Valid() && q in s.edges && i <= |s.walks[q]| && Refused(s, p, asked).Valid()
    ensures DueFrom(Refused(s, p, asked), p, q, i) == DueFrom(s, p, q, i)
    decreases |s.walks[q]| - i
  {
    hide Walked;
    if i < |s.walks[q]| {
      DueIsSame(s, p, q, i + 1, asked);
    }
  }

  lemma {:induction false} WalkRefused(s: Snap, p: Partition, q: Process, i: nat, kernel: Kernel, depth: nat)
    requires s.Valid() && q in s.edges && i <= |s.walks[q]| && Refuses(kernel, |s.log|) && depth > 0
    ensures Walk(s, p, q, i, kernel, depth) == Some(Refused(s, p, DueFrom(s, p, q, i)))
    ensures Refused(s, p, DueFrom(s, p, q, i)).Valid()
    decreases |s.walks[q]| - i
  {
    hide Add, Repeat, Walk, Ordered, Refusals;
    WalkStep(s, p, q, i, kernel, depth);
    RefusedNone(s, p);
    if i < |s.walks[q]| {
      var o := s.walks[q][i];
      if Due(s, p, o) {
        var now := Copies(o.process, o.times);
        RepeatRefused(s, p, o.process, o.times, kernel, depth);
        WalkRefused(Refused(s, p, now), p, q, i + 1, kernel, depth);
        DueIsSame(s, p, q, i + 1, now);
        RefusedTwice(s, p, now, DueFrom(s, p, q, i + 1));
      } else {
        WalkRefused(s, p, q, i + 1, kernel, depth);
        assert [] + DueFrom(s, p, q, i + 1) == DueFrom(s, p, q, i + 1);
      }
    }
  }

  /**
   The order of the requests, seen where all but the first are refused: those ordered to follow in
   table order, each as often as it is named, and the tracer at last, in the partition or not.
   */
  lemma {:induction false} RequestsInOrder(s: Snap, p: Partition, q: Process, kernel: Kernel, depth: nat)
    requires s.Valid() && q in s.edges && depth > 1 && kernel(|s.log|) == Written && Refuses(kernel, |s.log| + 1)
    ensures var s1 := AfterWrite(s, p, q, Written);
            && s1.Valid()
            && Add(s, p, q, kernel, depth).Some?
            && Add(s, p, q, kernel, depth).value.log
               == s1.log + Refusals(p, DueFrom(s1, p, q, 0) + if s.tracers[q] == null then [] else [s.tracers[q]])
  {
    hide Add, Act, Walk, Ordered, Refusals;
    AddStep(s, p, q, kernel, depth);
    var s1 := AfterWrite(s, p, q, Written);
    var due := DueFrom(s1, p, q, 0);
    ActStep(s1, p, q, kernel, depth - 1);
    WalkRefused(s1, p, q, 0, kernel, depth - 1);
    if s.tracers[q] != null {
      AddRefused(Refused(s1, p, due), p, s.tracers[q], kernel, depth - 1);
      RefusedTwice(s1, p, due, [s.tracers[q]]);
    } else {
      assert due + [] == due;
    }
  }

  // --- moving several

  /** Those that are outside when their turn comes are moved, one after the other. */
  ghost function AddEach(s: Snap, p: Partition, members: seq<Process>, kernel: Kernel, depth: nat): (t: Option<Snap>)
    requires s.Valid() && forall m :: m in members ==> m in s.edges
    ensures Follows(s, p, t)
  {
    if members == [] then Some(s)
    else
      var n := |members| - 1;
      var before := AddEach(s, p, members[..n], kernel, depth);
      if before.None? || before.value.parts[members[n]] == p then before
      else Add(before.value, p, members[n], kernel, depth)
  }

  /** From `s` these have been moved, which has led to `t`. */
  ghost predicate Moves(s: Snap, p: Partition, members: seq<Process>, kernel: Kernel, t: Snap) {
    && s.Valid() && (forall m :: m in members ==> m in s.edges)
    && exists depth: nat :: AddEach(s, p, members, kernel, depth) == Some(t)
  }

  lemma {:induction false} EachDeeper(s: Snap, p: Partition, members: seq<Process>, kernel: Kernel, d: nat, e: nat)
    requires s.Valid() && (forall m :: m in members ==> m in s.edges) && d <= e && AddEach(s, p, members, kernel, d).Some?
    ensures AddEach(s, p, members, kernel, e) == AddEach(s, p, members, kernel, d)
    decreases |members|
  {
    hide Add, Walked;
    if members != [] {
      var n := |members| - 1;
      EachDeeper(s, p, members[..n], kernel, d, e);
      var before := AddEach(s, p, members[..n], kernel, d).value;
      if before.parts[members[n]] != p {
        AddDeeper(before, p, members[n], kernel, d, e);
      }
    }
  }

  lemma {:induction false} EachStep(s: Snap, p: Partition, init: seq<Process>, last: Process, kernel: Kernel, depth: nat)
    requires s.Valid() && (forall m :: m in init ==> m in s.edges) && last in s.edges
    ensures var before := AddEach(s, p, init, kernel, depth);
            && (before.None? ==> AddEach(s, p, init + [last], kernel, depth).None?)
            && (before.Some? && before.value.parts[last] == p ==> AddEach(s, p, init + [last], kernel, depth) == before)
            && (before.Some? && before.value.parts[last] != p ==>
                  AddEach(s, p, init + [last], kernel, depth) == Add(before.value, p, last, kernel, depth))
  {
    hide Add, Walked;
    assert (init + [last])[..|init|] == init;
  }

  lemma {:induction false} EachJoins(s: Snap, s1: Snap, p: Partition, a: seq<Process>, b: seq<Process>, kernel: Kernel, depth: nat)
    requires s.Valid() && (forall m :: m in a ==> m in s.edges) && (forall m :: m in b ==> m in s.edges)
    requires AddEach(s, p, a, kernel, depth) == Some(s1)
    ensures s1.Valid() && forall m :: m in b ==> m in s1.edges
    ensures AddEach(s, p, a + b, kernel, depth) == AddEach(s1, p, b, kernel, depth)
    decreases |b|
  {
    hide Add, AddEach, Walked, Snap.Valid;
    if b == [] {
      assert a + b == a;
      EachNone(s1, p, kernel, depth);
    } else {
      var init, last := b[..|b| - 1], b[|b| - 1];
      EachJoins(s, s1, p, a, init, kernel, depth);
      assert b == init + [last] && a + b == (a + init) + [last];
      EachStep(s, p, a + init, last, kernel, depth);
      EachStep(s1, p, init, last, kernel, depth);
    }
  }

  lemma {:induction false} EachNone(s: Snap, p: Partition, kernel: Kernel, depth: nat)
    requires s.Valid()
    ensures AddEach(s, p, [], kernel, depth) == Some(s)
  {
  }

  lemma {:induction false} MovesNone(s: Snap, p: Partition, kernel: Kernel)
    requires s.Valid()
    ensures Moves(s, p, [], kernel, s)
  {
    assert AddEach(s, p, [], kernel, 0) == Some(s);
  }

  /** Moving one is a call of partition_add_process, or nothing. */
  lemma {:induction false} MovesOne(s: Snap, p: Partition, m: Process, kernel: Kernel, depth: nat, t: Snap)
    requires s.Valid() && m in s.edges
    requires if s.parts[m] == p then t == s else Add(s, p, m, kernel, depth) == Some(t)
    ensures Moves(s, p, [m], kernel, t)
  {
    hide Add, Walked;
    assert AddEach(s, p, [m][..0], kernel, depth) == Some(s);
    assert AddEach(s, p, [m], kernel, depth) == Some(t);
  }

  lemma {:induction false} MovesJoin(s: Snap, s1: Snap, s2: Snap, p: Partition, a: seq<Process>, b: seq<Process>, kernel: Kernel)
    requires Moves(s, p, a, kernel, s1) && Moves(s1, p, b, kernel, s2)
    ensures Moves(s, p, a + b, kernel, s2)
  {
    hide AddEach, Walked;
    var d: nat :| AddEach(s, p, a, kernel, d) == Some(s1);
    var e: nat :| AddEach(s1, p, b, kernel, e) == Some(s2);
    EachDeeper(s, p, a, kernel, d, d + e);
    EachDeeper(s1, p, b, kernel, e, d + e);
    EachJoins(s, s1, p, a, b, kernel, d + e);
  }

  /** Those of a list that are outside, in order. */
  ghost function OutsideOf(s: Snap, p: Partition, members: seq<Process>): seq<Process>
    requires s.Valid() && forall m :: m in members ==> m in s.edges
  {
    if members == [] then []
    else (if s.parts[members[0]] != p then [members[0]] else []) + OutsideOf(s, p, members[1..])
  }

  lemma {:induction false} OutsideSnoc(s: Snap, p: Partition, init: seq<Process>, last: Process)
    requires s.Valid() && (forall m :: m in init ==> m in s.edges) && last in s.edges
    ensures OutsideOf(s, p, init + [last]) == OutsideOf(s, p, init) + if s.parts[last] != p then [last] else []
  {
    hide Walked;
    if init == [] {
      assert [last][1..] == [];
    } else {
      assert (init + [last])[1..] == init[1..] + [last];
      OutsideSnoc(s, p, init[1..], last);
    }
  }

  /** The order of their requests, seen where all are refused. */
  lemma {:induction false} EachInOrder(s: Snap, p: Partition, members: seq<Process>, kernel: Kernel, depth: nat)
    requires s.Valid() && (forall m :: m in members ==> m in s.edges) && Refuses(kernel, |s.log|) && depth > 0
    ensures AddEach(s, p, members, kernel, depth) == Some(Refused(s, p, OutsideOf(s, p, members)))
    decreases |members|
  {
    hide Add, AddEach, Walked, Refusals;
    if members == [] {
      EachNone(s, p, kernel, depth);
      RefusedNone(s, p);
    } else {
      var init, last := members[..|members| - 1], members[|members| - 1];
      assert members == init + [last];
      EachInOrder(s, p, init, kernel, depth);
      EachStep(s, p, init, last, kernel, depth);
      OutsideSnoc(s, p, init, last);
      var before := OutsideOf(s, p, init);
      assert before + [] == before;
      if s.parts[last] != p {
        AddRefused(Refused(s, p, before), p, last, kernel, depth);
        RefusedTwice(s, p, before, [last]);
      }
    }
  }
}
