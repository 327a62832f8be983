/** The delay plugin: timer facts, the event sources behind them, and the callbacks that run. */
module DelayTimers {
  import opened Wrappers

  const MAX_ARG: nat := 64
  const UINT_RANGE: nat := 0x1_0000_0000

  const UNSUPPORTED: string := "<unsupported type>"

  type Callback = nat

  /** An argument as passed: what the pointer leads to, if its type is known. */
  datatype Arg = Number(n: int) | Text(text: Option<string>) | Opaque

  datatype Call = Call(cb: Callback, argt: string, argv: seq<Arg>)

  /** Arguments have the types announced. */
  predicate Fits(t: char, a: Arg) {
    (t == 'i' ==> a.Number?) && (t == 's' ==> a.Text?)
  }

  predicate WellTyped(call: Call) {
    |call.argt| == |call.argv| && forall i :: 0 <= i < |call.argt| ==> Fits(call.argt[i], call.argv[i])
  }

  /** What the callback gets for an argument, and the type it is told. */
  function Delivered(t: char, a: Arg): (char, Arg)
    requires Fits(t, a)
  {
    if t == 'i' then ('i', a)
    else if t != 's' then ('s', Text(Some(UNSUPPORTED)))
    else if a.text != None then ('s', a)
    else ('i', Number(0))
  }

  function Delivery(call: Call): Call
    requires WellTyped(call)
  {
    Call(call.cb,
         seq(|call.argt|, i requires 0 <= i < |call.argt| => Delivered(call.argt[i], call.argv[i]).0),
         seq(|call.argt|, i requires 0 <= i < |call.argt| => Delivered(call.argt[i], call.argv[i]).1))
  }

  /** A callback gets the call as it was requested if and only if all arguments are integers and non-null strings. */
  lemma {:induction false} DeliveryIsFaithful(call: Call)
    requires WellTyped(call)
    ensures Delivery(call) == call <==>
            forall i :: 0 <= i < |call.argt| ==> call.argt[i] == 'i' || (call.argt[i] == 's' && call.argv[i].text != None)
  {
    if Delivery(call) == call {
      forall i | 0 <= i < |call.argt|
        ensures call.argt[i] == 'i' || (call.argt[i] == 's' && call.argv[i].text != None)
      {
        assert call.argt[i] == Delivery(call).argt[i] == Delivered(call.argt[i], call.argv[i]).0;
      }
    }
  }

  /**
   The arguments that arrive as something else: a null string as the integer 0, and one of an unknown
   type as a text that says so.
   */
  lemma {:induction false} OtherArguments(call: Call, i: nat)
    requires WellTyped(call) && i < |call.argt|
    ensures var got := Delivery(call);
            && got.cb == call.cb && |got.argt| == |got.argv| == |call.argt|
            && (call.argt[i] == 'i' ==> got.argt[i] == 'i' && got.argv[i] == call.argv[i])
            && (call.argt[i] == 's' && call.argv[i].text != None ==> got.argt[i] == 's' && got.argv[i] == call.argv[i])
            && (call.argt[i] == 's' && call.argv[i].text == None ==> got.argt[i] == 'i' && got.argv[i] == Number(0))
            && (call.argt[i] != 'i' && call.argt[i] != 's' ==>
                  got.argt[i] == 's' && got.argv[i] == Text(Some("<unsupported type>")))
  {
  }

  /** A request to run a callback after a delay; null pointers are None. */
  datatype Request = Request(id: Option<string>, restart: bool, delay: nat, name: Option<string>,
                             cb: Option<Callback>, argt: Option<string>, argv: seq<Arg>) {
    predicate Named() {
      name != None && cb != None && argt != None
    }

    /** The argument vector covers the announced types. */
    predicate Typed() {
      argt != None ==>
        |argv| >= |argt.value| && forall i :: 0 <= i < |argt.value| ==> Fits(argt.value[i], argv[i])
    }

    function Asked(): (call: Call)
      requires Named() && Typed()
      ensures WellTyped(call)
    {
      Call(cb.value, argt.value, argv[..|argt.value|])
    }
  }

  datatype Status = Active | Failed | Stopped | Rundown

  /** A timer fact, with the call its callback will get. */
  datatype Timer = Timer(status: Status, delay: nat, srcid: nat, call: Call)
  datatype Source = Source(id: string, delay: nat)

  datatype Entry =
    | Requested(request: Request, success: bool)
    | Cancelled(id: string)
    | Fired(id: string, call: Call)

  /** Timer facts by id, pending sources, and what callers saw. */
  datatype World = World(timers: map<string, Timer>, sources: map<nat, Source>, log: seq<Entry>) {
    /** A source of id `srcid` (0 when it could not be scheduled), and a fact unless the store refuses it. */
    function Add(request: Request, srcid: nat, inserted: bool): (World, bool)
      requires request.Typed()
    {
      if request.id == None || !request.Named() || |request.argt.value| > MAX_ARG || !inserted then (this, false)
      else
        var id, delay := request.id.value, request.delay % UINT_RANGE;
        (this.(timers := timers[id := Timer(if srcid != 0 then Active else Failed, delay, srcid, Delivery(request.Asked()))],
               sources := if srcid != 0 then sources[srcid := Source(id, delay)] else sources),
         srcid != 0)
    }

    function Stop(id: string): World
      requires id in timers
    {
      var t := timers[id];
      if t.status == Active then this.(timers := timers[id := t.(status := Stopped)], sources := sources - {t.srcid})
      else this
    }

    function Restart(request: Request, srcid: nat, inserted: bool): (World, bool)
      requires request.Typed() && request.id != None && request.id.value in timers
    {
      var id := request.id.value;
      if !request.Named() then (this, false)
      else
        var stopped := Stop(id);
        stopped.(timers := stopped.timers - {id}).Add(request, srcid, inserted)
    }

    function Execute(request: Request, srcid: nat, inserted: bool): (World, bool)
      requires request.Typed()
    {
      if request.id == None || request.id.value !in timers then Add(request, srcid, inserted)
      else if request.restart then Restart(request, srcid, inserted)
      else (this, false)
    }

    /** A source fires: its fact runs down and the callback is called. */
    function Expire(srcid: nat): World
      requires srcid in sources
    {
      var id, rest := sources[srcid].id, sources - {srcid};
      if id !in timers then this.(sources := rest)
      else World(timers[id := timers[id].(status := Rundown)], rest, log + [Fired(id, timers[id].call)])
    }
  }

  // --- runs

  datatype Event =
    | Execution(request: Request, srcid: nat, inserted: bool)
    | Cancellation(id: string)
    | Expiry(srcid: nat)

  /** New sources have unused ids, and only pending sources fire. */
  predicate Enabled(w: World, e: Event) {
    match e
    case Execution(request, srcid, _) => request.Typed() && srcid !in w.sources
    case Cancellation(_) => true
    case Expiry(srcid) => srcid in w.sources
  }

  function After(w: World, e: Event): World
    requires Enabled(w, e)
  {
    match e
    case Execution(request, srcid, inserted) =>
      var (w', success) := w.Execute(request, srcid, inserted);
      w'.(log := w.log + [Requested(request, success)])
    case Cancellation(id) =>
      (if id in w.timers then w.Stop(id) else w).(log := w.log + [Cancelled(id)])
    case Expiry(srcid) => w.Expire(srcid)
  }

  /**
   The call due for an id, from what callers saw alone: that of the last successful request, as its
   callback will get it, unless it has fired, was cancelled, or a later restart with all its
   arguments failed.
   */
  function Due(log: seq<Entry>, id: string): Option<Call> {
    if log == [] then None
    else
      var rest, last := log[..|log| - 1], log[|log| - 1];
      match last
      case Requested(request, success) =>
        if request.id != Some(id) || !request.Named() || !request.Typed() then Due(rest, id)
        else if success then Some(Delivery(request.Asked()))
        else if request.restart then None
        else Due(rest, id)
      case Cancelled(other) => if other == id then None else Due(rest, id)
      case Fired(other, _) => if other == id then None else Due(rest, id)
  }

  /** Every callback was due, with the arguments of its request. */
  ghost predicate FiresWhatIsDue(log: seq<Entry>) {
    forall k :: 0 <= k < |log| && log[k].Fired? ==> Due(log[..k], log[k].id) == Some(log[k].call)
  }

  /** A fact is active exactly when its recorded source is pending for it, and no other source is. */
  ghost predicate SourcesAgree(w: World) {
    && (forall id :: id in w.timers && w.timers[id].status == Active ==>
          w.timers[id].srcid in w.sources && w.sources[w.timers[id].srcid] == Source(id, w.timers[id].delay))
    && (forall s :: s in w.sources ==>
          var id := w.sources[s].id; id in w.timers && w.timers[id].status == Active && w.timers[id].srcid == s)
    && 0 !in w.sources
  }

  /** What an id has running. */
  function Running(w: World, id: string): Option<Call> {
    if id in w.timers && w.timers[id].status == Active then Some(w.timers[id].call) else None
  }

  /** The active facts are what callers may expect to run. */
  ghost predicate DueAgrees(w: World) {
    forall id :: Due(w.log, id) == Running(w, id)
  }

  ghost predicate Valid(w: World) {
    SourcesAgree(w) && DueAgrees(w) && FiresWhatIsDue(w.log)
  }

  lemma {:induction false} StopStops(w: World, id: string)
    requires SourcesAgree(w) && id in w.timers
    ensures var w' := w.Stop(id);
            && SourcesAgree(w') && w'.timers.Keys == w.timers.Keys && w'.sources.Keys <= w.sources.Keys && w'.log == w.log
            && Running(w', id) == None && forall other :: other != id ==> Running(w', other) == Running(w, other)
  {
  }

  lemma {:induction false} AddAdds(w: World, request: Request, srcid: nat, inserted: bool)
    requires SourcesAgree(w) && request.Typed() && srcid !in w.sources
    requires request.id != None ==> request.id.value !in w.timers
    ensures var (w', success) := w.Add(request, srcid, inserted);
            && SourcesAgree(w') && w'.log == w.log
            && (success ==> request.id != None && request.Named())
            && forall id :: Running(w', id) == if success && request.id == Some(id) then Some(Delivery(request.Asked()))
                                               else Running(w, id)
  {
  }

  lemma {:induction false} RestartRestarts(w: World, request: Request, srcid: nat, inserted: bool)
    requires SourcesAgree(w) && request.Typed() && srcid !in w.sources
    requires request.id != None && request.id.value in w.timers
    ensures var (w', success) := w.Restart(request, srcid, inserted);
            && SourcesAgree(w') && w'.log == w.log
            && (success ==> request.Named())
            && forall id :: Running(w', id) == if request.id != Some(id) || !request.Named() then Running(w, id)
                                               else if success then Some(Delivery(request.Asked()))
                                               else None
  {
    if request.Named() {
      var id := request.id.value;
      StopStops(w, id);
      var w1 := w.Stop(id);
      var w2 := w1.(timers := w1.timers - {id});
      assert forall other :: Running(w2, other) == if other == id then None else Running(w, other);
      AddAdds(w2, request, srcid, inserted);
    }
  }

  lemma {:induction false} ExecutionKeepsValid(w: World, request: Request, srcid: nat, inserted: bool)
    requires Valid(w) && Enabled(w, Execution(request, srcid, inserted))
    ensures Valid(After(w, Execution(request, srcid, inserted)))
  {
    var (w', success) := w.Execute(request, srcid, inserted);
    var log := w.log + [Requested(request, success)];
    assert log[..|log| - 1] == w.log;
    if request.id == None || request.id.value !in w.timers {
      AddAdds(w, request, srcid, inserted);
    } else if request.restart {
      RestartRestarts(w, request, srcid, inserted);
    }
    forall id
      ensures Due(log, id) == Running(w', id)
    {
      assert Due(w.log, id) == Running(w, id);
    }
    NothingFired(w.log, Requested(request, success));
  }

  /** When a request succeeds, and what it has then started. */
  lemma {:induction false} ExecutionSucceedsIff(w: World, request: Request, srcid: nat, inserted: bool)
    requires request.Typed()
    ensures var (w', success) := w.Execute(request, srcid, inserted);
            && (success <==>
                  && request.id != None && request.Named() && |request.argt.value| <= MAX_ARG
                  && (request.restart || request.id.value !in w.timers)
                  && inserted && srcid != 0)
            && (success ==>
                  var id, delay := request.id.value, request.delay % UINT_RANGE;
                  && srcid in w'.sources && w'.sources[srcid] == Source(id, delay)
                  && id in w'.timers && w'.timers[id] == Timer(Active, delay, srcid, Delivery(request.Asked())))
  {
  }

  /** What a request that fails leaves behind. */
  lemma {:induction false} FailuresLeave(w: World, request: Request, srcid: nat, inserted: bool)
    requires SourcesAgree(w) && request.Typed() && srcid !in w.sources && !w.Execute(request, srcid, inserted).1
    ensures var w' := w.Execute(request, srcid, inserted).0;
            var lacking := request.id == None || !request.Named();
            var refused := lacking || |request.argt.value| > MAX_ARG || !inserted;
            && w'.log == w.log
            && (lacking ==> w' == w)
            && (!lacking && request.id.value in w.timers && !request.restart ==> w' == w)
            && (!lacking && request.id.value !in w.timers && refused ==> w' == w)
            && (!lacking && request.id.value in w.timers && request.restart && refused ==>
                  w'.timers == w.timers - {request.id.value})
            && (!refused && (request.restart || request.id.value !in w.timers) ==>
                  && srcid == 0
                  && w'.timers == w.timers[request.id.value :=
                                    Timer(Failed, request.delay % UINT_RANGE, 0, Delivery(request.Asked()))])
            && (!lacking && request.id.value in w.timers && request.restart ==>
                  w'.sources == if w.timers[request.id.value].status == Active then w.sources - {w.timers[request.id.value].srcid}
                                else w.sources)
  {
    if request.id != None && request.id.value in w.timers {
      var id := request.id.value;
      var stopped := w.Stop(id);
      assert stopped.timers - {id} == w.timers - {id};
      var failed := Timer(Failed, request.delay % UINT_RANGE, 0, if request.Named() then Delivery(request.Asked()) else w.timers[id].call);
      assert (stopped.timers - {id})[id := failed] == w.timers[id := failed];
    }
  }

  /** A fact tells what became of its timer: it is stopped by a cancellation and runs down with its callback. */
  lemma {:induction false} FactsTell(w: World, id: string)
    requires SourcesAgree(w) && id in w.timers
    ensures var t, w' := w.timers[id], After(w, Cancellation(id));
            && w'.timers == w.timers[id := t.(status := if t.status == Active then Stopped else t.status)]
            && w'.sources == (if t.status == Active then w.sources - {t.srcid} else w.sources)
            && w'.log == w.log + [Cancelled(id)]
    ensures var t := w.timers[id];
            t.status == Active ==>
              var w' := After(w, Expiry(t.srcid));
              && w'.timers == w.timers[id := t.(status := Rundown)]
              && w'.sources == w.sources - {t.srcid} && w'.log == w.log + [Fired(id, t.call)]
  {
  }

  lemma {:induction false} NothingFired(log: seq<Entry>, e: Entry)
    requires FiresWhatIsDue(log)
    requires e.Fired? ==> Due(log, e.id) == Some(e.call)
    ensures FiresWhatIsDue(log + [e])
  {
    var longer := log + [e];
    forall k | 0 <= k < |longer|
      ensures longer[..k] == if k < |log| then log[..k] else log
    {
    }
  }

  lemma {:induction false} CancellationKeepsValid(w: World, id: string)
    requires Valid(w)
    ensures Valid(After(w, Cancellation(id)))
  {
    var log := w.log + [Cancelled(id)];
    assert log[..|log| - 1] == w.log;
    if id in w.timers {
      StopStops(w, id);
    }
    var w' := if id in w.timers then w.Stop(id) else w;
    forall other
      ensures Due(log, other) == Running(w', other)
    {
      assert Due(w.log, other) == Running(w, other);
    }
    NothingFired(w.log, Cancelled(id));
  }

  lemma {:induction false} ExpiryKeepsValid(w: World, srcid: nat)
    requires Valid(w) && srcid in w.sources
    ensures Valid(w.Expire(srcid))
  {
    var id := w.sources[srcid].id;
    var fired := Fired(id, w.timers[id].call);
    var log := w.log + [fired];
    assert log[..|log| - 1] == w.log;
    assert w.Expire(srcid).log == log;
    forall other
      ensures Due(log, other) == Running(w.Expire(srcid), other)
    {
      assert Due(w.log, other) == Running(w, other);
    }
    NothingFired(w.log, fired);
  }

  lemma {:induction false} StepKeepsValid(w: World, e: Event)
    requires Valid(w) && Enabled(w, e)
    ensures Valid(After(w, e))
  {
    match e
    case Execution(request, srcid, inserted) => ExecutionKeepsValid(w, request, srcid, inserted);
    case Cancellation(id) => CancellationKeepsValid(w, id);
    case Expiry(srcid) => ExpiryKeepsValid(w, srcid);
  }

  function Run(w: World, events: seq<Event>): Option<World>
    decreases |events|
  {
    if events == [] then Some(w)
    else if !Enabled(w, events[0]) then None
    else Run(After(w, events[0]), events[1..])
  }

  /**
   Over every run from an empty store: a fact is active exactly when its recorded source is pending
   for it, and every callback was due: it follows a successful request of its id with no other
   callback, cancellation or failed restart of the id in between, and gets that request's arguments.
   */
  lemma {:induction false} TimersAgreeWithSources(w: World, events: seq<Event>)
    requires Valid(w) && Run(w, events) != None
    ensures Valid(Run(w, events).value)
    decreases |events|
  {
    if events != [] {
      StepKeepsValid(w, events[0]);
      TimersAgreeWithSources(After(w, events[0]), events[1..]);
    }
  }

  lemma {:induction false} EmptyIsValid()
    ensures Valid(World(map[], map[], []))
  {
  }

  // --- at most once

  function Starts(log: seq<Entry>, id: string): nat {
    if log == [] then 0
    else
      var last := log[|log| - 1];
      Starts(log[..|log| - 1], id) +
      if last.Requested? && last.success && last.request.id == Some(id) then 1 else 0
  }

  function Firings(log: seq<Entry>, id: string): nat {
    if log == [] then 0
    else
      var last := log[|log| - 1];
      Firings(log[..|log| - 1], id) + if last.Fired? && last.id == id then 1 else 0
  }

  /** Callbacks of an id never outnumber its successful requests, and one that is due is not yet counted. */
  lemma {:induction false} FiresAtMostOnce(log: seq<Entry>, id: string)
    requires FiresWhatIsDue(log)
    ensures Firings(log, id) + (if Due(log, id) != None then 1 else 0) <= Starts(log, id)
  {
    if log != [] {
      var rest := log[..|log| - 1];
      forall k | 0 <= k < |rest|
        ensures rest[..k] == log[..k]
      {
      }
      FiresAtMostOnce(rest, id);
      assert log[..|log| - 1] == rest;
    }
  }
}
