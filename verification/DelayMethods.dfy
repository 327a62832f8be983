/** The fact store, the event sources, and the requests and events that change them. */
module DelayMethods {
  import opened Wrappers
  import opened DelayTimers
  import opened DelayFacts

  class Fact {
    var fields: Fields

    constructor (fields: Fields)
      ensures this.fields == fields
    {
      this.fields := fields;
    }
  }

  /** Fill the field list of a timer; the argument names share one buffer. */
  method BuildFldlist(fldlist: array<Item>, id: string, status: Status, delay: nat, expire: string, srcid: nat,
                      name: string, call: Call)
    returns (ok: bool)
    requires fldlist.Length == FLDLIST_DIM && WellTyped(call) && |call.argt| <= MAX_ARG
    modifies fldlist
    ensures ok
    ensures var n := FIXED_FIELDS + |call.argt|;
            && fldlist[..n] == Heading(id, status, delay, expire, srcid, name, call) + Arguments(call, |call.argt|)
            && fldlist[n] == End
  {
    fldlist[0], fldlist[1] := Item(Id, Word(Some(id))), Item(State, Mark(status));
    fldlist[2], fldlist[3] := Item(Delay, Unsigned(delay)), Item(Expire, Word(Some(expire)));
    fldlist[4], fldlist[5] := Item(CallbackName, Word(Some(name))), Item(Address, Pointer(call.cb));
    fldlist[6], fldlist[7] := Item(SrcId, Unsigned(srcid)), Item(ArgCount, Unsigned(|call.argt|));
    ghost var heading := Heading(id, status, delay, expire, srcid, name, call);
    assert fldlist[..FIXED_FIELDS] == heading;
    var used := 0;
    for i := 0 to |call.argt|
      invariant used <= 7 * i
      invariant fldlist[..FIXED_FIELDS + i] == heading + Arguments(call, i)
    {
      fldlist[FIXED_FIELDS + i] := Item(Argument(ArgName(i)), StoredArg(call.argt[i], call.argv[i]));
      assert fldlist[..FIXED_FIELDS + i + 1] == fldlist[..FIXED_FIELDS + i] + [fldlist[FIXED_FIELDS + i]];
      ArgNamesAreShort(i);
      used := used + |ArgName(i)| + 1;
      if used >= NAME_BUFFER { return false; }
    }
    fldlist[FIXED_FIELDS + |call.argt|] := End;
    ok := true;
  }

  /** Set the fields of a list up to its end mark. */
  method SetFields(fldlist: array<Item>, ghost n: nat) returns (fields: Fields)
    requires n < fldlist.Length && fldlist[n] == End && forall k :: 0 <= k < n ==> fldlist[k].Item?
    ensures fields == FieldsOf(fldlist[..n])
  {
    fields := map[];
    var j := 0;
    while fldlist[j] != End
      invariant j <= n && fields == FieldsOf(fldlist[..j])
      decreases n - j
    {
      assert fldlist[..j + 1][..j] == fldlist[..j];
      fields := fields[fldlist[j].field := fldlist[j].value];
      j := j + 1;
    }
  }

  /** The wall-clock time of the expiry, as text. */
  method ExpirationTime() returns (text: string)
  {
    text := *;
  }

  /** The fields of a new timer fact. */
  method TimerFields(id: string, status: Status, delay: nat, srcid: nat, name: string, call: Call)
    returns (fields: Fields)
    requires WellTyped(call) && |call.argt| <= MAX_ARG
    ensures Describes(fields, id, Timer(status, delay, srcid, Delivery(call)))
  {
    var fldlist := new Item[FLDLIST_DIM];
    var expire := ExpirationTime();
    var built := BuildFldlist(fldlist, id, status, delay, expire, srcid, name, call);
    fields := SetFields(fldlist, FIXED_FIELDS + |call.argt|);
    FactDescribesTimer(id, status, delay, expire, srcid, name, call);
  }

  /** The arguments of a fact, as the callback gets them. */
  method ReadArguments(fields: Fields, ghost id: string, ghost t: Timer) returns (argt: string, argv: seq<Arg>)
    requires Describes(fields, id, t)
    ensures argt == t.call.argt && argv == t.call.argv
  {
    argt, argv := [], [];
    var i := 0;
    while i < MAX_ARG && i < GetUnsigned(fields, ArgCount)
      invariant i <= |t.call.argt| && argt == t.call.argt[..i] && argv == t.call.argv[..i]
    {
      var (c, a) := ReadArg(fields, i);
      argt, argv := argt + [c], argv + [a];
      i := i + 1;
    }
  }

  /** The store: its facts and what they hold, with the fact and the timer of each id. */
  datatype Store = Store(
    facts: set<Fact>,
    contents: map<Fact, Fields>,
    owners: map<string, Fact>,
    timers: map<string, Timer>)

  /** Every id has one fact, which describes its timer, and there are no other facts. */
  ghost predicate Filed(s: Store) {
    var filed :=
      && s.owners.Keys == s.timers.Keys
      && (forall f :: f in s.facts ==>
            f in s.contents &&
            var id := GetString(s.contents[f], Id); id != None && id.value in s.owners && s.owners[id.value] == f)
      && (forall id :: id in s.owners ==>
            s.owners[id] in s.facts && s.owners[id] in s.contents && Describes(s.contents[s.owners[id]], id, s.timers[id]));
    filed
  }

  /** The store when the fact of an id gets another status. */
  ghost function Restated(s: Store, id: string, status: Status): Store
    requires id in s.owners && s.owners[id] in s.contents && id in s.timers
  {
    var f := s.owners[id];
    s.(contents := s.contents[f := s.contents[f][DelayFacts.State := Mark(status)]],
       timers := s.timers[id := s.timers[id].(status := status)])
  }

  lemma {:induction false} RestatedIsFiled(s: Store, id: string, status: Status)
    requires Filed(s) && id in s.owners
    ensures Filed(Restated(s, id, status))
  {
    var f, s' := s.owners[id], Restated(s, id, status);
    StatusIsSet(s.contents[f], id, s.timers[id], status);
    forall other | other in s.owners
      ensures s'.owners[other] in s'.facts && Describes(s'.contents[s'.owners[other]], other, s'.timers[other])
    {
      assert GetString(s.contents[s.owners[other]], Id) == Some(other);
    }
  }

  ghost function Halted(s: Store, id: string): Store
    requires id in s.owners && s.owners[id] in s.contents && id in s.timers
  {
    if s.timers[id].status == Active then Restated(s, id, Stopped) else s
  }

  lemma {:induction false} HaltedIsFiled(s: Store, id: string)
    requires Filed(s) && id in s.owners
    ensures Filed(Halted(s, id))
  {
    RestatedIsFiled(s, id, Stopped);
  }

  ghost function Removed(s: Store, id: string): Store
    requires id in s.owners
  {
    var f := s.owners[id];
    Store(s.facts - {f}, s.contents - {f}, s.owners - {id}, s.timers - {id})
  }

  lemma {:induction false} RemovedIsFiled(s: Store, id: string)
    requires Filed(s) && id in s.owners
    ensures Filed(Removed(s, id))
  {
    forall other | other in s.owners && other != id
      ensures s.owners[other] != s.owners[id]
    {
      assert GetString(s.contents[s.owners[other]], Id) == Some(other);
    }
  }

  ghost function Added(s: Store, f: Fact, fields: Fields, id: string, t: Timer): Store {
    Store(s.facts + {f}, s.contents[f := fields], s.owners[id := f], s.timers[id := t])
  }

  lemma {:induction false} AddedIsFiled(s: Store, f: Fact, fields: Fields, id: string, t: Timer)
    requires Filed(s) && id !in s.owners && f !in s.facts && Describes(fields, id, t)
    ensures Filed(Added(s, f, fields, id, t))
  {
  }

  lemma {:induction false} ExecutionLogs(w: World, w': World, request: Request, answer: nat, inserted: bool, success: bool)
    requires request.Typed() && answer !in w.sources
    requires (w', success) == w.Execute(request, answer, inserted)
    ensures w'.(log := w'.log + [Requested(request, success)]) == After(w, Execution(request, answer, inserted))
  {
  }

  class Delay {
    var facts: set<Fact>      // the timer facts of the fact store
    var sources: map<nat, Source>
    var log: seq<Entry>
    ghost var store: Store

    constructor ()
      ensures Synced() && Filed(store) && View() == World(map[], map[], [])
    {
      facts, sources, log := {}, map[], [];
      store := Store({}, map[], map[], map[]);
    }

    ghost function View(): World
      reads `store, `sources, `log
    {
      World(store.timers, sources, log)
    }

    /** The store is what the facts hold. */
    ghost predicate Synced()
      reads `facts, `store, facts`fields
    {
      var synced := store.facts == facts && forall f :: f in facts ==> f in store.contents && store.contents[f] == f.fields;
      synced
    }

    method Record(entry: Entry)
      requires Synced()
      modifies `log
      ensures Synced() && log == old(log) + [entry]
    {
      log := log + [entry];
    }

    /** The fact of an id, looked for in whatever order the store gives its facts. */
    method TimerLookup(id: Option<string>) returns (entry: Fact?)
      requires Synced() && Filed(store)
      ensures entry == if id != None && id.value in store.owners then store.owners[id.value] else null
      ensures entry != null ==> entry in facts && Describes(entry.fields, id.value, store.timers[id.value])
    {
      if id == None { return null; }
      var rest := facts;
      while rest != {}
        invariant rest <= facts && (id.value in store.owners ==> store.owners[id.value] in rest)
        decreases rest
      {
        var f :| f in rest;
        if GetString(f.fields, Id) == id {
          return f;
        }
        rest := rest - {f};
      }
      entry := null;
    }

    method TimerActive(entry: Fact, ghost id: string) returns (active: bool)
      requires id in store.timers && Describes(entry.fields, id, store.timers[id])
      ensures active <==> store.timers[id].status == Active
    {
      active := entry.fields[DelayFacts.State] == Mark(Active);
    }

    /** GLib answers with an unused source id, or 0. */
    method ScheduleTimerEvent(id: string, delay: nat, answer: nat) returns (srcid: nat)
      modifies this`sources
      ensures srcid == answer
      ensures sources == if srcid != 0 then old(sources)[srcid := Source(id, delay)] else old(sources)
    {
      srcid := answer;
      if srcid != 0 {
        sources := sources[srcid := Source(id, delay)];
      }
    }

    method CancelBySrcid(srcid: nat)
      modifies this`sources
      ensures sources == if srcid != 0 then old(sources) - {srcid} else old(sources)
    {
      if srcid != 0 {
        sources := sources - {srcid};
      }
    }

    method SetStatus(entry: Fact, status: Status, ghost id: string)
      requires Synced() && entry in facts && id in store.owners && store.owners[id] == entry && id in store.timers
      modifies entry, this`store
      ensures Synced() && store == Restated(old(store), id, status)
    {
      entry.fields := entry.fields[DelayFacts.State := Mark(status)];
      store := Restated(store, id, status);
    }

    method SourceOf(entry: Fact, ghost id: string) returns (srcid: nat)
      requires id in store.timers && Describes(entry.fields, id, store.timers[id])
      ensures srcid == store.timers[id].srcid
    {
      srcid := GetUnsigned(entry.fields, SrcId);
    }

    /** An active timer loses its source and stops; others stay as they are. */
    method CancelByEntry(entry: Fact, ghost id: string)
      requires Synced() && 0 !in sources && entry in facts
      requires id in store.owners && store.owners[id] == entry
      requires id in store.timers && Describes(entry.fields, id, store.timers[id])
      modifies entry, this`sources, this`store
      ensures Synced() && store == Halted(old(store), id) && View() == old(View()).Stop(id)
    {
      var active := TimerActive(entry, id);
      if active {
        var srcid := SourceOf(entry, id);
        CancelBySrcid(srcid);
        SetStatus(entry, Stopped, id);
      }
    }

    /** A new fact, unless the store refuses it. */
    method AddFactstoreEntry(fields: Fields, inserted: bool, ghost id: string, ghost t: Timer) returns (ghost f: Fact?)
      requires Synced()
      modifies this`facts, this`store
      ensures Synced() && forall x :: x in facts && x !in old(facts) ==> fresh(x)
      ensures if inserted then f != null && f !in old(facts) && store == Added(old(store), f, fields, id, t)
              else store == old(store)
    {
      f := null;
      if inserted {
        var fact := new Fact(fields);
        f := fact;
        facts, store := facts + {fact}, Added(store, fact, fields, id, t);
      }
    }

    /** Schedule the source and add the fact; `answer` and `inserted` are what GLib and the store say. */
    method ScheduleTimer(id: string, delay: nat, name: string, call: Call, answer: nat, inserted: bool)
      returns (success: bool, ghost f: Fact?, ghost fields: Fields)
      requires Synced() && WellTyped(call) && |call.argt| <= MAX_ARG && answer !in sources
      modifies this`facts, this`store, this`sources
      ensures Synced() && forall x :: x in facts && x !in old(facts) ==> fresh(x)
      ensures var t := Timer(if answer != 0 then Active else Failed, delay, answer, Delivery(call));
              && Describes(fields, id, t)
              && (if inserted then f != null && f !in old(facts) && store == Added(old(store), f, fields, id, t)
                  else store == old(store))
      ensures success == (inserted && answer != 0)
      ensures sources == if success then old(sources)[answer := Source(id, delay)] else old(sources)
    {
      var srcid := ScheduleTimerEvent(id, delay, answer);
      success := srcid != 0;
      var status := if srcid != 0 then Active else Failed;
      var list := TimerFields(id, status, delay, srcid, name, call);
      fields := list;
      f := AddFactstoreEntry(list, inserted, id, Timer(status, delay, srcid, Delivery(call)));
      if !inserted {
        CancelBySrcid(srcid);
        success := false;
      }
    }

    method TimerAdd(request: Request, answer: nat, inserted: bool) returns (success: bool)
      requires Synced() && Filed(store) && request.Typed() && answer !in sources
      requires request.id != None ==> request.id.value !in store.owners
      modifies this`facts, this`store, this`sources
      ensures Synced() && Filed(store) && forall x :: x in facts && x !in old(facts) ==> fresh(x)
      ensures (View(), success) == old(View()).Add(request, answer, inserted)
    {
      if request.id == None || !request.Named() || |request.argt.value| > MAX_ARG { return false; }
      ghost var f, fields;
      success, f, fields := ScheduleTimer(request.id.value, request.delay % UINT_RANGE, request.name.value,
                                          request.Asked(), answer, inserted);
      if inserted {
        AddedIsFiled(old(store), f, fields, request.id.value, store.timers[request.id.value]);
      }
    }

    /** Take a fact out of the store. */
    method DestroyEntry(entry: Fact, ghost id: string)
      requires Synced() && id in store.owners && store.owners[id] == entry
      modifies this`facts, this`store
      ensures Synced() && facts == old(facts) - {entry} && store == Removed(old(store), id)
    {
      facts, store := facts - {entry}, Removed(store, id);
    }

    method Halt(entry: Fact, ghost id: string)
      requires Synced() && Filed(store) && 0 !in sources && id in store.owners && store.owners[id] == entry
      modifies entry, this`sources, this`store
      ensures Synced() && Filed(store) && View() == old(View()).Stop(id)
      ensures store.facts == old(store.facts) && store.owners == old(store.owners)
    {
      ghost var s := Halted(store, id);
      HaltedIsFiled(store, id);
      CancelByEntry(entry, id);
      assert store == s;
    }

    /** Cancel a timer and destroy its fact. */
    method Drop(entry: Fact, ghost id: string)
      requires Synced() && Filed(store) && 0 !in sources && id in store.owners && store.owners[id] == entry
      modifies entry, this`facts, this`store, this`sources
      ensures Synced() && Filed(store)
      ensures store.owners == old(store.owners) - {id} && forall f :: f in facts ==> f in old(facts)
      ensures View() == old(View()).Stop(id).(timers := old(View()).Stop(id).timers - {id})
    {
      Halt(entry, id);
      ghost var halted := store;
      DestroyEntry(entry, id);
      RemovedIsFiled(halted, id);
      assert store == Removed(halted, id);
    }

    /** The old source and fact go before the new ones come: a failure leaves the id without a timer. */
    method TimerRestart(entry: Fact, request: Request, answer: nat, inserted: bool) returns (success: bool)
      requires Synced() && Filed(store) && 0 !in sources && request.Typed() && answer !in sources
      requires request.id != None && request.id.value in store.owners && store.owners[request.id.value] == entry
      modifies this, facts
      ensures Synced() && Filed(store) && forall x :: x in facts && x !in old(facts) ==> fresh(x)
      ensures (View(), success) == old(View()).Restart(request, answer, inserted)
    {
      if !request.Named() { return false; }
      Drop(entry, request.id.value);
      success := TimerAdd(request, answer, inserted);
    }

    method Execute(request: Request, answer: nat, inserted: bool) returns (success: bool)
      requires Synced() && Filed(store) && 0 !in sources && request.Typed() && answer !in sources
      modifies this, facts
      ensures Synced() && Filed(store) && forall x :: x in facts && x !in old(facts) ==> fresh(x)
      ensures (View(), success) == old(View()).Execute(request, answer, inserted)
    {
      var entry := TimerLookup(request.id);
      if entry == null {
        success := TimerAdd(request, answer, inserted);
      } else if request.restart {
        success := TimerRestart(entry, request, answer, inserted);
      } else {
        success := false;
      }
    }

    /** A request, and the record of what the caller was told. */
    method DelayExecution(request: Request, answer: nat, inserted: bool) returns (success: bool)
      requires Synced() && Filed(store) && 0 !in sources && request.Typed() && answer !in sources
      modifies this, facts
      ensures Synced() && Filed(store)
      ensures View() == After(old(View()), Execution(request, answer, inserted))
      ensures success == old(View()).Execute(request, answer, inserted).1
    {
      ghost var w := View();
      success := Execute(request, answer, inserted);
      ghost var w' := View();
      Record(Requested(request, success));
      assert View() == w'.(log := w'.log + [Requested(request, success)]);
      ExecutionLogs(w, w', request, answer, inserted, success);
    }

    method DelayCancel(id: string) returns (success: bool)
      requires Synced() && Filed(store) && 0 !in sources
      modifies this, facts
      ensures Synced() && Filed(store) && View() == After(old(View()), Cancellation(id))
      ensures success <==> id in old(store.timers)
    {
      var entry := TimerLookup(Some(id));
      success := entry != null;
      if entry != null {
        Halt(entry, id);
      }
      Record(Cancelled(id));
    }

    method RunDown(entry: Fact, id: string)
      requires Synced() && Filed(store) && id in store.owners && store.owners[id] == entry
      modifies entry, this`store, this`log
      ensures Synced() && Filed(store)
      ensures store.timers == old(store.timers)[id := old(store.timers[id]).(status := Rundown)]
      ensures log == old(log) + [Fired(id, old(store.timers[id]).call)]
    {
      RestatedIsFiled(store, id, Rundown);
      assert Describes(entry.fields, id, store.timers[id]);
      var cb := entry.fields[Address].cb;
      var argt, argv := ReadArguments(entry.fields, id, store.timers[id]);
      SetStatus(entry, Rundown, id);
      Record(Fired(id, Call(cb, argt, argv)));
    }

    /** A pending source fires and is gone; the callback runs if the id still has a fact. */
    method TimerEventCb(srcid: nat)
      requires Synced() && Filed(store) && srcid in sources
      modifies this, facts
      ensures Synced() && Filed(store) && View() == After(old(View()), Expiry(srcid))
    {
      var id := sources[srcid].id;
      sources := sources - {srcid};
      var entry := TimerLookup(Some(id));
      if entry != null {
        RunDown(entry, id);
      }
    }
  }
}
