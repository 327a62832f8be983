/**
 Which process is in which group, and which one is active: the bookkeeping as a state
 machine, with its invariant over all runs.
 */
module Registry {
  import opened Sequences
  import opened CgroupTypes
  import opened Buckets

  const APP_ACTIVE := "active"
  const APP_INACTIVE := "standby"

  /** The process table, each process's group, each group's list, and the active pair. */
  datatype Roster = Roster(
    table: seq<Process>,
    group: map<Process, Group?>,
    lists: map<Group, seq<Process>>,
    active: Process?,
    activeGroup: Group?)

  /** The table is in traversal order: bucket by bucket. */
  predicate ByBucket(table: seq<Process>) {
    forall i, j :: 0 <= i < j < |table| ==> Bucket(table[i].pid) <= Bucket(table[j].pid)
  }

  /** The end of bucket `b` in the table. */
  function Slot(table: seq<Process>, b: nat): (at: nat)
    ensures at <= |table| && forall k :: at <= k < |table| ==> Bucket(table[k].pid) > b
    ensures at > 0 ==> Bucket(table[at - 1].pid) <= b
  {
    var n := |table| - 1;
    if table == [] || Bucket(table[n].pid) <= b then |table| else Slot(table[..n], b)
  }

  function Inserted(table: seq<Process>, p: Process): seq<Process> {
    var at := Slot(table, Bucket(p.pid));
    table[..at] + [p] + table[at..]
  }

  /** Each process is linked in exactly its own group's list, once, and in no other. */
  ghost predicate Linked(r: Roster) {
    && NoDuplicates(r.table) && ByBucket(r.table)
    && (forall p :: p in r.group ==> p in r.table)
    && (forall p :: p in r.table ==> p in r.group)
    && (forall g :: g in r.lists ==> NoDuplicates(r.lists[g]))
    && (forall g, p :: g in r.lists && p in r.lists[g] ==> p in r.group && r.group[p] == g)
    && (forall p :: p in r.group && r.group[p] != null ==> r.group[p] in r.lists && p in r.lists[r.group[p]])
  }

  /** No process is active, or one in the table is, and its group with it. */
  ghost predicate ActiveAgrees(r: Roster) {
    if r.active == null then r.activeGroup == null
    else r.active in r.group && r.activeGroup == r.group[r.active]
  }

  ghost predicate Valid(r: Roster) {
    Linked(r) && ActiveAgrees(r)
  }

  datatype Event =
    | Created(process: Process)
    | Joined(process: Process, group: Group)
    | Notified(process: Process, state: string)
    | Removed(process: Process)

  /** When an event can happen: a created process is new. */
  predicate Enabled(r: Roster, e: Event) {
    match e
    case Created(p) => p !in r.group
    case Joined(p, g) => p in r.group && g in r.lists
    case Notified(p, _) => p in r.group
    case Removed(p) => p in r.group
  }

  function Unlist(lists: map<Group, seq<Process>>, g: Group?, p: Process): map<Group, seq<Process>> {
    if g != null && g in lists then lists[g := Without(lists[g], p)] else lists
  }

  /** A new process is hashed at the end of its bucket. */
  function Create(r: Roster, p: Process): Roster {
    r.(table := Inserted(r.table, p), group := r.group[p := null])
  }

  function Join(r: Roster, p: Process, g: Group): Roster
    requires p in r.group && g in r.lists
  {
    if r.group[p] == g then r
    else
      var lists := Unlist(r.lists, r.group[p], p);
      r.(group := r.group[p := g], lists := lists[g := lists[g] + [p]],
         activeGroup := if r.active == p then g else r.activeGroup)
  }

  function Notify(r: Roster, p: Process, state: string): Roster
    requires p in r.group
  {
    if state == APP_ACTIVE then r.(active := p, activeGroup := r.group[p])
    else if state == APP_INACTIVE && r.active == p then r.(active := null, activeGroup := null)
    else r
  }

  function Remove(r: Roster, p: Process): Roster
    requires p in r.group
  {
    Roster(Without(r.table, p), r.group - {p}, Unlist(r.lists, r.group[p], p),
           if r.active == p then null else r.active,
           if r.active == p then null else r.activeGroup)
  }

  function Next(r: Roster, e: Event): Roster
    requires Enabled(r, e)
  {
    match e
    case Created(p) => Create(r, p)
    case Joined(p, g) => Join(r, p, g)
    case Notified(p, state) => Notify(r, p, state)
    case Removed(p) => Remove(r, p)
  }

  ghost predicate AllEnabled(r: Roster, events: seq<Event>)
    decreases |events|
  {
    events == [] || (Enabled(r, events[0]) && AllEnabled(Next(r, events[0]), events[1..]))
  }

  function Run(r: Roster, events: seq<Event>): Roster
    requires AllEnabled(r, events)
    decreases |events|
  {
    if events == [] then r else Run(Next(r, events[0]), events[1..])
  }

  lemma {:induction false} WithoutInserted(a: seq<Process>, p: Process, b: seq<Process>)
    requires p !in a && p !in b
    ensures Without(a + [p] + b, p) == a + b
    decreases |b|
  {
    if b == [] {
      assert (a + [p] + b)[..|a|] == a == a + b;
      WithoutAbsent(a, p);
    } else {
      var n := |b| - 1;
      assert (a + [p] + b)[..|a| + 1 + n] == a + [p] + b[..n];
      WithoutInserted(a, p, b[..n]);
      assert a + b[..n] + [b[n]] == a + b;
    }
  }

  lemma {:induction false} LookupConcat(a: seq<Process>, b: seq<Process>, pid: int)
    ensures Lookup(a + b, pid) == if Lookup(a, pid) != null then Lookup(a, pid) else Lookup(b, pid)
  {
    if a == [] {
      assert a + b == b;
    } else {
      assert (a + b)[1..] == a[1..] + b;
      LookupConcat(a[1..], b, pid);
    }
  }

  /** A created process leaves the others as they are, and hides none of them from lookups. */
  lemma {:induction false} CreateInserts(r: Roster, p: Process, pid: int)
    requires Valid(r) && Enabled(r, Created(p))
    ensures Without(Create(r, p).table, p) == r.table
    ensures Lookup(Create(r, p).table, pid) ==
            if Lookup(r.table, pid) != null then Lookup(r.table, pid) else if pid == p.pid then p else null
  {
    var at := Slot(r.table, Bucket(p.pid));
    var a, b := r.table[..at], r.table[at..];
    assert r.table == a + b;
    assert p !in a && p !in b;
    WithoutInserted(a, p, b);
    LookupConcat(a, b, pid);
    LookupConcat(a + [p], b, pid);
    LookupConcat(a, [p], pid);
  }

  lemma {:induction false} InsertKeeps(table: seq<Process>, p: Process)
    requires NoDuplicates(table) && p !in table
    ensures NoDuplicates(Inserted(table, p))
    ensures p in Inserted(table, p) && forall q :: q in table ==> q in Inserted(table, p)
    ensures forall q :: q in Inserted(table, p) ==> q == p || q in table
  {
    hide Bucket, Slot;
    var at := Slot(table, Bucket(p.pid));
    assert table == table[..at] + table[at..];
    DistinctInsert(table[..at], p, table[at..]);
  }

  lemma {:induction false} DistinctInsert(a: seq<Process>, p: Process, b: seq<Process>)
    requires NoDuplicates(a + b) && p !in a + b
    ensures NoDuplicates(a + [p] + b)
  {
    var s, t := a + b, a + [p] + b;
    forall i, j | 0 <= i < j < |t|
      ensures t[i] != t[j]
    {
      assert t[i] == if i < |a| then s[i] else if i == |a| then p else s[i - 1];
      assert t[j] == if j < |a| then s[j] else if j == |a| then p else s[j - 1];
    }
  }

  /** Up to the slot there are the buckets up to the given one. */
  lemma {:induction false} BeforeSlot(table: seq<Process>, b: nat)
    requires ByBucket(table)
    ensures forall k :: 0 <= k < Slot(table, b) ==> Bucket(table[k].pid) <= b
  {
    hide Bucket;
    var at := Slot(table, b);
    forall k | 0 <= k < at
      ensures Bucket(table[k].pid) <= b
    {
      if k < at - 1 { assert Bucket(table[k].pid) <= Bucket(table[at - 1].pid); }
    }
  }

  lemma {:induction false} InsertKeepsOrder(table: seq<Process>, p: Process)
    requires ByBucket(table)
    ensures ByBucket(Inserted(table, p))
  {
    hide Bucket;
    var at := Slot(table, Bucket(p.pid));
    BeforeSlot(table, Bucket(p.pid));
    var now := Inserted(table, p);
    forall i, j | 0 <= i < j < |now|
      ensures Bucket(now[i].pid) <= Bucket(now[j].pid)
    {
      assert now[i] == if i < at then table[i] else if i == at then p else table[i - 1];
      assert now[j] == if j < at then table[j] else if j == at then p else table[j - 1];
    }
  }

  lemma {:induction false} WithoutKeepsOrder(table: seq<Process>, p: Process)
    requires ByBucket(table)
    ensures ByBucket(Without(table, p))
  {
    hide Bucket;
    if table != [] {
      var rest, last := table[..|table| - 1], table[|table| - 1];
      WithoutKeepsOrder(rest, p);
      WithoutMembers(rest, p);
      forall q | q in Without(rest, p)
        ensures Bucket(q.pid) <= Bucket(last.pid)
      {
        var k :| 0 <= k < |rest| && rest[k] == q;
        assert table[k] == q;
      }
    }
  }

  lemma {:induction false} CreateKeepsValid(r: Roster, p: Process)
    requires Valid(r) && Enabled(r, Created(p))
    ensures Valid(Create(r, p))
  {
    hide Slot, Bucket, ByBucket, Inserted;
    InsertKeeps(r.table, p);
    InsertKeepsOrder(r.table, p);
  }

  /** `kept` is the list `items` with `p` taken out. */
  ghost predicate TakenOut(items: seq<Process>, p: Process, kept: seq<Process>) {
    && NoDuplicates(kept)
    && (forall q :: q in kept ==> q in items && q != p)
    && (forall q :: q in items && q != p ==> q in kept)
  }

  lemma {:induction false} TakeOutKeepsLinked(r: Roster, p: Process, g: Group, kept: seq<Process>)
    requires Linked(r) && p in r.group && r.group[p] == g && TakenOut(r.lists[g], p, kept)
    ensures Linked(r.(group := r.group[p := null], lists := r.lists[g := kept]))
  {
    var group, lists := r.group[p := null], r.lists[g := kept];
    assert forall q :: q in group && group[q] == g ==> q in r.lists[g];
  }

  lemma {:induction false} UnlistKeepsLinked(r: Roster, p: Process)
    requires Linked(r) && p in r.group
    ensures Linked(r.(group := r.group[p := null], lists := Unlist(r.lists, r.group[p], p)))
    ensures Unlist(r.lists, r.group[p], p).Keys == r.lists.Keys
  {
    var g := r.group[p];
    if g != null {
      WithoutKeeps(r.lists[g], p);
      TakeOutKeepsLinked(r, p, g, Without(r.lists[g], p));
    }
  }

  /** A process in no list leaves the table. */
  lemma {:induction false} ForgetKeepsLinked(r: Roster, p: Process, kept: seq<Process>)
    requires Linked(r) && p in r.group && r.group[p] == null && TakenOut(r.table, p, kept) && ByBucket(kept)
    ensures Linked(r.(table := kept, group := r.group - {p}))
  {
  }

  lemma {:induction false} EnlistKeepsLinked(r: Roster, p: Process, g: Group)
    requires Linked(r) && p in r.group && r.group[p] == null && g in r.lists
    ensures Linked(r.(group := r.group[p := g], lists := r.lists[g := r.lists[g] + [p]]))
  {
    assert p !in r.lists[g];
  }

  lemma {:induction false} JoinKeepsValid(r: Roster, p: Process, g: Group)
    requires Valid(r) && Enabled(r, Joined(p, g))
    ensures Valid(Join(r, p, g))
  {
    if r.group[p] != g {
      var r1 := r.(group := r.group[p := null], lists := Unlist(r.lists, r.group[p], p));
      UnlistKeepsLinked(r, p);
      EnlistKeepsLinked(r1, p, g);
      assert r1.group[p := g] == r.group[p := g];
    }
  }

  lemma {:induction false} RemoveKeepsValid(r: Roster, p: Process)
    requires Valid(r) && Enabled(r, Removed(p))
    ensures Valid(Remove(r, p))
  {
    var unlisted := r.(group := r.group[p := null], lists := Unlist(r.lists, r.group[p], p));
    UnlistKeepsLinked(r, p);
    WithoutKeeps(r.table, p);
    WithoutKeepsOrder(r.table, p);
    ForgetKeepsLinked(unlisted, p, Without(r.table, p));
    assert unlisted.group - {p} == r.group - {p};
  }

  lemma {:induction false} EventKeepsValid(r: Roster, e: Event)
    requires Valid(r) && Enabled(r, e)
    ensures Valid(Next(r, e))
  {
    match e {
      case Created(p) => CreateKeepsValid(r, p);
      case Joined(p, g) => JoinKeepsValid(r, p, g);
      case Notified(_, _) =>
      case Removed(p) => RemoveKeepsValid(r, p);
    }
  }

  /** The invariant holds after every run of events. */
  lemma {:induction false} RunKeepsValid(r: Roster, events: seq<Event>)
    requires Valid(r) && AllEnabled(r, events)
    ensures Valid(Run(r, events))
    decreases |events|
  {
    if events != [] {
      EventKeepsValid(r, events[0]);
      RunKeepsValid(Next(r, events[0]), events[1..]);
    }
  }

  // --- what a run amounts to

  /** The process that said last it was active and has neither said otherwise nor been removed since. */
  function LastActive(start: Process?, events: seq<Event>): Process? {
    if events == [] then start
    else
      var rest, last := LastActive(start, events[..|events| - 1]), events[|events| - 1];
      match last
      case Notified(p, state) => if state == APP_ACTIVE then p else if state == APP_INACTIVE && rest == p then null else rest
      case Removed(p) => if rest == p then null else rest
      case _ => rest
  }

  /** The group a process joined last. */
  function LastJoined(start: Group?, events: seq<Event>, p: Process): Group? {
    if events == [] then start
    else
      var rest, last := LastJoined(start, events[..|events| - 1], p), events[|events| - 1];
      match last
      case Joined(q, g) => if q == p then g else rest
      case Created(q) => if q == p then null else rest
      case _ => rest
  }

  lemma {:induction false} RunSnoc(r: Roster, events: seq<Event>)
    requires events != [] && AllEnabled(r, events)
    ensures var init, last := events[..|events| - 1], events[|events| - 1];
            AllEnabled(r, init) && Enabled(Run(r, init), last) && Run(r, events) == Next(Run(r, init), last)
    decreases |events|
  {
    if |events| > 1 {
      var tail := events[1..];
      RunSnoc(Next(r, events[0]), tail);
      assert tail[..|tail| - 1] == events[..|events| - 1][1..];
    }
  }

  /** Over every run the active process is the last that said so. */
  lemma {:induction false} ActiveIsLast(r: Roster, events: seq<Event>)
    requires AllEnabled(r, events)
    ensures Run(r, events).active == LastActive(r.active, events)
  {
    if events != [] {
      RunSnoc(r, events);
      ActiveIsLast(r, events[..|events| - 1]);
    }
  }

  /** Over every run a process of the table is in the group it joined last since it was created. */
  lemma {:induction false} GroupIsLast(r: Roster, events: seq<Event>, p: Process)
    requires AllEnabled(r, events) && p in Run(r, events).group
    ensures Run(r, events).group[p] == LastJoined(if p in r.group then r.group[p] else null, events, p)
  {
    hide Run, Next, Enabled, AllEnabled;
    if events == [] {
      NothingRun(r);
    } else {
      RunSnoc(r, events);
      var init, last := events[..|events| - 1], events[|events| - 1];
      GroupStep(Run(r, init), last, p);
      if p in Run(r, init).group {
        GroupIsLast(r, init, p);
      }
    }
  }

  lemma {:induction false} NothingRun(r: Roster)
    ensures AllEnabled(r, []) && Run(r, []) == r
  {
  }

  /** Only its creation and its joining change the group of a process in the table. */
  lemma {:induction false} GroupStep(r: Roster, e: Event, p: Process)
    requires Enabled(r, e) && p in Next(r, e).group
    ensures e != Created(p) ==> p in r.group
    ensures Next(r, e).group[p] ==
            if e == Created(p) then null else if e.Joined? && e.process == p then e.group else r.group[p]
  {
  }
}
