/**
 The buckets of linked lists and the one table of processes that the bookkeeping works on
 are the same thing: traversal order is kept by creation and removal, and so are lookups.
 */
module TableRefinement {
  import opened Sequences
  import opened CgroupTypes
  import opened Lists
  import opened Buckets
  import opened ProcTable
  import opened Registry

  // --- what insertion and removal do to the traversal

  /** An entry is met at the end of its bucket, behind all buckets up to it and before all others. */
  lemma {:induction false} TraversalInsert(live: seq<Hook>, h: Hook, n: nat)
    requires Bucket(h.pid) < n
    ensures var b := Bucket(h.pid);
            var t, head := Traversal(live, n), Traversal(live, b + 1);
            && head <= t
            && Traversal(live + [h], n) == head + [h] + t[|head|..]
            && (forall k :: 0 <= k < |head| ==> Bucket(t[k].pid) <= b)
            && (forall k :: |head| <= k < |t| ==> Bucket(t[k].pid) > b)
  {
    hide Bucket, InBucket;
    var b := Bucket(h.pid);
    InBucketSnoc(live, h, n - 1);
    BucketHolds(live, n - 1);
    var t, head, items := Traversal(live, n - 1), Traversal(live, b + 1), InBucket(live, n - 1);
    if n == b + 1 {
      TraversalBelow(live, h, b);
      TraversalBuckets(live, n);
      assert head[|head|..] == [];
      assert t + (items + [h]) == head + [h] + head[|head|..];
    } else {
      TraversalInsert(live, h, n - 1);
      InsertedBefore(t, head, items, h);
      assert items + [] == items;
      BucketsJoin(t, |head|, items, b);
    }
  }

  lemma {:induction false} BucketsJoin(t: seq<Hook>, at: nat, items: seq<Hook>, b: nat)
    requires at <= |t| && forall k :: 0 <= k < at ==> Bucket(t[k].pid) <= b
    requires forall k :: at <= k < |t| ==> Bucket(t[k].pid) > b
    requires forall h :: h in items ==> Bucket(h.pid) > b
    ensures forall k :: 0 <= k < at ==> Bucket((t + items)[k].pid) <= b
    ensures forall k :: at <= k < |t + items| ==> Bucket((t + items)[k].pid) > b
  {
    hide Bucket;
    forall k | at <= k < |t + items|
      ensures Bucket((t + items)[k].pid) > b
    {
      assert k >= |t| ==> (t + items)[k] == items[k - |t|];
    }
  }

  lemma {:induction false} InsertedBefore(t: seq<Hook>, head: seq<Hook>, items: seq<Hook>, h: Hook)
    requires head <= t
    ensures head <= t + items
    ensures head + [h] + t[|head|..] + items == head + [h] + (t + items)[|head|..]
  {
    assert (t + items)[|head|..] == t[|head|..] + items;
  }

  lemma {:induction false} TraversalBelow(live: seq<Hook>, h: Hook, n: nat)
    requires n <= Bucket(h.pid)
    ensures Traversal(live + [h], n) == Traversal(live, n)
  {
    hide Bucket;
    if n > 0 {
      TraversalBelow(live, h, n - 1);
      InBucketSnoc(live, h, n - 1);
      assert InBucket(live, n - 1) + [] == InBucket(live, n - 1);
    }
  }

  lemma {:induction false} TraversalBuckets(live: seq<Hook>, n: nat)
    ensures forall h :: h in Traversal(live, n) ==> Bucket(h.pid) < n
  {
    forall h | h in Traversal(live, n)
      ensures Bucket(h.pid) < n
    {
      InTraversal(live, h, n);
    }
  }

  lemma {:induction false} WithoutConcat(a: seq<Hook>, b: seq<Hook>, h: Hook)
    ensures Without(a + b, h) == Without(a, h) + Without(b, h)
  {
    if b == [] {
      assert a + b == a;
    } else {
      var n := |b| - 1;
      WithoutConcat(a, b[..n], h);
      assert a + b == (a + b[..n]) + [b[n]];
      WithoutSnoc(a + b[..n], b[n], h);
    }
  }

  /** Unhashing takes the entry out of the traversal and leaves all else in order. */
  lemma {:induction false} TraversalWithout(live: seq<Hook>, h: Hook, n: nat)
    ensures Traversal(Without(live, h), n) == Without(Traversal(live, n), h)
  {
    hide InBucket;
    if n > 0 {
      TraversalWithout(live, h, n - 1);
      InBucketWithout(live, h, n - 1);
      WithoutConcat(Traversal(live, n - 1), InBucket(live, n - 1), h);
    }
  }

  lemma {:induction false} TraversalOfNone(n: nat)
    ensures Traversal([], n) == []
  {
    if n > 0 {
      TraversalOfNone(n - 1);
    }
  }

  // --- processes and their hooks: each process embeds one of its own, of its pid

  function Hooks(table: seq<Process>, hook: Process -> Hook): seq<Hook> {
    if table == [] then [] else Hooks(table[..|table| - 1], hook) + [hook(table[|table| - 1])]
  }

  lemma {:induction false} HooksAt(table: seq<Process>, hook: Process -> Hook)
    ensures |Hooks(table, hook)| == |table|
    ensures forall k :: 0 <= k < |table| ==> Hooks(table, hook)[k] == hook(table[k])
  {
    if table != [] {
      HooksAt(table[..|table| - 1], hook);
    }
  }

  lemma {:induction false} HooksWithout(table: seq<Process>, p: Process, hook: Process -> Hook)
    requires (forall p: Process :: hook(p).pid == p.pid) && forall p, q: Process :: hook(p) == hook(q) ==> p == q
    ensures Hooks(Without(table, p), hook) == Without(Hooks(table, hook), hook(p))
  {
    if table != [] {
      var rest, last := table[..|table| - 1], table[|table| - 1];
      var kept := Without(rest, p);
      HooksWithout(rest, p, hook);
      WithoutSnoc(Hooks(rest, hook), hook(last), hook(p));
      assert last == p ==> Without(table, p) == kept;
      assert last != p ==> Without(table, p) == kept + [last] && (kept + [last])[..|kept|] == kept;
    }
  }

  /** The table is the traversal of the live entries. */
  ghost predicate Stands(live: seq<Hook>, table: seq<Process>, hook: Process -> Hook) {
    Traversal(live, PROC_BUCKETS) == Hooks(table, hook)
  }

  lemma {:induction false} CutsAgree(t: seq<Hook>, at: nat, cut: nat, b: nat)
    requires at <= |t| && cut <= |t|
    requires forall k :: 0 <= k < at ==> Bucket(t[k].pid) <= b
    requires forall k :: at <= k < |t| ==> Bucket(t[k].pid) > b
    requires forall k :: 0 <= k < cut ==> Bucket(t[k].pid) <= b
    requires forall k :: cut <= k < |t| ==> Bucket(t[k].pid) > b
    ensures at == cut
  {
    hide Bucket;
    assert cut < |t| ==> Bucket(t[cut].pid) > b;
    assert at < |t| ==> Bucket(t[at].pid) > b;
  }

  lemma {:induction false} InsertRefines(live: seq<Hook>, table: seq<Process>, hook: Process -> Hook, p: Process, n: nat)
    requires (forall p: Process :: hook(p).pid == p.pid) && forall p, q: Process :: hook(p) == hook(q) ==> p == q
    requires ByBucket(table) && n == PROC_BUCKETS && Traversal(live, n) == Hooks(table, hook)
    ensures Traversal(live + [hook(p)], n) == Hooks(Inserted(table, p), hook)
  {
    hide Bucket, Traversal, Hooks, Slot, Inserted, ByBucket;
    var b := Bucket(p.pid);
    var t, at, cut := Traversal(live, n), Slot(table, b), |Traversal(live, b + 1)|;
    TraversalInsert(live, hook(p), n);
    HooksAt(table, hook);
    BeforeSlot(table, b);
    CutsAgree(t, at, cut, b);
    HooksInserted(table, p, hook);
  }

  lemma {:induction false} HooksInserted(table: seq<Process>, p: Process, hook: Process -> Hook)
    ensures var at, t := Slot(table, Bucket(p.pid)), Hooks(table, hook);
            at <= |t| && Hooks(Inserted(table, p), hook) == t[..at] + [hook(p)] + t[at..]
  {
    hide Bucket, Slot;
    HooksAt(table, hook);
    HooksAt(Inserted(table, p), hook);
  }

  /** Lookups in the buckets and in the table find the same process. */
  lemma {:induction false} LookupRefines(live: seq<Hook>, table: seq<Process>, hook: Process -> Hook, pid: int)
    requires (forall p: Process :: hook(p).pid == p.pid) && forall p, q: Process :: hook(p) == hook(q) ==> p == q
    requires Stands(live, table, hook)
    ensures Oldest(live, pid) == if Lookup(table, pid) == null then null else hook(Lookup(table, pid))
  {
    OldestInTraversal(live, pid);
    LookupInHooks(table, hook, pid);
  }

  lemma {:induction false} LookupInHooks(table: seq<Process>, hook: Process -> Hook, pid: int)
    requires (forall p: Process :: hook(p).pid == p.pid) && forall p, q: Process :: hook(p) == hook(q) ==> p == q
    ensures Oldest(Hooks(table, hook), pid) == if Lookup(table, pid) == null then null else hook(Lookup(table, pid))
  {
    if table != [] {
      HooksAt(table, hook);
      HooksAt(table[1..], hook);
      assert Hooks(table, hook)[1..] == Hooks(table[1..], hook);
      LookupInHooks(table[1..], hook, pid);
    }
  }

  // --- over runs

  /** The entries alive after a run, in the order they were inserted. */
  function LiveAfter(live: seq<Hook>, events: seq<Event>, hook: Process -> Hook): seq<Hook>
    decreases |events|
  {
    if events == [] then live
    else
      match events[0]
      case Created(p) => LiveAfter(live + [hook(p)], events[1..], hook)
      case Removed(p) => LiveAfter(Without(live, hook(p)), events[1..], hook)
      case _ => LiveAfter(live, events[1..], hook)
  }

  lemma {:induction false} EventRefines(live: seq<Hook>, r: Roster, hook: Process -> Hook, e: Event)
    requires (forall p: Process :: hook(p).pid == p.pid) && forall p, q: Process :: hook(p) == hook(q) ==> p == q
    requires Valid(r) && Enabled(r, e) && Stands(live, r.table, hook)
    ensures Stands(LiveAfter(live, [e], hook), Next(r, e).table, hook)
    ensures Valid(Next(r, e))
  {
    hide Valid, Hooks, Traversal;
    EventKeepsValid(r, e);
    match e {
      case Created(p) =>
        ValidIsByBucket(r);
        InsertRefines(live, r.table, hook, p, PROC_BUCKETS);
      case Removed(p) =>
        TraversalWithout(live, hook(p), PROC_BUCKETS);
        HooksWithout(r.table, p, hook);
      case _ =>
    }
  }

  lemma {:induction false} ValidIsByBucket(r: Roster)
    requires Valid(r)
    ensures ByBucket(r.table)
  {
  }

  /**
   Over every run the table is what a traversal of the buckets meets, and a lookup in the
   buckets finds the process that a lookup in the table finds.
   */
  lemma {:induction false} RunRefines(live: seq<Hook>, r: Roster, hook: Process -> Hook, events: seq<Event>, pid: int)
    requires (forall p: Process :: hook(p).pid == p.pid) && forall p, q: Process :: hook(p) == hook(q) ==> p == q
    requires Valid(r) && AllEnabled(r, events) && Stands(live, r.table, hook)
    ensures var now, table := LiveAfter(live, events, hook), Run(r, events).table;
            && Stands(now, table, hook)
            && Oldest(now, pid) == if Lookup(table, pid) == null then null else hook(Lookup(table, pid))
    decreases |events|
  {
    hide Valid, Stands, Enabled;
    if events == [] {
      LookupRefines(live, r.table, hook, pid);
    } else {
      EventRefines(live, r, hook, events[0]);
      RunRefines(LiveAfter(live, [events[0]], hook), Next(r, events[0]), hook, events[1..], pid);
    }
  }
}
