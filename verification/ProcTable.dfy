/** The process table: buckets of circular lists, standing for one list in insertion order. */
module ProcTable {
  import opened Sequences
  import opened Lists
  import opened Buckets

  /** The entries of bucket `b`, oldest first. */
  function InBucket(live: seq<Hook>, b: nat): seq<Hook> {
    if live == [] then []
    else
      var n := |live| - 1;
      InBucket(live[..n], b) + if Bucket(live[n].pid) == b then [live[n]] else []
  }

  lemma {:induction false} BucketHolds(live: seq<Hook>, b: nat)
    ensures forall h :: h in InBucket(live, b) ==> h in live && Bucket(h.pid) == b
  {
    hide Bucket;
    if live != [] {
      BucketHolds(live[..|live| - 1], b);
    }
  }

  lemma {:induction false} InItsBucket(live: seq<Hook>, h: Hook)
    requires h in live
    ensures h in InBucket(live, Bucket(h.pid))
  {
    hide Bucket;
    var n := |live| - 1;
    if live[n] != h {
      InItsBucket(live[..n], h);
    }
  }

  lemma {:induction false} InBucketDistinct(live: seq<Hook>, b: nat)
    requires NoDuplicates(live)
    ensures NoDuplicates(InBucket(live, b))
  {
    hide Bucket;
    if live != [] {
      InBucketDistinct(live[..|live| - 1], b);
      BucketHolds(live[..|live| - 1], b);
    }
  }

  lemma {:induction false} InBucketSnoc(live: seq<Hook>, h: Hook, b: nat)
    ensures InBucket(live + [h], b) == InBucket(live, b) + if Bucket(h.pid) == b then [h] else []
  {
    hide Bucket;
    assert (live + [h])[..|live|] == live;
  }

  /** Removing an entry removes it from its own bucket and leaves the other buckets alone. */
  lemma {:induction false} InBucketWithout(live: seq<Hook>, h: Hook, b: nat)
    ensures InBucket(Without(live, h), b) == Without(InBucket(live, b), h)
  {
    hide Bucket;
    if live != [] {
      var rest, last := live[..|live| - 1], live[|live| - 1];
      var items, kept := InBucket(rest, b), Without(rest, h);
      InBucketWithout(rest, h, b);
      InBucketSnoc(kept, last, b);
      WithoutSnoc(items, last, h);
      assert items + [] == items && kept + [] == kept;
    }
  }

  /** The oldest live entry with the given pid. */
  function Oldest(live: seq<Hook>, pid: int): (r: Hook?)
    ensures r == null <==> forall h :: h in live ==> h.pid != pid
    ensures r != null ==> r in live && r.pid == pid
  {
    if live == [] then null
    else if live[0].pid == pid then live[0]
    else Oldest(live[1..], pid)
  }

  /** That is, the one before which no other has the pid. */
  lemma {:induction false} OldestIsFirst(live: seq<Hook>, pid: int, i: nat)
    requires i < |live| && live[i].pid == pid
    requires forall j :: 0 <= j < i ==> live[j].pid != pid
    ensures Oldest(live, pid) == live[i]
  {
    if i > 0 {
      OldestIsFirst(live[1..], pid, i - 1);
    }
  }

  lemma {:induction false} OldestOfConcat(a: seq<Hook>, b: seq<Hook>, pid: int)
    ensures Oldest(a + b, pid) == if Oldest(a, pid) != null then Oldest(a, pid) else Oldest(b, pid)
  {
    if a == [] {
      assert a + b == b;
    } else {
      assert (a + b)[1..] == a[1..] + b;
      OldestOfConcat(a[1..], b, pid);
    }
  }

  /** It is enough to look into the pid's own bucket. */
  lemma {:induction false} OldestIsInItsBucket(live: seq<Hook>, pid: int)
    ensures Oldest(live, pid) == Oldest(InBucket(live, Bucket(pid)), pid)
  {
    hide Bucket;
    if live != [] {
      var rest, last := live[..|live| - 1], live[|live| - 1];
      OldestIsInItsBucket(rest, pid);
      assert live == rest + [last];
      OldestNext(rest, InBucket(rest, Bucket(pid)), last, pid);
    }
  }

  lemma {:induction false} OldestNext(rest: seq<Hook>, items: seq<Hook>, last: Hook, pid: int)
    requires Oldest(rest, pid) == Oldest(items, pid)
    ensures Oldest(rest + [last], pid) == Oldest(items + if Bucket(last.pid) == Bucket(pid) then [last] else [], pid)
  {
    hide Bucket;
    OldestOfConcat(rest, [last], pid);
    if Bucket(last.pid) == Bucket(pid) {
      OldestOfConcat(items, [last], pid);
    } else {
      assert items + [] == items;
      assert Oldest([last], pid) == null;
    }
  }

  ghost function IndexOf(items: seq<Hook>, h: Hook): (i: nat)
    requires h in items
    ensures i < |items| && items[i] == h
  {
    var i :| 0 <= i < |items| && items[i] == h;
    i
  }

  class ProcTable {
    const buckets: seq<Hook>     // the list heads
    ghost var live: seq<Hook>    // all entries, in the order they were inserted

    ghost predicate Heads()
    {
      |buckets| == PROC_BUCKETS && NoDuplicates(buckets)
    }

    ghost predicate Linked(b: nat)
      reads this, buckets, live
      requires b < |buckets|
    {
      var items := InBucket(live, b);
      BucketHolds(live, b);
      Ring(buckets[b], items)
    }

    ghost predicate Valid()
      reads this, buckets, live
    {
      var distinct := Heads() && NoDuplicates(live) && forall h :: h in live ==> h !in buckets;
      var linked := distinct && forall b: nat :: b < PROC_BUCKETS ==> Linked(b);
      linked
    }

    constructor ()
      ensures Valid() && live == [] && fresh(buckets)
    {
      var heads: seq<Hook> := [];
      while |heads| < PROC_BUCKETS
        invariant |heads| <= PROC_BUCKETS && fresh(heads) && NoDuplicates(heads)
        invariant forall h :: h in heads ==> allocated(h) && h.Single()
        decreases PROC_BUCKETS - |heads|
      {
        var head := new Hook(0);
        heads := heads + [head];
      }
      buckets := heads;
      live := [];
      new;
      forall b: nat | b < PROC_BUCKETS
        ensures Linked(b)
      {
        assert buckets[b] in buckets;
      }
    }

    /** A hook of bucket `idx`: its head or one of its entries. */
    ghost predicate Belongs(h: Hook, idx: nat)
      reads this
      requires idx < |buckets|
    {
      h == buckets[idx] || (h in live && Bucket(h.pid) == idx)
    }

    lemma {:induction false} NeighboursBelong(idx: nat, h: Hook)
      requires Valid() && idx < PROC_BUCKETS && Belongs(h, idx)
      ensures Belongs(h.prev, idx) && Belongs(h.next, idx)
    {
      var items := InBucket(live, idx);
      BucketHolds(live, idx);
      assert Linked(idx);
      if h != buckets[idx] {
        InItsBucket(live, h);
        var i: int := IndexOf(items, h);
        assert At(buckets[idx], items, i - 1) in items + [buckets[idx]];
        assert At(buckets[idx], items, i + 1) in items + [buckets[idx]];
      } else {
        assert At(buckets[idx], items, |items| - 1) in items + [buckets[idx]];
        assert At(buckets[idx], items, 0) in items + [buckets[idx]];
      }
    }

    /** Only hooks of bucket `idx` were written to: the other lists still stand. */
    twostate lemma {:induction false} OthersStay(idx: nat)
      requires old(Valid()) && idx < PROC_BUCKETS
      requires forall h :: h in buckets && h != buckets[idx] ==> unchanged(h)
      requires forall h :: h in old(live) && Bucket(h.pid) != idx ==> unchanged(h)
      ensures forall b: nat :: b < PROC_BUCKETS && b != idx ==> Ring(buckets[b], InBucket(old(live), b))
    {
      forall b: nat | b < PROC_BUCKETS && b != idx
        ensures Ring(buckets[b], InBucket(old(live), b))
      {
        BucketHolds(old(live), b);
        assert old(Linked(b)) && buckets[b] in buckets && buckets[b] != buckets[idx];
      }
    }

    lemma {:induction false} LinkedAfterInsert(was: seq<Hook>, proc: Hook, idx: nat)
      requires Heads() && idx == Bucket(proc.pid) && live == was + [proc]
      requires forall b: nat :: b < PROC_BUCKETS && b != idx ==> Ring(buckets[b], InBucket(was, b))
      requires Ring(buckets[idx], InBucket(was, idx) + [proc])
      ensures forall b: nat :: b < PROC_BUCKETS ==> Linked(b)
    {
      forall b: nat | b < PROC_BUCKETS
        ensures Linked(b)
      {
        InBucketSnoc(was, proc, b);
        assert InBucket(was, b) + [] == InBucket(was, b);
      }
    }

    lemma {:induction false} LinkedAfterUnhash(was: seq<Hook>, proc: Hook, idx: nat)
      requires Heads() && idx == Bucket(proc.pid) && live == Without(was, proc)
      requires forall b: nat :: b < PROC_BUCKETS && b != idx ==> Ring(buckets[b], InBucket(was, b))
      requires Ring(buckets[idx], Without(InBucket(was, idx), proc))
      ensures forall b: nat :: b < PROC_BUCKETS ==> Linked(b)
    {
      forall b: nat | b < PROC_BUCKETS
        ensures Linked(b)
      {
        InBucketWithout(was, proc, b);
        if b != idx {
          BucketHolds(was, b);
          WithoutAbsent(InBucket(was, b), proc);
        }
      }
    }

    method Insert(proc: Hook)
      requires Valid() && proc !in live && proc !in buckets
      modifies this`live, proc, buckets[Bucket(proc.pid)], buckets[Bucket(proc.pid)].prev
      ensures Valid() && live == old(live) + [proc]
    {
      var idx := Bucket(proc.pid);
      ghost var was, items := live, InBucket(live, idx);
      BucketHolds(was, idx);
      assert Linked(idx);
      NeighboursBelong(idx, buckets[idx]);
      ListAppend(buckets[idx], proc, items);
      live := live + [proc];
      OthersStay(idx);
      LinkedAfterInsert(was, proc, idx);
    }

    method Unhash(proc: Hook)
      requires Valid() && proc !in buckets && (proc in live || proc.Single())
      modifies this`live, proc, proc.prev, proc.next
      ensures Valid() && live == Without(old(live), proc) && proc.Single()
    {
      ghost var was, idx := live, Bucket(proc.pid);
      UnlinkEntry(proc, idx);
      live := Without(was, proc);
      WithoutKeeps(was, proc);
      LinkedAfterUnhash(was, proc, idx);
    }

    /** The deletion, seen from all lists. */
    method UnlinkEntry(proc: Hook, ghost idx: nat)
      requires Valid() && proc !in buckets && (proc in live || proc.Single()) && idx == Bucket(proc.pid)
      modifies proc, proc.prev, proc.next
      ensures proc.Single() && Ring(buckets[idx], Without(InBucket(live, idx), proc))
      ensures forall b: nat :: b < PROC_BUCKETS && b != idx ==> Ring(buckets[b], InBucket(live, b))
    {
      assert Linked(idx);
      if proc in live {
        InItsBucket(live, proc);
        NeighboursBelong(idx, proc);
      }
      ListDelete(proc, buckets[idx], InBucket(live, idx));
      OthersStay(idx);
    }

    method Lookup(pid: int) returns (proc: Hook?)
      requires Valid()
      ensures proc == Oldest(live, pid)
    {
      var idx := Bucket(pid);
      assert Linked(idx);
      proc := FindInList(buckets[idx], pid, InBucket(live, idx));
      OldestIsInItsBucket(live, pid);
    }

    /** Midway through bucket `b`: `done` of its `items` are behind, `gone` are unhashed, `p` is next. */
    ghost predicate Visiting(b: nat, start: seq<Hook>, gone: set<Hook>, items: seq<Hook>, done: nat, p: Hook)
      reads this, buckets, live
    {
      && Valid() && b < PROC_BUCKETS && done <= |items|
      && var cur := InBucket(live, b);
         var kept := |cur| - (|items| - done);
         var here := kept >= 0 && cur[kept..] == items[done..] && p == At(buckets[b], cur, kept);
         here && live == Survivors(start, gone)
    }

    /** The callback unhashes the visited entry; the saved next entry is unaffected. */
    method UnhashVisited(p: Hook, n: Hook, ghost b: nat, ghost start: seq<Hook>, ghost gone: set<Hook>,
                         ghost items: seq<Hook>, ghost done: nat)
      requires Visiting(b, start, gone, items, done, p) && p != buckets[b] && n == p.next
      modifies this`live, p, p.prev, p.next
      ensures done < |items| && Visiting(b, start, gone + {p}, items, done + 1, n)
    {
      SkipVisited(p, b, start, gone, items, done);
      ghost var was := live;
      NextOf(p, b, start, gone, items, done);
      Unhash(p);
      AfterUnhash(p, n, b, start, gone, items, done, was);
    }

    lemma {:induction false} NextOf(p: Hook, b: nat, start: seq<Hook>, gone: set<Hook>, items: seq<Hook>, done: nat)
      requires Visiting(b, start, gone, items, done, p) && p != buckets[b]
      ensures p.next == At(buckets[b], InBucket(live, b), |InBucket(live, b)| - (|items| - done) + 1)
    {
      assert Linked(b);
    }

    lemma {:induction false} AfterUnhash(p: Hook, n: Hook, b: nat, start: seq<Hook>, gone: set<Hook>, items: seq<Hook>,
                      done: nat, was: seq<Hook>)
      requires Valid() && b < PROC_BUCKETS && done < |items| && was == Survivors(start, gone) && live == Without(was, p)
      requires var cur := InBucket(was, b);
               var kept := |cur| - (|items| - done);
               && 0 <= kept < |cur| && cur[kept..] == items[done..] && cur[kept] == p && NoDuplicates(cur)
               && n == At(buckets[b], cur, kept + 1)
      ensures Visiting(b, start, gone + {p}, items, done + 1, n)
    {
      hide Bucket, InBucket, Survivors, Without;
      var cur := InBucket(was, b);
      var kept := |cur| - (|items| - done);
      AfterCut(cur, items, kept, done);
      InBucketWithout(was, p, b);
      SurvivorsWithout(start, gone, p);
      WithoutAt(cur, p, kept);
    }

    /** Going on without a change. */
    lemma {:induction false} SkipVisited(p: Hook, b: nat, start: seq<Hook>, gone: set<Hook>, items: seq<Hook>, done: nat)
      requires Visiting(b, start, gone, items, done, p) && p != buckets[b]
      ensures done < |items| && items[done] == p && Belongs(p, b)
      ensures Visiting(b, start, gone, items, done + 1, p.next)
      ensures InBucket(live, b)[|InBucket(live, b)| - (|items| - done)] == p && NoDuplicates(InBucket(live, b))
    {
      hide Bucket;
      var cur := InBucket(live, b);
      var kept := |cur| - (|items| - done);
      assert Linked(b);
      AfterCut(cur, items, kept, done);
      BucketHolds(live, b);
      assert cur[kept] in cur;
    }

    /** The callback on `p`, which is unhashed if it is in `doomed`. */
    method Visit(p: Hook, n: Hook, doomed: set<Hook>, ghost b: nat, ghost start: seq<Hook>, ghost gone: set<Hook>,
                 ghost items: seq<Hook>, ghost done: nat)
      returns (ghost now: set<Hook>)
      requires Visiting(b, start, gone, items, done, p) && p != buckets[b] && n == p.next
      modifies this`live, buckets, start
      ensures done < |items| && items[done] == p
      ensures now == gone + if p in doomed then {p} else {}
      ensures Visiting(b, start, now, items, done + 1, n)
    {
      SkipVisited(p, b, start, gone, items, done);
      now := gone;
      if p in doomed {
        NeighboursBelong(b, p);
        SurvivorsHold(start, gone);
        UnhashVisited(p, n, b, start, gone, items, done);
        now := gone + {p};
      }
    }

    /** One bucket's turn. */
    method ForeachInBucket(b: nat, doomed: set<Hook>) returns (visited: seq<Hook>)
      requires Valid() && b < PROC_BUCKETS
      modifies this`live, buckets, set h | h in live
      ensures Valid() && visited == old(InBucket(live, b)) && live == Survivors(old(live), Struck(visited, doomed))
    {
      var list := buckets[b];
      ghost var start, items, gone: set<Hook>, done := live, InBucket(live, b), {}, 0;
      StartVisiting(b);
      visited := [];
      var p := list.next;
      var n := p.next;
      while p != list
        invariant Visiting(b, start, gone, items, done, p) && n == p.next
        invariant visited == items[..done] && gone == Struck(visited, doomed)
        decreases |items| - done
      {
        gone := Visit(p, n, doomed, b, start, gone, items, done);
        VisitedNext(items, done, doomed);
        visited, done := visited + [p], done + 1;
        p, n := n, n.next;
      }
      EndVisiting(b, start, gone, items, done);
    }

    /** The first `n` buckets' turns. */
    method ForeachUpTo(n: nat, doomed: set<Hook>) returns (visited: seq<Hook>)
      requires Valid() && n <= PROC_BUCKETS
      modifies this`live, buckets, set h | h in live
      ensures Valid() && visited == old(Traversal(live, n)) && live == Survivors(old(live), Struck(visited, doomed))
    {
      ghost var start := live;
      visited := [];
      SurvivorsOfNone(start);
      assert Struck([], doomed) == {};
      for i := 0 to n
        invariant Valid() && visited == Traversal(start, i) && live == Survivors(start, Struck(visited, doomed))
      {
        NextTurn(start, doomed, i);
        SurvivorsHold(start, Struck(visited, doomed));
        var now := ForeachInBucket(i, doomed);
        visited := visited + now;
      }
    }

    /**
     The whole traversal: every entry is visited once, and exactly those in `doomed` are gone
     afterwards, although each was unhashed while it was being visited.
     */
    method Foreach(doomed: set<Hook>) returns (visited: seq<Hook>)
      requires Valid()
      modifies this`live, buckets, set h | h in live
      ensures Valid() && visited == old(Traversal(live, PROC_BUCKETS)) && live == Survivors(old(live), doomed)
    {
      ghost var start := live;
      visited := ForeachUpTo(PROC_BUCKETS, doomed);
      AllVisited(start, doomed, PROC_BUCKETS);
    }

    lemma {:induction false} EndVisiting(b: nat, start: seq<Hook>, gone: set<Hook>, items: seq<Hook>, done: nat)
      requires b < |buckets| && Visiting(b, start, gone, items, done, buckets[b])
      ensures items[..done] == items
    {
      var cur := InBucket(live, b);
      var kept := |cur| - (|items| - done);
      assert Linked(b);
      assert forall i :: 0 <= i < |cur| ==> cur[i] != buckets[b];
    }

    lemma {:induction false} StartVisiting(b: nat)
      requires Valid() && b < PROC_BUCKETS
      ensures Visiting(b, live, {}, InBucket(live, b), 0, buckets[b].next)
    {
      SurvivorsOfNone(live);
      assert Linked(b);
    }
  }

  /** Those of the visited entries that the callback unhashes. */
  function Struck(visited: seq<Hook>, doomed: set<Hook>): set<Hook> {
    set h | h in visited && h in doomed
  }

  lemma {:induction false} VisitedNext(items: seq<Hook>, done: nat, doomed: set<Hook>)
    requires done < |items|
    ensures items[..done + 1] == items[..done] + [items[done]]
    ensures Struck(items[..done + 1], doomed) ==
            Struck(items[..done], doomed) + if items[done] in doomed then {items[done]} else {}
  {
    assert items[..done + 1] == items[..done] + [items[done]];
  }

  lemma {:induction false} AfterCut(cur: seq<Hook>, items: seq<Hook>, kept: nat, done: nat)
    requires kept < |cur| && done < |items| && cur[kept..] == items[done..]
    ensures cur[kept + 1..] == items[done + 1..] && (cur[..kept] + cur[kept + 1..])[kept..] == items[done + 1..]
    ensures cur[kept] == items[done]
  {
    assert cur[kept + 1..] == cur[kept..][1..];
    assert items[done + 1..] == items[done..][1..];
    assert cur[kept] == cur[kept..][0];
  }

  // --- traversal

  /** The entries of the first `n` buckets, in the order a traversal meets them. */
  function Traversal(live: seq<Hook>, n: nat): seq<Hook>
    decreases n, live
  {
    if n == 0 then [] else Traversal(live, n - 1) + InBucket(live, n - 1)
  }

  lemma {:induction false} InTraversal(live: seq<Hook>, h: Hook, n: nat)
    ensures h in Traversal(live, n) <==> h in live && Bucket(h.pid) < n
  {
    hide Bucket;
    if n > 0 {
      InTraversal(live, h, n - 1);
      BucketHolds(live, n - 1);
      if h in live {
        InItsBucket(live, h);
      }
    }
  }

  lemma {:induction false} NoOverlap(live: seq<Hook>, n: nat, earlier: seq<Hook>, items: seq<Hook>)
    requires earlier == Traversal(live, n) && items == InBucket(live, n)
    ensures forall h :: h in earlier ==> h !in items
  {
    hide Bucket;
    BucketHolds(live, n);
    forall h | h in earlier
      ensures h !in items
    {
      InTraversal(live, h, n);
    }
  }

  lemma {:induction false} TraversalDistinct(live: seq<Hook>, n: nat)
    requires NoDuplicates(live)
    ensures NoDuplicates(Traversal(live, n))
  {
    if n > 0 {
      var earlier, items := Traversal(live, n - 1), InBucket(live, n - 1);
      TraversalDistinct(live, n - 1);
      InBucketDistinct(live, n - 1);
      NoOverlap(live, n - 1, earlier, items);
      Disjoint(earlier, items);
    }
  }

  /** A traversal of all buckets visits each entry exactly once, and nothing else. */
  lemma {:induction false} TraversalVisitsOnce(live: seq<Hook>, n: nat, visited: seq<Hook>)
    requires NoDuplicates(live) && n == PROC_BUCKETS && visited == Traversal(live, n)
    ensures NoDuplicates(visited)
    ensures forall h :: h in visited ==> h in live
    ensures forall h :: h in live ==> h in visited
  {
    TraversalDistinct(live, n);
    forall h | h in visited
      ensures h in live
    {
      InTraversal(live, h, n);
    }
    forall h | h in live
      ensures h in visited
    {
      InTraversal(live, h, n);
    }
  }

  lemma {:induction false} Disjoint(a: seq<Hook>, b: seq<Hook>)
    requires NoDuplicates(a) && NoDuplicates(b) && forall h :: h in a ==> h !in b
    ensures NoDuplicates(a + b)
  {
    forall i, j | 0 <= i < j < |a + b|
      ensures (a + b)[i] != (a + b)[j]
    {
      if i < |a| <= j {
        assert a[i] in a && b[j - |a|] in b;
      }
    }
  }

  lemma {:induction false} OldestInTraversalUpTo(live: seq<Hook>, pid: int, n: nat)
    ensures Oldest(Traversal(live, n), pid) == if Bucket(pid) < n then Oldest(live, pid) else null
  {
    hide Bucket;
    if n > 0 {
      OldestInTraversalUpTo(live, pid, n - 1);
      OldestOfConcat(Traversal(live, n - 1), InBucket(live, n - 1), pid);
      OldestIsInItsBucket(live, pid);
      BucketHolds(live, n - 1);
    }
  }

  /** The first entry with a pid in traversal order is the oldest one with that pid. */
  lemma {:induction false} OldestInTraversal(live: seq<Hook>, pid: int)
    ensures Oldest(Traversal(live, PROC_BUCKETS), pid) == Oldest(live, pid)
  {
    OldestInTraversalUpTo(live, pid, PROC_BUCKETS);
  }

  /** The entries that are not in `gone`. */
  function Survivors(live: seq<Hook>, gone: set<Hook>): seq<Hook> {
    if live == [] then []
    else
      var n := |live| - 1;
      Survivors(live[..n], gone) + if live[n] in gone then [] else [live[n]]
  }

  lemma {:induction false} SurvivorsHold(live: seq<Hook>, gone: set<Hook>)
    ensures forall h :: h in Survivors(live, gone) ==> h in live && h !in gone
  {
    if live != [] {
      SurvivorsHold(live[..|live| - 1], gone);
    }
  }

  lemma {:induction false} SurvivorsWithout(live: seq<Hook>, gone: set<Hook>, h: Hook)
    ensures Without(Survivors(live, gone), h) == Survivors(live, gone + {h})
  {
    if live != [] {
      var rest, last := live[..|live| - 1], live[|live| - 1];
      SurvivorsWithout(rest, gone, h);
      if last !in gone {
        WithoutSnoc(Survivors(rest, gone), last, h);
      } else {
        assert Survivors(rest, gone) + [] == Survivors(rest, gone);
      }
    }
  }

  lemma {:induction false} SurvivorsOfNone(live: seq<Hook>)
    ensures Survivors(live, {}) == live
  {
    if live != [] {
      SurvivorsOfNone(live[..|live| - 1]);
    }
  }

  lemma {:induction false} SurvivorsTwice(live: seq<Hook>, a: set<Hook>, b: set<Hook>)
    ensures Survivors(Survivors(live, a), b) == Survivors(live, a + b)
  {
    if live != [] {
      var rest, last := live[..|live| - 1], live[|live| - 1];
      SurvivorsTwice(rest, a, b);
      var kept := Survivors(rest, a);
      if last !in a {
        assert (kept + [last])[..|kept|] == kept;
      } else {
        assert kept + [] == kept;
      }
    }
  }

  lemma {:induction false} InBucketSurvivors(live: seq<Hook>, gone: set<Hook>, b: nat)
    ensures InBucket(Survivors(live, gone), b) == Survivors(InBucket(live, b), gone)
  {
    hide Bucket;
    if live != [] {
      var rest, last := live[..|live| - 1], live[|live| - 1];
      var kept, items := Survivors(rest, gone), InBucket(rest, b);
      InBucketSurvivors(rest, gone, b);
      InBucketSnoc(kept, last, b);
      assert kept + [] == kept && items + [] == items;
      assert (items + [last])[..|items|] == items;
    }
  }

  /** Unhashing in earlier buckets leaves a later bucket as it was. */
  lemma {:induction false} NextTurn(start: seq<Hook>, doomed: set<Hook>, i: nat)
    ensures var visited, now := Traversal(start, i), InBucket(start, i);
            var gone := Struck(visited, doomed);
            && InBucket(Survivors(start, gone), i) == now
            && Survivors(Survivors(start, gone), Struck(now, doomed)) == Survivors(start, Struck(visited + now, doomed))
  {
    hide Bucket;
    var visited, now := Traversal(start, i), InBucket(start, i);
    var gone := Struck(visited, doomed);
    InBucketSurvivors(start, gone, i);
    forall h | h in now
      ensures h !in gone
    {
      InTraversal(start, h, i);
      BucketHolds(start, i);
    }
    SurvivorsAgree(now, gone, {});
    SurvivorsOfNone(now);
    SurvivorsTwice(start, gone, Struck(now, doomed));
    assert gone + Struck(now, doomed) == Struck(visited + now, doomed);
  }

  lemma {:induction false} AllVisited(start: seq<Hook>, doomed: set<Hook>, n: nat)
    requires n == PROC_BUCKETS
    ensures Survivors(start, Struck(Traversal(start, n), doomed)) == Survivors(start, doomed)
  {
    var struck := Struck(Traversal(start, n), doomed);
    forall h | h in start
      ensures h in struck <==> h in doomed
    {
      InTraversal(start, h, n);
    }
    SurvivorsAgree(start, struck, doomed);
  }

  lemma {:induction false} SurvivorsAgree(live: seq<Hook>, a: set<Hook>, b: set<Hook>)
    requires forall h :: h in live ==> (h in a <==> h in b)
    ensures Survivors(live, a) == Survivors(live, b)
  {
    if live != [] {
      SurvivorsAgree(live[..|live| - 1], a, b);
    }
  }

  lemma {:induction false} OldestFrom(items: seq<Hook>, i: nat, pid: int)
    requires i < |items|
    ensures Oldest(items[i..], pid) == if items[i].pid == pid then items[i] else Oldest(items[i + 1..], pid)
  {
    assert items[i..][1..] == items[i + 1..];
  }

  /** The walk along one bucket. */
  method FindInList(list: Hook, pid: int, ghost items: seq<Hook>) returns (proc: Hook?)
    requires Ring(list, items)
    ensures proc == Oldest(items, pid)
  {
    var p := list.next;
    ghost var i := 0;
    assert items[0..] == items;
    while p != list
      invariant 0 <= i <= |items| && p == At(list, items, i)
      invariant Oldest(items[i..], pid) == Oldest(items, pid)
      decreases |items| - i
    {
      OldestFrom(items, i, pid);
      if p.pid == pid { return p; }
      p, i := p.next, i + 1;
    }
    return null;
  }
}
