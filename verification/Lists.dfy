/** Intrusive circular doubly linked lists. */
module Lists {
  import opened Sequences

  /**
   A hook, together with the pid of the process it is embedded in: going from a hook to
   its process is address arithmetic in C and nothing at all here. List heads have no use
   for the pid.
   */
  class Hook {
    const pid: int
    var prev: Hook
    var next: Hook

    constructor (pid: int)
      ensures this.pid == pid && Single()
    {
      this.pid := pid;
      prev, next := this, this;
    }

    /** Linked to nothing but itself. */
    predicate Single()
      reads this
    {
      prev == this && next == this
    }
  }

  /** The hook at position `i` of a list, where positions -1 and |items| are its head. */
  ghost function At(head: Hook, items: seq<Hook>, i: int): Hook {
    if 0 <= i < |items| then items[i] else head
  }

  /** `head` starts a circular list of `items`, linked in both directions. */
  ghost predicate Ring(head: Hook, items: seq<Hook>)
    reads head, set h | h in items
  {
    var distinct := head !in items && NoDuplicates(items);
    var forward := head.next == At(head, items, 0)
                   && forall i {:trigger items[i].next} :: 0 <= i < |items| ==> items[i].next == At(head, items, i + 1);
    var backward := head.prev == At(head, items, |items| - 1)
                    && forall i {:trigger items[i].prev} :: 0 <= i < |items| ==> items[i].prev == At(head, items, i - 1);
    distinct && forward && backward
  }

  method ListInit(hook: Hook)
    modifies hook
    ensures hook.Single() && Ring(hook, [])
  {
    hook.prev, hook.next := hook, hook;
  }

  method ListEmpty(list: Hook, ghost items: seq<Hook>) returns (empty: bool)
    requires Ring(list, items)
    ensures empty <==> items == []
  {
    empty := list.prev == list && list.next == list;
  }

  method ListAppend(list: Hook, elem: Hook, ghost items: seq<Hook>)
    requires Ring(list, items) && elem != list && elem !in items
    modifies list, elem, list.prev
    ensures Ring(list, items + [elem])
  {
    var empty := ListEmpty(list, items);
    if empty {
      list.next := elem;
      elem.prev := list;
      list.prev := elem;
      elem.next := list;
    } else {
      var prev := list.prev;
      prev.next := elem;
      elem.next := list;
      list.prev := elem;
      elem.prev := prev;
    }
  }

  /** A listed hook is not single. */
  lemma {:induction false} ListedIsLinked(elem: Hook, head: Hook, items: seq<Hook>)
    requires Ring(head, items) && elem in items
    ensures !elem.Single()
  {
    var i :| 0 <= i < |items| && items[i] == elem;
    assert elem.next == At(head, items, i + 1);
  }

  /** A list with position `i` left out. */
  lemma {:induction false} LeaveOut(head: Hook, items: seq<Hook>, i: nat, rest: seq<Hook>)
    requires i < |items| && rest == items[..i] + items[i + 1..]
    requires NoDuplicates(items) && head !in items
    ensures NoDuplicates(rest) && head !in rest && items[i] !in rest
    ensures forall k :: -1 <= k < i ==> At(head, rest, k) == At(head, items, k)
    ensures forall k :: i <= k <= |rest| ==> At(head, rest, k) == At(head, items, k + 1)
  {
  }

  /** The neighbours of position `i` are linked to each other. */
  method Bypass(elem: Hook, ghost head: Hook, ghost items: seq<Hook>, ghost i: nat)
    requires Ring(head, items) && i < |items| && items[i] == elem
    modifies elem.prev`next, elem.next`prev
    ensures elem != head && elem !in items[..i] + items[i + 1..]
    ensures Ring(head, items[..i] + items[i + 1..])
  {
    ghost var rest := items[..i] + items[i + 1..];
    LeaveOut(head, items, i, rest);
    assert elem.prev == At(head, rest, i - 1) && elem.next == At(head, rest, i);
    var prev, next := elem.prev, elem.next;
    prev.next := next;
    next.prev := prev;
    forall k | 0 <= k < |rest|
      ensures rest[k].next == At(head, rest, k + 1)
    {
      var j := if k < i then k else k + 1;
      assert rest[k] == items[j] && old(items[j].next) == At(head, items, j + 1);
    }
    forall k | 0 <= k < |rest|
      ensures rest[k].prev == At(head, rest, k - 1)
    {
      var j := if k < i then k else k + 1;
      assert rest[k] == items[j] && old(items[j].prev) == At(head, items, j - 1);
    }
  }

  /** Deleting a hook from its list; a hook in no list is left alone. */
  method ListDelete(elem: Hook, ghost head: Hook, ghost items: seq<Hook>)
    requires Ring(head, items) && elem != head && (elem in items || elem.Single())
    modifies elem, elem.prev, elem.next
    ensures elem.Single() && Ring(head, Without(items, elem))
  {
    if elem in items {
      ListedIsLinked(elem, head, items);
    } else {
      WithoutAbsent(items, elem);
    }
    if !(elem.prev == elem && elem.next == elem) {
      ghost var i :| 0 <= i < |items| && items[i] == elem;
      WithoutAt(items, elem, i);
      Bypass(elem, head, items, i);
      elem.prev, elem.next := elem, elem;
    }
  }
}
