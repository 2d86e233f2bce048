/** The doubly linked list of gps/utils: elements are added at the head and
    taken from the tail. */
module LinkedLists {
  import opened Wrappers

  datatype ListErr =
    | Success
    | FailureGeneral
    | InvalidParameter
    | InvalidHandle
    | UnavailableResource
    | InsufficientBuffer

  /** A stored data pointer, and whether a dealloc function came with it. */
  datatype Item<T> = Item(data: T, owned: bool)

  /** The index of the first item that satisfies `equal`, or the length. */
  function FirstMatch<T>(s: seq<Item<T>>, equal: T -> bool): (i: nat)
    ensures i <= |s|
    ensures i < |s| ==> equal(s[i].data)
    ensures forall j :: 0 <= j < i ==> !equal(s[j].data)
  {
    if s == [] || equal(s[0].data) then 0 else 1 + FirstMatch(s[1..], equal)
  }

  lemma {:induction false} FirstMatchIs<T>(s: seq<Item<T>>, equal: T -> bool, i: nat)
    requires i <= |s|
    requires i < |s| ==> equal(s[i].data)
    requires forall j :: 0 <= j < i ==> !equal(s[j].data)
    ensures FirstMatch(s, equal) == i
  {
    if i > 0 {
      assert forall j :: 0 <= j < i - 1 ==> s[1..][j] == s[j + 1];
      FirstMatchIs(s[1..], equal, i - 1);
    }
  }

  /** The data that a flush hands to dealloc functions, in order. */
  function Owned<T>(s: seq<Item<T>>): seq<T> {
    if s == [] then [] else (if s[0].owned then [s[0].data] else []) + Owned(s[1..])
  }

  lemma {:induction false} OwnedSnoc<T>(s: seq<Item<T>>, x: Item<T>)
    ensures Owned(s + [x]) == Owned(s) + if x.owned then [x.data] else []
  {
    if s == [] {
      assert s + [x] == [x];
    } else {
      assert (s + [x])[1..] == s[1..] + [x];
      OwnedSnoc(s[1..], x);
    }
  }

  class ListElement<T> {
    var next: ListElement?<T>
    var prev: ListElement?<T>
    const item: Item<T>

    constructor (item: Item<T>)
      ensures this.item == item && next == null && prev == null
    {
      this.item, next, prev := item, null, null;
    }
  }

  class LinkedList<T> {
    var pHead: ListElement?<T>
    var pTail: ListElement?<T>
    var freed: seq<T>                     // the calls of dealloc functions, in order
    ghost var nodes: seq<ListElement<T>>  // from head to tail

    ghost predicate Valid()
      reads this, nodes
    {
      && (forall i, j :: 0 <= i < j < |nodes| ==> nodes[i] != nodes[j])
      && (forall i, j :: 0 <= i < |nodes| && 0 <= j < |nodes| && j == i + 1 ==>
            nodes[i].next == nodes[j] && nodes[j].prev == nodes[i])
      && (if nodes == [] then pHead == null && pTail == null
          else
            && pHead == nodes[0] && nodes[0].prev == null
            && pTail == nodes[|nodes| - 1] && nodes[|nodes| - 1].next == null)
    }

    ghost function Contents(): (s: seq<Item<T>>)
      reads this
      ensures |s| == |nodes|
    {
      seq(|nodes|, i requires 0 <= i < |nodes| reads this => nodes[i].item)
    }

    /** Head and tail are null together, and next and prev undo each other. */
    lemma LinksAreMutual()
      requires Valid()
      ensures pHead == null <==> pTail == null
      ensures forall e :: e in nodes ==>
        && (e.next != null ==> e.next in nodes && e.next.prev == e)
        && (e.prev != null ==> e.prev in nodes && e.prev.next == e)
        && (e.next == null <==> e == pTail) && (e.prev == null <==> e == pHead)
    {
      forall e | e in nodes
        ensures e.next != null ==> e.next in nodes && e.next.prev == e
        ensures e.prev != null ==> e.prev in nodes && e.prev.next == e
        ensures (e.next == null <==> e == pTail) && (e.prev == null <==> e == pHead)
      {
        var i :| 0 <= i < |nodes| && nodes[i] == e;
        assert i + 1 < |nodes| ==> nodes[i + 1].prev == nodes[i];
        assert 0 < i ==> nodes[i - 1].next == nodes[i];
      }
    }

    constructor ()
      ensures Valid() && Contents() == [] && freed == [] && fresh(nodes)
    {
      pHead, pTail, freed, nodes := null, null, [], [];
    }

    method Add(data: Option<T>, owned: bool) returns (err: ListErr)
      requires Valid()
      modifies this, nodes
      ensures Valid() && fresh(set e | e in nodes && e !in old(nodes)) && freed == old(freed)
      ensures err == if data.None? then InvalidParameter else Success
      ensures Contents() == (if data.None? then [] else [Item(data.value, owned)]) + old(Contents())
    {
      if data == None {
        return InvalidParameter;
      }
      var elem := new ListElement(Item(data.value, owned));
      var tmp := pHead;
      pHead := elem;
      pHead.next := tmp;
      if tmp != null {
        tmp.prev := pHead;
      } else {
        pTail := pHead;
      }
      assert elem !in nodes;
      nodes := [elem] + nodes;
      assert forall i :: 1 <= i < |nodes| ==> nodes[i] == old(nodes)[i - 1];
      err := Success;
    }

    /** Takes the oldest element; `slot` is the caller's variable. */
    method Remove(slot: Option<T>) returns (err: ListErr, slot': Option<T>)
      requires Valid()
      modifies this, nodes
      ensures Valid() && freed == old(freed) && forall e :: e in nodes ==> e in old(nodes)
      ensures err == if old(Contents()) == [] then UnavailableResource else Success
      ensures err == UnavailableResource ==> slot' == slot && Contents() == []
      ensures err == Success ==>
        && Contents() == old(Contents())[..|old(Contents())| - 1]
        && slot' == Some(old(Contents())[|old(Contents())| - 1].data)
    {
      slot' := slot;
      if pTail == null {
        return UnavailableResource, slot;
      }
      var tmp := pTail;
      assert tmp == nodes[|nodes| - 1] && (|nodes| > 1 ==> nodes[|nodes| - 2] in nodes);
      pTail := tmp.prev;
      if pTail != null {
        pTail.next := null;
      } else {
        pHead := pTail;
      }
      slot' := Some(tmp.item.data);
      nodes := nodes[..|nodes| - 1];
      err := Success;
    }

    method Empty() returns (empty: bool)
      requires Valid()
      ensures empty <==> Contents() == []
    {
      empty := pHead == null;
    }

    method Flush() returns (err: ListErr)
      requires Valid()
      modifies this
      ensures Valid() && Contents() == [] && nodes == [] && err == Success
      ensures freed == old(freed) + Owned(old(Contents()))
    {
      ghost var was, k := Contents(), 0;
      while pHead != null
        invariant 0 <= k <= |nodes| && nodes == old(nodes)
        invariant pHead == if k < |nodes| then nodes[k] else null
        invariant freed == old(freed) + Owned(was[..k])
        decreases |nodes| - k
      {
        var tmp := pHead.next;
        if pHead.item.owned {
          freed := freed + [pHead.item.data];
        }
        assert was[..k + 1] == was[..k] + [was[k]] && was[k] == nodes[k].item;
        OwnedSnoc(was[..k], was[k]);
        pHead := tmp;
        k := k + 1;
      }
      assert was[..k] == was;
      pTail := null;
      nodes := [];
      err := Success;
    }

    /** `equal` may look at what the stored pointers point to; `matches` is what it
        makes of them at the moment. */
    ghost predicate Tests(equal: T ~> bool, matches: T -> bool)
      reads *
    {
      forall i :: 0 <= i < |nodes| ==>
        equal.requires(nodes[i].item.data) && equal(nodes[i].item.data) == matches(nodes[i].item.data)
    }

    /** Scans from the head for the first element that satisfies `equal`. */
    method FindFirst(equal: T ~> bool, ghost matches: T -> bool) returns (tmp: ListElement?<T>, ghost k: nat)
      requires Valid() && Tests(equal, matches)
      ensures k == FirstMatch(Contents(), matches)
      ensures tmp == if k < |nodes| then nodes[k] else null
    {
      ghost var was := Contents();
      tmp, k := pHead, 0;
      while tmp != null && !equal(tmp.item.data)
        invariant 0 <= k <= |nodes| && tmp == if k < |nodes| then nodes[k] else null
        invariant forall j :: 0 <= j < k ==> !matches(was[j].data)
        decreases |nodes| - k
      {
        assert was[k] == nodes[k].item;
        tmp := tmp.next;
        k := k + 1;
      }
      FirstMatchIs(was, matches, k);
    }

    /** Finds the first element that satisfies `equal` and takes it out when
        `rmIfFound`.  The data goes to the caller's `slot` when the caller gave
        one (`copyOut`), else to its dealloc function. */
    method Search(equal: T ~> bool, ghost matches: T -> bool, copyOut: bool, slot: Option<T>, rmIfFound: bool)
      returns (err: ListErr, slot': Option<T>)
      requires Valid() && Tests(equal, matches)
      modifies this, nodes
      ensures Valid() && forall e :: e in nodes ==> e in old(nodes)
      ensures err == if old(Contents()) == [] then UnavailableResource else Success
      ensures
        var was, i := old(Contents()), FirstMatch(old(Contents()), matches);
        && Contents() == (if rmIfFound && i < |was| then was[..i] + was[i + 1..] else was)
        && slot' == (if !copyOut || was == [] then slot
                     else if i < |was| then Some(was[i].data) else None)
        && freed == old(freed) + if rmIfFound && !copyOut && i < |was| then Owned([was[i]]) else []
    {
      slot' := slot;
      if pTail == null {
        return UnavailableResource, slot;
      }
      var tmp;
      ghost var k;
      tmp, k := FindFirst(equal, matches);
      err := Success;
      if copyOut {
        slot' := None;
      }
      if tmp != null {
        assert Contents()[k] == tmp.item;
        if copyOut {
          slot' := Some(tmp.item.data);
        }
        if rmIfFound {
          TakeOut(tmp, k, copyOut);
        }
      }
    }

    /** Unlinks an element; its data is freed if it was not copied out. */
    method TakeOut(tmp: ListElement<T>, ghost k: nat, copyOut: bool)
      requires Valid() && k < |nodes| && tmp == nodes[k]
      modifies this, nodes
      ensures Valid() && forall e :: e in nodes ==> e in old(nodes)
      ensures Contents() == old(Contents())[..k] + old(Contents())[k + 1..]
      ensures freed == old(freed) + if copyOut then [] else Owned([old(Contents())[k]])
    {
      Unlink(tmp, k);
      if !copyOut && tmp.item.owned {
        freed := freed + [tmp.item.data];
      }
    }

    /** Relinks the neighbours of the k-th element around it. */
    method Unlink(tmp: ListElement<T>, ghost k: nat)
      requires Valid() && k < |nodes| && tmp == nodes[k]
      modifies this, nodes
      ensures Valid() && freed == old(freed)
      ensures nodes == old(nodes)[..k] + old(nodes)[k + 1..]
      ensures Contents() == old(Contents())[..k] + old(Contents())[k + 1..]
      ensures tmp.next == null && tmp.prev == null
    {
      assert 0 < k ==> nodes[k - 1] in nodes && nodes[k - 1] == tmp.prev;
      assert k + 1 < |nodes| ==> nodes[k + 1] in nodes && nodes[k + 1] == tmp.next;
      if tmp.prev == null {
        pHead := tmp.next;
      } else {
        tmp.prev.next := tmp.next;
      }
      if tmp.next == null {
        pTail := tmp.prev;
      } else {
        tmp.next.prev := tmp.prev;
      }
      tmp.prev, tmp.next := null, null;
      nodes := nodes[..k] + nodes[k + 1..];
      assert forall i :: 0 <= i < |nodes| ==> nodes[i] == old(nodes)[if i < k then i else i + 1];
    }
  }
}
