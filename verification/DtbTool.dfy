/** The packing tool: the sorted chip list, the scan that fills it, and the two
    passes that lay out and write the image. */
module DtbTools {
  import opened Wrappers
  import opened DtbImage

  type Path = string

  /** The order of the list: chipset, platform, subtype, revision. */
  predicate Less(a: Key, b: Key) {
    || a.chipset < b.chipset
    || (a.chipset == b.chipset &&
        (|| a.platform < b.platform
         || (a.platform == b.platform &&
             (|| a.subtype < b.subtype
              || (a.subtype == b.subtype && a.revNum < b.revNum)))))
  }

  function Words(k: Key): seq<nat> {
    [k.chipset, k.platform, k.subtype, k.revNum]
  }

  predicate DifferAt(a: Key, b: Key, i: nat) {
    i < 4 && Words(a)[..i] == Words(b)[..i] && Words(a)[i] < Words(b)[i]
  }

  /** Chips come in the order of the first of these numbers in which they differ. */
  lemma LessMeans(a: Key, b: Key)
    ensures Less(a, b) <==> DifferAt(a, b, 0) || DifferAt(a, b, 1) || DifferAt(a, b, 2) || DifferAt(a, b, 3)
  {
    var u, v := Words(a), Words(b);
    assert u[..1] == [a.chipset] && v[..1] == [b.chipset];
    assert u[..2] == [a.chipset, a.platform] && v[..2] == [b.chipset, b.platform];
    assert u[..3] == [a.chipset, a.platform, a.subtype] && v[..3] == [b.chipset, b.platform, b.subtype];
  }

  class ChipInfo {
    const key: Key
    const master: ChipInfo
    var dtbSize: nat
    var dtbFile: Option<Path>
    var prev: ChipInfo?
    var next: ChipInfo?
    var wroteDtb: bool
    var masterOffset: nat

    constructor Head(key: Key)
      ensures this.key == key && master == this && New()
    {
      this.key, master := key, this;
      dtbSize, dtbFile, prev, next, wroteDtb, masterOffset := 0, None, null, null, false, 0;
    }

    constructor Additional(key: Key, head: ChipInfo)
      ensures this.key == key && master == head && New()
    {
      this.key, master := key, head;
      dtbSize, dtbFile, prev, next, wroteDtb, masterOffset := 0, None, null, null, false, 0;
    }

    ghost predicate New()
      reads this`dtbFile, this`wroteDtb, this`masterOffset
    {
      dtbFile == None && !wroteDtb && masterOffset == 0
    }
  }

  class ChipList {
    var head: ChipInfo?
    ghost var nodes: seq<ChipInfo>  // in the order of the links
    ghost var Repr: set<ChipInfo>   // the same chips

    ghost predicate Covered()
      reads this
    {
      (forall i :: 0 <= i < |nodes| ==> nodes[i] in Repr) && |Repr| == |nodes|
    }

    /** Being as many and different, the listed chips are all of Repr. */
    lemma ReprIsListed()
      requires Linked()
      ensures forall n :: n in Repr ==> n in nodes
    {
      SameSize(nodes, Repr);
    }

    static lemma {:induction false} SameSize(s: seq<ChipInfo>, r: set<ChipInfo>)
      requires forall i, j :: 0 <= i < j < |s| ==> s[i] != s[j]
      requires (forall i :: 0 <= i < |s| ==> s[i] in r) && |r| == |s|
      ensures forall n :: n in r ==> n in s
    {
      if s != [] {
        var k := |s| - 1;
        SameSize(s[..k], r - {s[k]});
        assert s == s[..k] + [s[k]];
      }
    }

    ghost predicate Linked()
      reads this, Repr`prev, Repr`next
    {
      && Covered()
      && (forall i, j :: 0 <= i < j < |nodes| ==> nodes[i] != nodes[j])
      && (forall i, j :: 0 <= i < |nodes| && 0 <= j < |nodes| && j == i + 1 ==>
            nodes[i].next == nodes[j] && nodes[j].prev == nodes[i])
      && (if nodes == [] then head == null
          else head == nodes[0] && nodes[0].prev == null && nodes[|nodes| - 1].next == null)
    }

    ghost predicate Sorted()
      reads this
    {
      forall i, j :: 0 <= i < j < |nodes| ==> Less(nodes[i].key, nodes[j].key)
    }

    ghost predicate Lists(k: Key)
      reads this`Repr
    {
      exists n :: n in Repr && n.key == k
    }

    constructor ()
      ensures Linked() && Sorted() && nodes == [] && Repr == {}
    {
      head, nodes, Repr := null, [], {};
    }

    /** Links `c` in before the i-th node. */
    method InsertBefore(c: ChipInfo, x: ChipInfo, ghost i: nat)
      requires Linked() && c !in Repr && i < |nodes| && x == nodes[i]
      modifies this, Repr`prev, Repr`next, c`prev, c`next
      ensures Linked() && Repr == old(Repr) + {c}
      ensures nodes == old(nodes)[..i] + [c] + old(nodes)[i..]
    {
      ghost var was := nodes;
      Relink(c, x, i);
      nodes := was[..i] + [c] + was[i..];
      Repr := Repr + {c};
      assert Placed(was, nodes, i, c);
      LinksAfterInsert(was, i, c);
    }

    /** The pointers of that. */
    method Relink(c: ChipInfo, x: ChipInfo, ghost i: nat)
      requires Linked() && c !in Repr && i < |nodes| && x == nodes[i]
      modifies this`head, Repr`prev, Repr`next, c`prev, c`next
      ensures c.next == nodes[i] && nodes[i].prev == c
      ensures if i == 0 then head == c && c.prev == null
              else head == nodes[0] && nodes[0].prev == null && c.prev == nodes[i - 1] && nodes[i - 1].next == c
      ensures nodes[|nodes| - 1].next == null
      ensures forall j, k :: 0 <= j < |nodes| && 0 <= k < |nodes| && k == j + 1 && k != i ==>
        nodes[j].next == nodes[k] && nodes[k].prev == nodes[j]
    {
      assert 0 < i ==> nodes[i - 1] == x.prev;
      c.next := x;
      c.prev := x.prev;
      if x.prev == null {
        head := c;
      } else {
        x.prev.next := c;
      }
      x.prev := c;
    }

    ghost predicate LinkedAlong(s: seq<ChipInfo>)
      reads s
    {
      forall j, k :: 0 <= j < |s| && 0 <= k < |s| && k == j + 1 ==> s[j].next == s[k] && s[k].prev == s[j]
    }

    lemma LinksAfterInsert(was: seq<ChipInfo>, i: nat, c: ChipInfo)
      requires i < |was| && Placed(was, nodes, i, c)
      requires forall j, k :: 0 <= j < |was| && 0 <= k < |was| && k == j + 1 && k != i ==>
        was[j].next == was[k] && was[k].prev == was[j]
      requires c.next == was[i] && was[i].prev == c
      requires i > 0 ==> c.prev == was[i - 1] && was[i - 1].next == c
      ensures LinkedAlong(nodes)
    {
      forall j, k | 0 <= j < |nodes| && 0 <= k < |nodes| && k == j + 1
        ensures nodes[j].next == nodes[k] && nodes[k].prev == nodes[j]
      {
        if k < i {
          assert nodes[j] == was[j] && nodes[k] == was[k];
        } else if j > i {
          assert nodes[j] == was[j - 1] && nodes[k] == was[k - 1];
        }
      }
    }

    /** `now` is `was` with `c` in place `i`, position by position. */
    ghost predicate Placed(was: seq<ChipInfo>, now: seq<ChipInfo>, i: nat, c: ChipInfo) {
      && i <= |was| && |now| == |was| + 1 && now[i] == c
      && (forall k :: 0 <= k < i ==> now[k] == was[k])
      && (forall k :: i < k < |now| ==> now[k] == was[k - 1])
    }

    method Append(c: ChipInfo, x: ChipInfo)
      requires Linked() && c !in Repr && nodes != [] && x == nodes[|nodes| - 1]
      modifies this, Repr`next, c`prev, c`next
      ensures Linked() && Repr == old(Repr) + {c} && nodes == old(nodes) + [c]
    {
      c.prev := x;
      c.next := null;
      x.next := c;
      nodes := nodes + [c];
      Repr := Repr + {c};
    }

    /** Inserts a chip unless an equal one is listed. */
    method ChipAdd(c: ChipInfo) returns (ok: bool)
      requires Linked() && Sorted() && c !in Repr
      modifies this, Repr`prev, Repr`next, c`prev, c`next
      ensures Linked() && Sorted()
      ensures ok <==> !old(Lists(c.key))
      ensures !ok ==> nodes == old(nodes) && Repr == old(Repr)
      ensures ok ==> Repr == old(Repr) + {c} && |nodes| == |old(nodes)| + 1
    {
      if head == null {
        head := c;
        c.next := null;
        c.prev := null;
        nodes, Repr := [c], {c};
        return true;
      }
      var x := head;
      ghost var i := 0;
      while true
        invariant Linked() && Sorted() && nodes == old(nodes) && Repr == old(Repr) && head == old(head)
        invariant 0 <= i < |nodes| && x == nodes[i]
        invariant forall j :: 0 <= j < i ==> Less(nodes[j].key, c.key)
        decreases |nodes| - i
      {
        if Less(c.key, x.key) {
          NotListed(c.key, i);
          InsertBefore(c, x, i);
          SortedAfterInsert(old(nodes), i, c);
          return true;
        }
        if c.key == x.key {
          assert x in Repr;
          return false;
        }
        assert Less(x.key, c.key);
        assert i + 1 < |nodes| ==> nodes[i + 1] == x.next;
        if x.next == null {
          NotListed(c.key, i + 1);
          Append(c, x);
          return true;
        }
        assert i + 1 < |nodes| && nodes[i + 1] == x.next;
        x := x.next;
        i := i + 1;
      }
    }

    /** A key between two neighbours in the order, or past the last, is missing. */
    lemma NotListed(k: Key, i: nat)
      requires Linked() && Sorted() && i <= |nodes|
      requires forall j :: 0 <= j < i ==> Less(nodes[j].key, k)
      requires i < |nodes| ==> Less(k, nodes[i].key)
      ensures !Lists(k)
    {
      ReprIsListed();
      forall n | n in Repr ensures n.key != k {
        var j :| 0 <= j < |nodes| && nodes[j] == n;
        assert j > i ==> Less(nodes[i].key, nodes[j].key);
      }
    }

    lemma SortedAfterInsert(was: seq<ChipInfo>, i: nat, c: ChipInfo)
      requires i < |was| && nodes == was[..i] + [c] + was[i..]
      requires forall j, k :: 0 <= j < k < |was| ==> Less(was[j].key, was[k].key)
      requires forall j :: 0 <= j < i ==> Less(was[j].key, c.key)
      requires Less(c.key, was[i].key)
      ensures Sorted()
    {
      forall j, k | 0 <= j < k < |nodes| ensures Less(nodes[j].key, nodes[k].key) {
        var jj, kk := if j <= i then j else j - 1, if k <= i then k else k - 1;
        assert j < i ==> nodes[j] == was[j];
        assert j > i ==> nodes[j] == was[j - 1];
        assert k < i ==> nodes[k] == was[k];
        assert k > i ==> nodes[k] == was[k - 1];
        if j == i && k > i + 1 {
          assert Less(was[i].key, was[k - 1].key);
        }
      }
    }
  }

  // ----- the chips of one file -----

  /** Links `x` in right after the first element. */
  function AfterHead<T>(list: seq<T>, x: T): seq<T> {
    if list == [] then [x] else [list[0], x] + list[1..]
  }

  function HeadFirst<T>(s: seq<T>): seq<T> {
    if s == [] then [] else AfterHead(HeadFirst(s[..|s| - 1]), s[|s| - 1])
  }

  lemma AfterHeadAdds<T>(list: seq<T>, x: T)
    ensures |AfterHead(list, x)| == |list| + 1
    ensures multiset(AfterHead(list, x)) == multiset(list) + multiset{x}
  {
    if list != [] {
      assert list == [list[0]] + list[1..];
    }
  }

  lemma {:induction false} HeadFirstKeepsAll<T>(s: seq<T>)
    ensures |HeadFirst(s)| == |s| && multiset(HeadFirst(s)) == multiset(s)
    ensures s != [] ==> HeadFirst(s)[0] == s[0]
  {
    if s != [] {
      var n := |s| - 1;
      HeadFirstKeepsAll(s[..n]);
      AfterHeadAdds(HeadFirst(s[..n]), s[n]);
      assert s == s[..n] + [s[n]];
    }
  }

  /** The first element leads, the others follow from the last to the second. */
  lemma {:induction false} HeadFirstOrder<T>(s: seq<T>, j: nat)
    requires 0 < j < |s|
    ensures |HeadFirst(s)| == |s| && HeadFirst(s)[j] == s[|s| - j]
  {
    var n := |s| - 1;
    HeadFirstKeepsAll(s);
    HeadFirstKeepsAll(s[..n]);
    if j > 1 {
      HeadFirstOrder(s[..n], j - 1);
    }
  }

  /** All pairs of a chip ID (chipset, revision) with a board ID (platform,
      subtype), the boards varying fastest. */
  function Pairs(ids: seq<(nat, nat)>, boards: seq<(nat, nat)>): seq<Key> {
    if ids == [] then []
    else Row(ids[0], boards) + Pairs(ids[1..], boards)
  }

  function Row(id: (nat, nat), boards: seq<(nat, nat)>): (r: seq<Key>)
    ensures |r| == |boards|
    ensures forall k :: 0 <= k < |r| ==> r[k] == KeyOf(id, boards[k])
  {
    seq(|boards|, k requires 0 <= k < |boards| => KeyOf(id, boards[k]))
  }

  function KeyOf(id: (nat, nat), board: (nat, nat)): Key {
    Key(id.0, board.0, board.1, id.1)
  }

  lemma {:induction false} PairsAreAll(ids: seq<(nat, nat)>, boards: seq<(nat, nat)>, k: Key)
    ensures |Pairs(ids, boards)| == |ids| * |boards|
    ensures k in Pairs(ids, boards) <==> (k.chipset, k.revNum) in ids && (k.platform, k.subtype) in boards
  {
    if ids != [] {
      PairsAreAll(ids[1..], boards, k);
      assert ids == [ids[0]] + ids[1..];
      var row := Row(ids[0], boards);
      if (k.platform, k.subtype) in boards && (k.chipset, k.revNum) == ids[0] {
        var j :| 0 <= j < |boards| && boards[j] == (k.platform, k.subtype);
        assert row[j] == k;
      }
    }
  }

  /** The chips that a file with separate ID and board lists names, in the order
      of its chip list. */
  function FileKeys(ids: seq<(nat, nat)>, boards: seq<(nat, nat)>): seq<Key> {
    HeadFirst(Pairs(HeadFirst(ids), HeadFirst(boards)))
  }

  /** Exactly the products of the file's IDs and boards, led by the first ID
      with the first board. */
  lemma FileKeysAreTheProduct(ids: seq<(nat, nat)>, boards: seq<(nat, nat)>, k: Key)
    requires ids != [] && boards != []
    ensures var ks := FileKeys(ids, boards);
      && |ks| == |ids| * |boards| > 0
      && (k in ks <==> (k.chipset, k.revNum) in ids && (k.platform, k.subtype) in boards)
      && ks[0] == KeyOf(ids[0], boards[0])
  {
    var hi, hb := HeadFirst(ids), HeadFirst(boards);
    HeadFirstKeepsAll(ids);
    HeadFirstKeepsAll(boards);
    PairsAreAll(hi, hb, k);
    var ps := Pairs(hi, hb);
    HeadFirstKeepsAll(ps);
    assert (k.chipset, k.revNum) in multiset(hi) <==> (k.chipset, k.revNum) in multiset(ids);
    assert (k.platform, k.subtype) in multiset(hb) <==> (k.platform, k.subtype) in multiset(boards);
    assert k in multiset(FileKeys(ids, boards)) <==> k in multiset(ps);
    assert |ids| * |boards| >= 1 by { PositiveProduct(|ids|, |boards|); }
    assert ps[0] == Row(hi[0], hb)[0];
  }

  lemma PositiveProduct(a: nat, b: nat)
    requires a > 0 && b > 0
    ensures a * b > 0
  {
  }

  method LinkAfterHead<T>(parsed: seq<T>) returns (list: seq<T>)
    ensures list == HeadFirst(parsed)
  {
    list := [];
    var i := 0;
    while i < |parsed|
      invariant 0 <= i <= |parsed|
      invariant list == HeadFirst(parsed[..i])
    {
      assert parsed[..i + 1][..i] == parsed[..i];
      list := if list == [] then [parsed[i]] else [list[0], parsed[i]] + list[1..];
      i := i + 1;
    }
    assert parsed[..i] == parsed;
  }

  method GetRow(id: (nat, nat), boards: seq<(nat, nat)>) returns (row: seq<Key>)
    ensures row == Row(id, boards)
  {
    row := [];
    var j := 0;
    while j < |boards|
      invariant 0 <= j <= |boards|
      invariant row == Row(id, boards)[..j]
    {
      row := row + [KeyOf(id, boards[j])];
      j := j + 1;
    }
  }

  /** The pairs of a version 2 file, in the order in which they are made. */
  method GetPairs(ids: seq<(nat, nat)>, boards: seq<(nat, nat)>) returns (pairs: seq<Key>)
    ensures pairs == Pairs(HeadFirst(ids), HeadFirst(boards))
  {
    var chipIds := LinkAfterHead(ids);
    var boardIds := LinkAfterHead(boards);
    pairs := [];
    var i := 0;
    while i < |chipIds|
      invariant 0 <= i <= |chipIds|
      invariant pairs + Pairs(chipIds[i..], boardIds) == Pairs(chipIds, boardIds)
    {
      var row := GetRow(chipIds[i], boardIds);
      ghost var rest := Pairs(chipIds[i + 1..], boardIds);
      assert chipIds[i..][1..] == chipIds[i + 1..];
      assert pairs + (row + rest) == (pairs + row) + rest;
      pairs := pairs + row;
      i := i + 1;
    }
    assert chipIds[i..] == [];
  }

  /** One file's chips: all different and new, with the first as their master. */
  ghost predicate IsChain(chips: seq<ChipInfo>)
    reads set c | c in chips
  {
    && (forall i, j :: 0 <= i < j < |chips| ==> chips[i] != chips[j])
    && (forall j :: 0 <= j < |chips| ==> chips[j].master == chips[0] && chips[j].New())
  }

  ghost predicate Spell(chips: seq<ChipInfo>, keys: seq<Key>) {
    |chips| == |keys| && forall j :: 0 <= j < |keys| ==> chips[j].key == keys[j]
  }

  /** Makes the chips of a file, each linked in right after the first, which is the
      master of all. */
  method ChainOf(parsed: seq<Key>) returns (chips: seq<ChipInfo>)
    ensures fresh(chips) && IsChain(chips) && Spell(chips, HeadFirst(parsed))
  {
    chips := [];
    var i := 0;
    while i < |parsed|
      invariant 0 <= i <= |parsed|
      invariant fresh(chips) && IsChain(chips) && Spell(chips, HeadFirst(parsed[..i]))
    {
      assert parsed[..i + 1][..i] == parsed[..i];
      if chips == [] {
        var chip := new ChipInfo.Head(parsed[i]);
        chips := [chip];
      } else {
        var tmp := new ChipInfo.Additional(parsed[i], chips[0]);
        chips := [chips[0], tmp] + chips[1..];
      }
      i := i + 1;
    }
    assert parsed[..i] == parsed;
  }
}
