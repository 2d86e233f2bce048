/** The scan over the input files and the two passes over the chip list that lay
    out and write the image. */
module DtbPackers {
  import opened Wrappers
  import opened DtbImage
  import opened DtbTools

  const COPY_BLK := 1024

  type PageSize = n: nat | n > 0 witness 1

  /** What the tool finds under a path when it writes the image. */
  type Disk = map<Path, seq<byte>>

  predicate ReadsAs(file: Option<Path>, size: nat, disk: Disk, page: PageSize)
  {
    file.Some? && file.value in disk && |Padded(disk[file.value], page)| == size
  }

  /** The bytes stored for a master: its padded file, when that has kept its size. */
  function StoredBytes(file: Option<Path>, size: nat, disk: Disk, page: nat): (b: seq<byte>)
    requires page > 0
    ensures |b| == size
  {
    if ReadsAs(file, size, disk, page) then Padded(disk[file.value], page) else Zeros(size)
  }

  ghost function SetOf(chips: seq<ChipInfo>): set<ChipInfo> {
    set c | c in chips
  }

  lemma {:induction false} IndexOfIs<M>(order: seq<M>, m: M, k: nat)
    requires Distinct(order) && k < |order| && order[k] == m
    ensures IndexOf(order, m) == k
  {
    assert order[IndexOf(order, m)] == m;
  }

  /** The stored bytes of every master, as a function that outlives later updates. */
  ghost function StoredIn(files: map<ChipInfo, seq<byte>>): ChipInfo -> seq<byte> {
    m => if m in files then files[m] else []
  }

  /** Step `i` of either pass over the list: a master that was mentioned before
      keeps its place, a new one comes next. */
  lemma NextFirst<M>(ms: seq<M>, stored: M -> seq<byte>, start: nat, i: nat)
    requires i < |ms|
    ensures var cur, order := Firsts(ms[..i]), Firsts(ms);
      && Firsts(ms[..i + 1]) == (if ms[i] in cur then cur else cur + [ms[i]])
      && Firsts(ms[..i + 1]) <= order && cur <= order && Distinct(order)
      && ms[i] in order
      && (ms[i] in cur ==> IndexOf(cur, ms[i]) == IndexOf(order, ms[i]))
      && (ms[i] !in cur ==> OffsetOf(order, stored, start, ms[i]) == start + |Blobs(cur, stored)|)
  {
    var cur, order := Firsts(ms[..i]), Firsts(ms);
    assert ms[..i + 1][..i] == ms[..i];
    FirstsGrow(ms, i);
    FirstsGrow(ms, i + 1);
    FirstsAre(ms);
    if ms[i] in cur {
      IndexOfIs(order, ms[i], IndexOf(cur, ms[i]));
    } else {
      assert Firsts(ms[..i + 1])[|cur|] == ms[i];
      IndexOfIs(order, ms[i], |cur|);
      assert order[..|cur|] == cur;
    }
  }

  lemma TableStep<M>(keys: seq<Key>, ms: seq<M>, order: seq<M>, stored: M -> seq<byte>, start: nat, i: nat)
    requires |keys| == |ms| && i < |ms| && forall m :: m in ms ==> m in order
    ensures Table(keys[..i + 1], ms[..i + 1], order, stored, start)
         == Table(keys[..i], ms[..i], order, stored, start)
            + Record(keys[i], OffsetOf(order, stored, start, ms[i]), |stored(ms[i])|)
  {
    assert keys[..i + 1][..i] == keys[..i] && ms[..i + 1][..i] == ms[..i];
  }

  lemma BlobsStep<M>(cur: seq<M>, m: M, stored: M -> seq<byte>)
    ensures Blobs(cur + [m], stored) == Blobs(cur, stored) + stored(m)
  {
    assert (cur + [m])[..|cur|] == cur;
  }

  /** The first pass after `i` chips. */
  ghost predicate IndexedTo<M>(keys: seq<Key>, ms: seq<M>, stored: M -> seq<byte>, start: nat, i: nat,
                               table: seq<byte>, expected: nat)
    requires |keys| == |ms| && i <= |ms| && forall m :: m in ms ==> m in Firsts(ms)
  {
    && table == Table(keys[..i], ms[..i], Firsts(ms), stored, start)
    && expected == start + |Blobs(Firsts(ms[..i]), stored)|
  }

  lemma IndexStep<M>(keys: seq<Key>, ms: seq<M>, stored: M -> seq<byte>, start: nat, i: nat,
                     table: seq<byte>, expected: nat)
    requires |keys| == |ms| && i < |ms| && forall m :: m in ms ==> m in Firsts(ms)
    requires IndexedTo(keys, ms, stored, start, i, table, expected)
    ensures var m, cur, offset := ms[i], Firsts(ms[..i]), OffsetOf(Firsts(ms), stored, start, ms[i]);
      && Firsts(ms[..i + 1]) == (if m in cur then cur else cur + [m])
      && (m !in cur ==> offset == expected)
      && offset >= start && expected <= start + |Blobs(Firsts(ms), stored)|
      && IndexedTo(keys, ms, stored, start, i + 1, table + Record(keys[i], offset, |stored(m)|),
                   expected + if m in cur then 0 else |stored(m)|)
  {
    NextFirst(ms, stored, start, i);
    TableStep(keys, ms, Firsts(ms), stored, start, i);
    BlobsStep(Firsts(ms[..i]), ms[i], stored);
    PrefixFits(Firsts(ms[..i]), Firsts(ms), stored);
  }

  lemma PrefixFits<M>(cur: seq<M>, order: seq<M>, stored: M -> seq<byte>)
    requires cur <= order
    ensures |Blobs(cur, stored)| <= |Blobs(order, stored)|
  {
    if |cur| < |order| {
      BlobsNest(order, stored, |cur|, |order|);
      assert order[..|cur|] == cur && order[..|order|] == order;
    } else {
      assert cur == order;
    }
  }

  /** Copies a file in blocks. */
  method CopyFile(content: seq<byte>) returns (out: seq<byte>)
    ensures out == content
  {
    out := [];
    var pos := 0;
    while pos < |content|
      invariant 0 <= pos <= |content| && out == content[..pos]
    {
      var numBytesRead := if |content| - pos < COPY_BLK then |content| - pos else COPY_BLK;
      out := out + content[pos..pos + numBytesRead];
      pos := pos + numBytesRead;
    }
  }

  class DtbPacker {
    const list: ChipList
    const page: PageSize
    var dtbCount: nat

    /** Every listed chip's master is listed, leads itself, and has its file. */
    ghost predicate MastersOk()
      reads list, list.Repr`dtbFile, list.Repr`dtbSize
    {
      forall n :: n in list.Repr ==> MasterOk(n)
    }

    ghost predicate MasterOk(n: ChipInfo)
      reads list, list.Repr`dtbFile, list.Repr`dtbSize
    {
      && n.master in list.Repr && n.master.master == n.master
      && n.master.dtbFile.Some? && n.master.dtbSize % page == 0
    }

    ghost predicate Valid()
      reads this, list, list.Repr
    {
      && Counted() && MastersOk()
      && forall n :: n in list.Repr ==> n.masterOffset == 0 && !n.wroteDtb
    }

    ghost predicate Counted()
      reads this, list, list.Repr`prev, list.Repr`next
    {
      list.Linked() && list.Sorted() && dtbCount == |list.nodes|
    }

    constructor (page: PageSize)
      ensures Valid() && this.page == page && list.nodes == [] && fresh(list)
    {
      this.page := page;
      list := new ChipList();
      dtbCount := 0;
    }

    method AddCounted(c: ChipInfo) returns (added: bool)
      requires Counted() && c !in list.Repr
      modifies this`dtbCount, list, list.Repr`prev, list.Repr`next, c`prev, c`next
      ensures Counted()
      ensures added <==> !old(list.Lists(c.key))
      ensures !added ==> list.nodes == old(list.nodes) && list.Repr == old(list.Repr)
      ensures added ==> list.Repr == old(list.Repr) + {c}
    {
      added := list.ChipAdd(c);
      if added {
        dtbCount := dtbCount + 1;
      }
    }

    /** Adds a chip that shares a listed master, unless an equal one is listed. */
    method AddAdditional(c: ChipInfo)
      requires Valid() && c !in list.Repr && c.New()
      requires c.master in list.Repr && c.master.master == c.master
      modifies this`dtbCount, list, list.Repr`prev, list.Repr`next, c`prev, c`next
      ensures Valid() && list.Lists(c.key)
      ensures old(list.Repr) <= list.Repr <= old(list.Repr) + {c}
    {
      var added := AddCounted(c);
      assert added ==> c in list.Repr;
    }

    /** The first `i` chips of the file are listed, by themselves or by an equal
        one; the others are new. */
    ghost predicate Added(chips: seq<ChipInfo>, i: nat)
      requires i <= |chips|
      reads list`Repr, SetOf(chips)`dtbFile, SetOf(chips)`wroteDtb, SetOf(chips)`masterOffset
    {
      && (forall j :: i <= j < |chips| ==> chips[j] in SetOf(chips) && chips[j] !in list.Repr && chips[j].New())
      && (forall j :: 0 <= j < i ==> list.Lists(chips[j].key))
    }

    method AddNext(chips: seq<ChipInfo>, i: nat)
      requires Valid() && 0 < i < |chips|
      requires forall j, k :: 0 <= j < k < |chips| ==> chips[j] != chips[k]
      requires chips[i].master == chips[0] && chips[0].master == chips[0] && chips[0] in list.Repr
      requires Added(chips, i)
      modifies this`dtbCount, list, list.Repr`prev, list.Repr`next, {chips[i]}`prev, {chips[i]}`next
      ensures Valid() && Added(chips, i + 1)
      ensures old(list.Repr) <= list.Repr <= old(list.Repr) + {chips[i]}
    {
      AddAdditional(chips[i]);
    }

    method AddRest(chips: seq<ChipInfo>)
      requires Valid() && chips != []
      requires forall i, j :: 0 <= i < j < |chips| ==> chips[i] != chips[j]
      requires forall j :: 0 <= j < |chips| ==> chips[j].master == chips[0]
      requires chips[0] in list.Repr && Added(chips, 1)
      modifies this`dtbCount, list, list.Repr`prev, list.Repr`next, SetOf(chips)`prev, SetOf(chips)`next
      ensures Valid() && Added(chips, |chips|)
      ensures old(list.Repr) <= list.Repr <= old(list.Repr) + SetOf(chips)
    {
      var i := 1;
      while i < |chips|
        invariant 1 <= i <= |chips|
        invariant Valid() && Added(chips, i)
        invariant old(list.Repr) <= list.Repr <= old(list.Repr) + SetOf(chips)
      {
        assert chips[i] in SetOf(chips);
        AddNext(chips, i);
        i := i + 1;
      }
    }

    /** One file of the input directory, with its chips and its size. */
    method AddFile(chips: seq<ChipInfo>, path: Path, size: nat)
      requires Valid()
      requires chips != [] && forall i, j :: 0 <= i < j < |chips| ==> chips[i] != chips[j]
      requires forall j :: 0 <= j < |chips| ==>
        chips[j] !in list.Repr && chips[j].master == chips[0] && chips[j].New()
      modifies this, list, list.Repr`prev, list.Repr`next, chips
      ensures Valid()
      ensures old(list.Repr) <= list.Repr <= old(list.Repr) + SetOf(chips)
      // a file without content, or whose first chip is listed, contributes nothing
      ensures size == 0 || old(list.Lists(chips[0].key)) ==>
        list.nodes == old(list.nodes) && list.Repr == old(list.Repr)
      // any other file has all its chips listed, and its first one as their master
      ensures size > 0 && !old(list.Lists(chips[0].key)) ==>
        && chips[0] in list.Repr && chips[0].dtbFile == Some(path)
        && chips[0].dtbSize == size + PaddingFor(size, page)
        && forall j :: 0 <= j < |chips| ==> list.Lists(chips[j].key)
    {
      if size == 0 {
        return;
      }
      assert chips[0] in SetOf(chips);
      var added := AddHead(chips[0], path, size);
      if added {
        AddRest(chips);
      }
    }

    method AddHead(head: ChipInfo, path: Path, size: nat) returns (added: bool)
      requires Valid() && head !in list.Repr && head.master == head && head.New()
      modifies this`dtbCount, list, list.Repr`prev, list.Repr`next, head
      ensures Valid()
      ensures added <==> !old(list.Lists(head.key))
      ensures !added ==> list.nodes == old(list.nodes) && list.Repr == old(list.Repr)
      ensures added ==>
        && list.Repr == old(list.Repr) + {head}
        && head.dtbFile == Some(path) && head.dtbSize == size + PaddingFor(size, page)
    {
      added := AddCounted(head);
      if added {
        SetFile(head, path, size);
      }
    }

    /** Gives a newly listed head its file and its padded size. */
    method SetFile(head: ChipInfo, path: Path, size: nat)
      requires Counted()
      requires head in list.Repr && head.master == head
      requires forall n :: n in list.Repr ==> n.masterOffset == 0 && !n.wroteDtb
      requires forall n :: n in list.Repr && n != head ==> MasterOk(n) && n.master != head
      modifies head`dtbFile, head`dtbSize
      ensures Valid()
      ensures head.dtbFile == Some(path) && head.dtbSize == size + PaddingFor(size, page)
    {
      PaddedEndsOnPage(size, page);
      head.dtbSize := size + PaddingFor(size, page);
      head.dtbFile := Some(path);
    }

    // ----- the two passes -----

    ghost function Keys(): (ks: seq<Key>)
      reads list
      ensures |ks| == |list.nodes|
    {
      seq(|list.nodes|, i requires 0 <= i < |list.nodes| reads list => list.nodes[i].key)
    }

    ghost function Masters(): (ms: seq<ChipInfo>)
      reads list
      ensures |ms| == |list.nodes|
    {
      seq(|list.nodes|, i requires 0 <= i < |list.nodes| reads list => list.nodes[i].master)
    }

    ghost function Files(disk: Disk): map<ChipInfo, seq<byte>>
      reads list, list.Repr`dtbFile, list.Repr`dtbSize
    {
      map m | m in list.Repr :: StoredBytes(m.dtbFile, m.dtbSize, disk, page)
    }

    /** What the second half of `main` needs of the scan, and never changes. */
    ghost predicate Scanned(stored: ChipInfo -> seq<byte>)
      reads list, list.Repr`prev, list.Repr`next, list.Repr`dtbFile, list.Repr`dtbSize
    {
      && list.Linked() && MastersOk()
      && forall m :: m in list.Repr ==> |stored(m)| == m.dtbSize
    }

    lemma NodeAt(i: nat)
      requires list.Linked() && MastersOk() && i < |list.nodes|
      ensures var n := list.nodes[i];
        && n in list.Repr && MasterOk(n)
        && n.next == if i + 1 < |list.nodes| then list.nodes[i + 1] else null
    {
      assert i + 1 < |list.nodes| ==> list.nodes[i].next == list.nodes[i + 1];
    }

    method SetOffset(master: ChipInfo, offset: nat, ghost stored: ChipInfo -> seq<byte>)
      requires Scanned(stored)
      modifies master`masterOffset
      ensures Scanned(stored) && master.masterOffset == offset
    {
      master.masterOffset := offset;
    }

    /** One index entry.  A master without an offset gets the next one. */
    method IndexChip(chip: ChipInfo, expected: nat, ghost stored: ChipInfo -> seq<byte>)
      returns (record: seq<byte>, expected': nat)
      requires Scanned(stored) && expected < TWO32
      modifies chip.master`masterOffset
      ensures Scanned(stored)
      ensures chip.master.masterOffset ==
        if old(chip.master.masterOffset) == 0 then expected else old(chip.master.masterOffset)
      ensures record == Record(chip.key, chip.master.masterOffset, chip.master.dtbSize)
      ensures expected' == expected + if old(chip.master.masterOffset) == 0 then chip.master.dtbSize else 0
    {
      record := Le32(chip.key.chipset) + Le32(chip.key.platform)
              + Le32(chip.key.subtype) + Le32(chip.key.revNum);
      if chip.master.masterOffset != 0 {
        record := record + Le32(chip.master.masterOffset);
        expected' := expected;
      } else {
        record := record + Le32(expected);
        SetOffset(chip.master, expected, stored);
        expected' := expected + chip.master.dtbSize;
      }
      record := record + Le32(chip.master.dtbSize);
    }

    /** The masters of `cur` have the offsets of the layout, the others none. */
    ghost predicate Laid(cur: seq<ChipInfo>, order: seq<ChipInfo>, stored: ChipInfo -> seq<byte>, start: nat)
      reads list, list.Repr`masterOffset
    {
      forall m :: m in list.Repr ==>
        if m in cur then m in order && m.masterOffset == OffsetOf(order, stored, start, m) else m.masterOffset == 0
    }

    /** Step `i` of the first pass. */
    method IndexNext(chip: ChipInfo, table: seq<byte>, expected: nat, ghost i: nat, ghost keys: seq<Key>,
                     ghost ms: seq<ChipInfo>, ghost stored: ChipInfo -> seq<byte>, ghost start: nat)
      returns (table': seq<byte>, expected': nat)
      requires |keys| == |ms| && i < |ms| && forall m :: m in ms ==> m in Firsts(ms)
      requires chip.key == keys[i] && chip.master == ms[i] && chip.master in list.Repr
      requires start > 0 && start + |Blobs(Firsts(ms), stored)| < TWO32
      requires IndexedTo(keys, ms, stored, start, i, table, expected)
      requires Laid(Firsts(ms[..i]), Firsts(ms), stored, start)
      requires Scanned(stored)
      modifies chip.master`masterOffset
      ensures Scanned(stored)
      ensures IndexedTo(keys, ms, stored, start, i + 1, table', expected')
      ensures Laid(Firsts(ms[..i + 1]), Firsts(ms), stored, start)
    {
      IndexStep(keys, ms, stored, start, i, table, expected);
      var record;
      record, expected' := LayChip(chip, expected, Firsts(ms[..i]), Firsts(ms), stored, start);
      table' := table + record;
    }

    /** The entry of a chip whose master has its place in the layout. */
    method LayChip(chip: ChipInfo, expected: nat, ghost cur: seq<ChipInfo>, ghost order: seq<ChipInfo>,
                   ghost stored: ChipInfo -> seq<byte>, ghost start: nat)
      returns (record: seq<byte>, expected': nat)
      requires Scanned(stored) && Laid(cur, order, stored, start) && chip.master in list.Repr && chip.master in order
      requires 0 < start <= OffsetOf(order, stored, start, chip.master) && expected < TWO32
      requires chip.master !in cur ==> OffsetOf(order, stored, start, chip.master) == expected
      modifies chip.master`masterOffset
      ensures Scanned(stored)
      ensures Laid(if chip.master in cur then cur else cur + [chip.master], order, stored, start)
      ensures record == Record(chip.key, OffsetOf(order, stored, start, chip.master), |stored(chip.master)|)
      ensures expected' == expected + if chip.master in cur then 0 else |stored(chip.master)|
    {
      record, expected' := IndexChip(chip, expected, stored);
    }

    /** The listed chips' keys and masters, in the order of the list. */
    ghost predicate Spells(keys: seq<Key>, ms: seq<ChipInfo>)
      reads list
    {
      && |keys| == |ms| == |list.nodes|
      && forall i :: 0 <= i < |ms| ==> keys[i] == list.nodes[i].key && ms[i] == list.nodes[i].master
    }

    /** The first pass: writes the index and gives every master its offset. */
    method WriteIndex(start: nat, ghost keys: seq<Key>, ghost ms: seq<ChipInfo>, ghost stored: ChipInfo -> seq<byte>)
      returns (table: seq<byte>, expected: nat)
      requires Scanned(stored) && Spells(keys, ms) && forall m :: m in list.Repr ==> m.masterOffset == 0
      requires forall m :: m in ms ==> m in Firsts(ms)
      requires start > 0 && start + |Blobs(Firsts(ms), stored)| < TWO32
      modifies list.Repr`masterOffset
      ensures Scanned(stored) && IndexedTo(keys, ms, stored, start, |ms|, table, expected)
    {
      table, expected := [], start;
      var chip := list.head;
      ghost var i := 0;
      while chip != null
        invariant Scanned(stored) && Spells(keys, ms)
        invariant 0 <= i <= |ms| && chip == if i < |ms| then list.nodes[i] else null
        invariant IndexedTo(keys, ms, stored, start, i, table, expected)
        invariant Laid(Firsts(ms[..i]), Firsts(ms), stored, start)
        decreases |ms| - i
      {
        NodeAt(i);
        table, expected := IndexNext(chip, table, expected, i, keys, ms, stored, start);
        NodeAt(i);
        chip := chip.next;
        i := i + 1;
      }
    }

    // ----- the second pass -----

    ghost predicate Stores(stored: ChipInfo -> seq<byte>, disk: Disk)
      reads list, list.Repr`dtbFile, list.Repr`dtbSize
    {
      forall m :: m in list.Repr ==> stored(m) == StoredBytes(m.dtbFile, m.dtbSize, disk, page)
    }

    /** Exactly the masters of `cur` are marked as written. */
    ghost predicate Marked(cur: seq<ChipInfo>)
      reads list, list.Repr`wroteDtb
    {
      forall m :: m in list.Repr ==> (m.wroteDtb <==> m in cur)
    }

    /** Every master of `cur` has a file that still has its size. */
    ghost predicate AllRead(cur: seq<ChipInfo>, disk: Disk)
      reads list, list.Repr`dtbFile, list.Repr`dtbSize
    {
      forall m :: m in list.Repr && m in cur ==> ReadsAs(m.dtbFile, m.dtbSize, disk, page)
    }

    method Mark(master: ChipInfo, ghost stored: ChipInfo -> seq<byte>, ghost disk: Disk, ghost cur: seq<ChipInfo>)
      requires Scanned(stored) && Stores(stored, disk) && Marked(cur) && AllRead(cur, disk)
      modifies master`wroteDtb
      ensures Scanned(stored) && Stores(stored, disk) && Marked(cur + [master]) && AllRead(cur, disk)
    {
      master.wroteDtb := true;
    }

    /** The stored bytes of one file, if it is there and has kept its size. */
    method ReadBlob(file: Path, size: nat, disk: Disk) returns (blob: Option<seq<byte>>)
      ensures blob.Some? <==> ReadsAs(Some(file), size, disk, page)
      ensures blob.Some? ==> blob.value == StoredBytes(Some(file), size, disk, page)
    {
      if file !in disk {
        return None;
      }
      var content := CopyFile(disk[file]);
      var padding := page - |content| % page;
      if |content| + padding != size {
        return None;
      }
      blob := Some(content + Zeros(padding));
    }

    lemma AllReadStep(cur: seq<ChipInfo>, m: ChipInfo, disk: Disk)
      requires AllRead(cur, disk) && ReadsAs(m.dtbFile, m.dtbSize, disk, page)
      ensures AllRead(cur + [m], disk)
    {
    }

    /** One step of the second pass, with the blobs of `cur` written. */
    method BlobNext(chip: ChipInfo, disk: Disk, blobs: seq<byte>,
                    ghost cur: seq<ChipInfo>, ghost stored: ChipInfo -> seq<byte>)
      returns (ok: bool, blobs': seq<byte>)
      requires Scanned(stored) && Stores(stored, disk)
      requires chip.master in list.Repr && chip.master.dtbFile.Some?
      requires blobs == Blobs(cur, stored) && Marked(cur) && AllRead(cur, disk)
      modifies chip.master`wroteDtb
      ensures Scanned(stored) && Stores(stored, disk)
      ensures !ok ==> !ReadsAs(chip.master.dtbFile, chip.master.dtbSize, disk, page)
      ensures ok ==> var next := if chip.master in cur then cur else cur + [chip.master];
        blobs' == Blobs(next, stored) && Marked(next) && AllRead(next, disk)
    {
      BlobsStep(cur, chip.master, stored);
      if chip.master.wroteDtb {
        return true, blobs;
      }
      Mark(chip.master, stored, disk, cur);
      var blob := ReadBlob(chip.master.dtbFile.value, chip.master.dtbSize, disk);
      if blob == None {
        return false, blobs;
      }
      AllReadStep(cur, chip.master, disk);
      return true, blobs + blob.value;
    }

    /** The second pass: writes every master's file once, padded to whole pages. */
    method WriteBlobs(disk: Disk, ghost keys: seq<Key>, ghost ms: seq<ChipInfo>, ghost stored: ChipInfo -> seq<byte>)
      returns (ok: bool, blobs: seq<byte>)
      requires Scanned(stored) && Stores(stored, disk) && Spells(keys, ms) && Marked([])
      requires forall m :: m in ms ==> m in Firsts(ms)
      modifies list.Repr`wroteDtb
      ensures ok <==> AllRead(Firsts(ms), disk)
      ensures ok ==> blobs == Blobs(Firsts(ms), stored)
    {
      ok, blobs := true, [];
      var chip := list.head;
      ghost var i := 0;
      while chip != null
        invariant Scanned(stored) && Stores(stored, disk) && Spells(keys, ms)
        invariant 0 <= i <= |ms| && chip == if i < |ms| then list.nodes[i] else null
        invariant blobs == Blobs(Firsts(ms[..i]), stored) && Marked(Firsts(ms[..i]))
        invariant ok && AllRead(Firsts(ms[..i]), disk)
        decreases |ms| - i
      {
        NodeAt(i);
        NextFirst(ms, stored, 0, i);
        ok, blobs := BlobNext(chip, disk, blobs, Firsts(ms[..i]), stored);
        if !ok {
          return;
        }
        NodeAt(i);
        chip := chip.next;
        i := i + 1;
      }
      assert ms[..i] == ms;
    }

    // ----- the image -----

    /** Where the last blob ends. */
    ghost function Total(disk: Disk): nat
      reads list, list.Repr`dtbFile, list.Repr`dtbSize
    {
      Start(|list.nodes|, page) + |Blobs(Firsts(Masters()), StoredIn(Files(disk)))|
    }

    /** No listed chip's file has gone or changed its padded size. */
    ghost predicate Unchanged(disk: Disk)
      reads list, list.Repr`dtbFile, list.Repr`dtbSize
    {
      forall m :: m in list.Repr && m in Masters() ==> ReadsAs(m.dtbFile, m.dtbSize, disk, page)
    }

    lemma PassesStart(disk: Disk)
      requires Valid()
      ensures Scanned(StoredIn(Files(disk))) && Stores(StoredIn(Files(disk)), disk)
      ensures Spells(Keys(), Masters()) && Marked([])
      ensures forall m :: m in Masters() ==> m in Firsts(Masters())
      ensures AllRead(Firsts(Masters()), disk) <==> Unchanged(disk)
    {
      FirstsAre(Masters());
    }

    lemma ImageIs(keys: seq<Key>, ms: seq<ChipInfo>, stored: ChipInfo -> seq<byte>, table: seq<byte>, blobs: seq<byte>,
                  expected: nat)
      requires |keys| == |ms| && forall m :: m in ms ==> m in Firsts(ms)
      requires IndexedTo(keys, ms, stored, Start(|ms|, page), |ms|, table, expected)
      requires blobs == Blobs(Firsts(ms), stored)
      ensures var out := Header(|ms|) + table + Le32(0) + Zeros(PaddingFor(IndexSize(|ms|), page)) + blobs;
        out == Image(keys, ms, stored, page) && |out| == expected
    {
      assert ms[..|ms|] == ms && keys[..|keys|] == keys;
      TableSize(keys, ms, Firsts(ms), stored, Start(|ms|, page));
    }

    /** Puts the parts together, and compares the bytes written with the layout. */
    method Join(table: seq<byte>, padding: nat, blobs: seq<byte>, expected: nat,
                ghost keys: seq<Key>, ghost ms: seq<ChipInfo>, ghost stored: ChipInfo -> seq<byte>, ghost start: nat)
      returns (image: Option<seq<byte>>)
      requires dtbCount == |keys| == |ms| && forall m :: m in ms ==> m in Firsts(ms)
      requires padding == PaddingFor(IndexSize(|ms|), page)
      requires start == Start(|ms|, page) && IndexedTo(keys, ms, stored, start, |ms|, table, expected)
      requires blobs == Blobs(Firsts(ms), stored)
      ensures image == Some(Image(keys, ms, stored, page))
    {
      ImageIs(keys, ms, stored, table, blobs, expected);
      var out := Header(dtbCount) + table + Le32(0) + Zeros(padding) + blobs;
      image := if |out| != expected then None else Some(out);
    }

    /** Where the blobs start, and how many zeros come before that. */
    method IndexEnd() returns (start: nat, padding: nat)
      ensures start == Start(dtbCount, page) && padding == PaddingFor(IndexSize(dtbCount), page)
    {
      var indexSize := 12 + 24 * dtbCount + 4;
      padding := page - indexSize % page;
      start := indexSize + padding;
    }

    /** The header, the index and the blobs: nothing when a file does not read as
        it was scanned. */
    method Assemble(disk: Disk, ghost keys: seq<Key>, ghost ms: seq<ChipInfo>, ghost stored: ChipInfo -> seq<byte>)
      returns (image: Option<seq<byte>>)
      requires Scanned(stored) && Stores(stored, disk) && Spells(keys, ms) && Marked([])
      requires dtbCount == |ms| && forall m :: m in list.Repr ==> m.masterOffset == 0
      requires forall m :: m in ms ==> m in Firsts(ms)
      requires Start(|ms|, page) + |Blobs(Firsts(ms), stored)| < TWO32
      modifies list.Repr`masterOffset, list.Repr`wroteDtb
      ensures image.Some? <==> AllRead(Firsts(ms), disk)
      ensures image.Some? ==> image.value == Image(keys, ms, stored, page)
    {
      var start, padding := IndexEnd();
      var table, expected := WriteIndex(start, keys, ms, stored);
      var ok, blobs := WriteBlobs(disk, keys, ms, stored);
      if !ok {
        return None;
      }
      image := Join(table, padding, blobs, expected, keys, ms, stored, start);
    }

    /** Writes the image, unless no chip is listed. */
    method WriteImage(disk: Disk) returns (image: Option<seq<byte>>)
      requires Valid() && Total(disk) < TWO32
      modifies list.Repr`masterOffset, list.Repr`wroteDtb
      ensures image.Some? <==> old(list.nodes != [] && Unchanged(disk))
      ensures image.Some? ==> image.value == old(Image(Keys(), Masters(), StoredIn(Files(disk)), page))
    {
      if dtbCount == 0 {
        return None;
      }
      PassesStart(disk);
      image := Assemble(disk, Keys(), Masters(), StoredIn(Files(disk)));
    }

    /** What the layout has for the i-th listed chip. */
    lemma ServedBy(disk: Disk, i: nat)
      requires Valid() && Unchanged(disk) && i < |list.nodes|
      ensures var n, file := list.nodes[i], list.nodes[i].master.dtbFile;
        && Keys()[i] == n.key && Masters()[i] == n.master
        && file.Some? && file.value in disk
        && StoredIn(Files(disk))(n.master) == Padded(disk[file.value], page)
    {
      NodeAt(i);
      assert Masters()[i] in Masters();
    }

    /** Reading the image back: the i-th entry is the i-th listed chip, and its
        region is its master's file followed by zeros up to a page end. */
    lemma ImageServesEveryChip(disk: Disk, img: seq<byte>, i: nat)
      requires Valid() && Unchanged(disk) && i < |list.nodes| && Fits(list.nodes[i].key)
      requires img == Image(Keys(), Masters(), StoredIn(Files(disk)), page) && |img| < TWO32
      ensures HEADER_SIZE + ENTRY_SIZE * i + ENTRY_SIZE <= |img| && ReadCount(img) == dtbCount
      ensures var e, file := ReadEntry(img, i), list.nodes[i].master.dtbFile;
        && e.key == list.nodes[i].key && e.offset + e.size <= |img|
        && file.Some? && file.value in disk
        && img[e.offset..e.offset + e.size] == Padded(disk[file.value], page)
    {
      ServedBy(disk, i);
      ImageReadsBack(Keys(), Masters(), StoredIn(Files(disk)), page, i);
    }
  }
}
