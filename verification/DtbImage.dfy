/** The packed device-tree image: what dtbtool writes, as one value, and what an
    independent reader gets back out of it. */
module DtbImage {

  type byte = x: int | 0 <= x < 256

  const TWO32 := 0x1_0000_0000
  const HEADER_SIZE := 12
  const ENTRY_SIZE := 24
  const END_SIZE := 4
  const QCDT_VERSION := 2

  datatype Key = Key(chipset: nat, platform: nat, subtype: nat, revNum: nat)

  // ----- 32-bit little-endian numbers -----

  function Le32(x: nat): (b: seq<byte>)
    ensures |b| == 4
  {
    [x % 256, x / 0x100 % 256, x / 0x1_0000 % 256, x / 0x100_0000 % 256]
  }

  function ReadLe32(b: seq<byte>, at: nat): nat
    requires at + 4 <= |b|
  {
    (b[at] as int) + 0x100 * (b[at + 1] as int) + 0x1_0000 * (b[at + 2] as int) + 0x100_0000 * (b[at + 3] as int)
  }

  lemma ReadBackLe32(b: seq<byte>, at: nat, x: nat)
    requires at + 4 <= |b| && b[at..at + 4] == Le32(x) && x < TWO32
    ensures ReadLe32(b, at) == x
  {
    var r := b[at..at + 4];
    assert b[at] == r[0] && b[at + 1] == r[1] && b[at + 2] == r[2] && b[at + 3] == r[3];
    var x1, x2, x3 := x / 0x100, x / 0x1_0000, x / 0x100_0000;
    assert x1 / 0x100 == x2 && x2 / 0x100 == x3;
    assert b[at] == x % 0x100 && b[at + 1] == x1 % 0x100 && b[at + 2] == x2 % 0x100 && b[at + 3] == x3;
  }

  // ----- pages -----

  function PaddingFor(n: nat, page: nat): (p: nat)
    requires page > 0
    ensures 1 <= p <= page
  {
    page - n % page
  }

  function Zeros(n: nat): (z: seq<byte>)
    ensures |z| == n && forall i :: 0 <= i < n ==> z[i] == 0
  {
    seq(n, i => 0)
  }

  /** A blob as it is stored: at least one zero follows it, up to a page end. */
  function Padded(blob: seq<byte>, page: nat): (p: seq<byte>)
    requires page > 0
    ensures |p| == |blob| + PaddingFor(|blob|, page)
    ensures p[..|blob|] == blob && forall i :: |blob| <= i < |p| ==> p[i] == 0
  {
    blob + Zeros(PaddingFor(|blob|, page))
  }

  lemma PaddedEndsOnPage(n: nat, page: nat)
    requires page > 0
    ensures (n + PaddingFor(n, page)) % page == 0
  {
    var q := n / page;
    assert n + PaddingFor(n, page) == page * (q + 1);
    MultipleOfPage(q + 1, page);
  }

  lemma MulBound(page: int, d: int)
    requires page > 0
    ensures d >= 1 ==> page * d >= page
    ensures d <= -1 ==> page * d <= -page
  {
    assert page * d == page * (d - 1) + page == page * (d + 1) - page;
  }

  lemma MultipleOfPage(k: nat, page: nat)
    requires page > 0
    ensures (page * k) % page == 0 && page * k / page == k
  {
    var q, r := page * k / page, page * k % page;
    assert page * (k - q) == r;
    MulBound(page, k - q);
  }

  lemma SumOnPage(a: nat, b: nat, page: nat)
    requires page > 0 && a % page == 0 && b % page == 0
    ensures (a + b) % page == 0
  {
    var i, j := a / page, b / page;
    assert a + b == page * (i + j);
    MultipleOfPage(i + j, page);
  }

  // ----- layout -----

  /** The masters in the order in which the index first mentions them. */
  function Firsts<M(==)>(ms: seq<M>): seq<M> {
    if ms == [] then []
    else
      var before, last := Firsts(ms[..|ms| - 1]), ms[|ms| - 1];
      if last in before then before else before + [last]
  }

  ghost predicate Distinct<M>(ms: seq<M>) {
    forall i, j :: 0 <= i < j < |ms| ==> ms[i] != ms[j]
  }

  lemma {:induction false} FirstsAre<M>(ms: seq<M>)
    ensures Distinct(Firsts(ms))
    ensures forall m :: m in Firsts(ms) <==> m in ms
  {
    if ms != [] {
      var n := |ms| - 1;
      FirstsAre(ms[..n]);
      assert ms == ms[..n] + [ms[n]];
    }
  }

  lemma {:induction false} FirstsGrow<M>(ms: seq<M>, i: nat)
    requires i <= |ms|
    ensures Firsts(ms[..i]) <= Firsts(ms)
  {
    if i < |ms| {
      FirstsGrow(ms[..|ms| - 1], i);
      assert ms[..|ms| - 1][..i] == ms[..i];
    } else {
      assert ms[..i] == ms;
    }
  }

  /** The stored blobs of `order`, one after the other. */
  function Blobs<M>(order: seq<M>, stored: M -> seq<byte>): seq<byte> {
    if order == [] then [] else Blobs(order[..|order| - 1], stored) + stored(order[|order| - 1])
  }

  /** Where the blob of `order[k]` starts. */
  function OffsetAt<M>(order: seq<M>, stored: M -> seq<byte>, start: nat, k: nat): nat
    requires k <= |order|
  {
    start + |Blobs(order[..k], stored)|
  }

  function IndexOf<M(==)>(order: seq<M>, m: M): (k: nat)
    requires m in order
    ensures k < |order| && order[k] == m
  {
    if order[0] == m then 0 else 1 + IndexOf(order[1..], m)
  }

  function OffsetOf<M(==)>(order: seq<M>, stored: M -> seq<byte>, start: nat, m: M): nat
    requires m in order
  {
    OffsetAt(order, stored, start, IndexOf(order, m))
  }

  lemma {:induction false} BlobsHold<M>(order: seq<M>, stored: M -> seq<byte>, k: nat)
    requires k < |order|
    ensures var at, all := |Blobs(order[..k], stored)|, Blobs(order, stored);
      && at + |stored(order[k])| <= |all|
      && all[at..at + |stored(order[k])|] == stored(order[k])
  {
    var n := |order| - 1;
    if k < n {
      BlobsHold(order[..n], stored, k);
      assert order[..n][..k] == order[..k];
    }
  }

  lemma {:induction false} BlobsNest<M>(order: seq<M>, stored: M -> seq<byte>, j: nat, k: nat)
    requires j < k <= |order|
    ensures |Blobs(order[..j], stored)| + |stored(order[j])| <= |Blobs(order[..k], stored)|
  {
    BlobsHold(order[..k], stored, j);
    assert order[..k][..j] == order[..j];
  }

  lemma {:induction false} BlobsOnPage<M>(order: seq<M>, stored: M -> seq<byte>, page: nat)
    requires page > 0 && forall m :: m in order ==> |stored(m)| % page == 0
    ensures |Blobs(order, stored)| % page == 0
  {
    if order != [] {
      var n := |order| - 1;
      BlobsOnPage(order[..n], stored, page);
      SumOnPage(|Blobs(order[..n], stored)|, |stored(order[n])|, page);
    }
  }

  // ----- the image -----

  /** One index entry: the chip, where its master's blob starts, how long it is. */
  function Record(k: Key, offset: nat, size: nat): (r: seq<byte>)
    ensures |r| == ENTRY_SIZE
  {
    Le32(k.chipset) + Le32(k.platform) + Le32(k.subtype) + Le32(k.revNum) + Le32(offset) + Le32(size)
  }

  function Table<M(==)>(keys: seq<Key>, ms: seq<M>, order: seq<M>, stored: M -> seq<byte>, start: nat): seq<byte>
    requires |keys| == |ms| && forall m :: m in ms ==> m in order
  {
    if ms == [] then []
    else
      var n := |ms| - 1;
      Table(keys[..n], ms[..n], order, stored, start)
        + Record(keys[n], OffsetOf(order, stored, start, ms[n]), |stored(ms[n])|)
  }

  function Header(count: nat): (h: seq<byte>)
    ensures |h| == HEADER_SIZE
  {
    [0x51, 0x43, 0x44, 0x54] + Le32(QCDT_VERSION) + Le32(count)
  }

  /** The unpadded size of header, index and end mark. */
  function IndexSize(count: nat): nat {
    HEADER_SIZE + ENTRY_SIZE * count + END_SIZE
  }

  function Start(count: nat, page: nat): nat
    requires page > 0
  {
    IndexSize(count) + PaddingFor(IndexSize(count), page)
  }

  function Image<M(==)>(keys: seq<Key>, ms: seq<M>, stored: M -> seq<byte>, page: nat): seq<byte>
    requires |keys| == |ms| && page > 0
  {
    FirstsAre(ms);
    var n, order := |keys|, Firsts(ms);
    Header(n) + Table(keys, ms, order, stored, Start(n, page)) + Le32(0)
      + Zeros(PaddingFor(IndexSize(n), page)) + Blobs(order, stored)
  }

  lemma {:induction false} TableSize<M>(keys: seq<Key>, ms: seq<M>, order: seq<M>, stored: M -> seq<byte>, start: nat)
    requires |keys| == |ms| && forall m :: m in ms ==> m in order
    ensures |Table(keys, ms, order, stored, start)| == ENTRY_SIZE * |ms|
  {
    if ms != [] {
      var n := |ms| - 1;
      TableSize(keys[..n], ms[..n], order, stored, start);
    }
  }

  lemma {:induction false} TableHolds<M>(keys: seq<Key>, ms: seq<M>, order: seq<M>, stored: M -> seq<byte>, start: nat, i: nat)
    requires |keys| == |ms| && i < |ms| && forall m :: m in ms ==> m in order
    ensures var t := Table(keys, ms, order, stored, start);
      && |t| == ENTRY_SIZE * |ms|
      && t[ENTRY_SIZE * i..ENTRY_SIZE * i + ENTRY_SIZE]
         == Record(keys[i], OffsetOf(order, stored, start, ms[i]), |stored(ms[i])|)
  {
    var n := |ms| - 1;
    TableSize(keys, ms, order, stored, start);
    TableSize(keys[..n], ms[..n], order, stored, start);
    var before := Table(keys[..n], ms[..n], order, stored, start);
    var last := Record(keys[n], OffsetOf(order, stored, start, ms[n]), |stored(ms[n])|);
    assert Table(keys, ms, order, stored, start) == before + last;
    PartAt(before, last, n, i);
    if i < n {
      TableHolds(keys[..n], ms[..n], order, stored, start, i);
    }
  }

  lemma PartAt(before: seq<byte>, last: seq<byte>, n: nat, i: nat)
    requires |before| == ENTRY_SIZE * n && |last| == ENTRY_SIZE && i <= n
    ensures ENTRY_SIZE * i + ENTRY_SIZE <= |before + last|
    ensures (before + last)[ENTRY_SIZE * i..ENTRY_SIZE * i + ENTRY_SIZE]
         == if i < n then before[ENTRY_SIZE * i..ENTRY_SIZE * i + ENTRY_SIZE] else last
  {
  }

  // ----- the reader -----

  datatype Entry = Entry(key: Key, offset: nat, size: nat)

  function ReadCount(img: seq<byte>): nat
    requires |img| >= HEADER_SIZE
  {
    ReadLe32(img, 8)
  }

  function ReadEntry(img: seq<byte>, i: nat): Entry
    requires HEADER_SIZE + ENTRY_SIZE * i + ENTRY_SIZE <= |img|
  {
    var at := HEADER_SIZE + ENTRY_SIZE * i;
    Entry(Key(ReadLe32(img, at), ReadLe32(img, at + 4), ReadLe32(img, at + 8), ReadLe32(img, at + 12)),
          ReadLe32(img, at + 16), ReadLe32(img, at + 20))
  }

  predicate Fits(k: Key) {
    k.chipset < TWO32 && k.platform < TWO32 && k.subtype < TWO32 && k.revNum < TWO32
  }

  lemma RecordReadsBack(img: seq<byte>, at: nat, k: Key, offset: nat, size: nat)
    requires at + ENTRY_SIZE <= |img| && img[at..at + ENTRY_SIZE] == Record(k, offset, size)
    requires Fits(k) && offset < TWO32 && size < TWO32
    ensures ReadLe32(img, at) == k.chipset && ReadLe32(img, at + 4) == k.platform
    ensures ReadLe32(img, at + 8) == k.subtype && ReadLe32(img, at + 12) == k.revNum
    ensures ReadLe32(img, at + 16) == offset && ReadLe32(img, at + 20) == size
  {
    var r := Record(k, offset, size);
    Field(img, at, r, 0, k.chipset);
    Field(img, at, r, 4, k.platform);
    Field(img, at, r, 8, k.subtype);
    Field(img, at, r, 12, k.revNum);
    Field(img, at, r, 16, offset);
    Field(img, at, r, 20, size);
  }

  lemma Field(img: seq<byte>, at: nat, r: seq<byte>, f: nat, x: nat)
    requires f + 4 <= |r| && at + |r| <= |img| && img[at..at + |r|] == r && r[f..f + 4] == Le32(x) && x < TWO32
    ensures ReadLe32(img, at + f) == x
  {
    var here := img[at + f..at + f + 4];
    forall k | 0 <= k < 4 ensures here[k] == r[f..f + 4][k] {
      assert here[k] == img[at + f + k] && img[at..at + |r|][f + k] == img[at + (f + k)];
    }
    assert here == r[f..f + 4];
    ReadBackLe32(img, at + f, x);
  }

  /** What lies where in an image. */
  ghost predicate Composed(img: seq<byte>, count: nat, table: seq<byte>, start: nat, blobs: seq<byte>) {
    && HEADER_SIZE + |table| <= start && |img| == start + |blobs|
    && img[..HEADER_SIZE] == Header(count)
    && img[HEADER_SIZE..HEADER_SIZE + |table|] == table
    && (forall j :: HEADER_SIZE + |table| <= j < start ==> img[j] == 0)
    && img[start..] == blobs
  }

  ghost predicate IsImage<M>(img: seq<byte>, keys: seq<Key>, ms: seq<M>, stored: M -> seq<byte>, page: nat) {
    && |keys| == |ms| && page > 0 && (forall m :: m in ms ==> m in Firsts(ms))
    && Composed(img, |ms|, Table(keys, ms, Firsts(ms), stored, Start(|ms|, page)), Start(|ms|, page),
                Blobs(Firsts(ms), stored))
  }

  lemma ImageIsImage<M>(keys: seq<Key>, ms: seq<M>, stored: M -> seq<byte>, page: nat)
    requires |keys| == |ms| && page > 0
    ensures IsImage(Image(keys, ms, stored, page), keys, ms, stored, page)
  {
    FirstsAre(ms);
    var n, order := |keys|, Firsts(ms);
    var table := Table(keys, ms, order, stored, Start(n, page));
    TableSize(keys, ms, order, stored, Start(n, page));
    Slices(Header(n), table, Le32(0), Zeros(PaddingFor(IndexSize(n), page)), Blobs(order, stored));
  }

  lemma Slices(h: seq<byte>, t: seq<byte>, e: seq<byte>, z: seq<byte>, b: seq<byte>)
    ensures var img, start := h + t + e + z + b, |h| + |t| + |e| + |z|;
      && |img| == start + |b| && img[..|h|] == h && img[|h|..|h| + |t|] == t && img[start..] == b
      && forall j :: |h| + |t| <= j < start ==> img[j] == (e + z)[j - |h| - |t|]
  {
    var img, at := h + t + e + z + b, |h| + |t|;
    assert img == (h + t) + (e + z) + b;
    forall j | at <= j < at + |e| + |z| ensures img[j] == (e + z)[j - at] {
    }
  }

  lemma RecordInTable(img: seq<byte>, t: seq<byte>, i: nat)
    requires HEADER_SIZE + |t| <= |img| && img[HEADER_SIZE..HEADER_SIZE + |t|] == t
    requires ENTRY_SIZE * i + ENTRY_SIZE <= |t|
    ensures var at := HEADER_SIZE + ENTRY_SIZE * i;
      img[at..at + ENTRY_SIZE] == t[ENTRY_SIZE * i..ENTRY_SIZE * i + ENTRY_SIZE]
  {
    var at := HEADER_SIZE + ENTRY_SIZE * i;
    var here := img[at..at + ENTRY_SIZE];
    forall j | 0 <= j < ENTRY_SIZE ensures here[j] == t[ENTRY_SIZE * i..ENTRY_SIZE * i + ENTRY_SIZE][j] {
      assert here[j] == img[at + j] && img[HEADER_SIZE..HEADER_SIZE + |t|][ENTRY_SIZE * i + j] == img[at + j];
    }
  }

  lemma EntryFields(img: seq<byte>, i: nat, k: Key, offset: nat, size: nat)
    requires var at := HEADER_SIZE + ENTRY_SIZE * i;
      at + ENTRY_SIZE <= |img| && img[at..at + ENTRY_SIZE] == Record(k, offset, size)
    requires Fits(k) && offset < TWO32 && size < TWO32
    ensures ReadEntry(img, i) == Entry(k, offset, size)
  {
    RecordReadsBack(img, HEADER_SIZE + ENTRY_SIZE * i, k, offset, size);
  }

  lemma EntryReadsBack<M>(img: seq<byte>, keys: seq<Key>, ms: seq<M>, stored: M -> seq<byte>, page: nat, i: nat)
    requires IsImage(img, keys, ms, stored, page) && |img| < TWO32 && i < |ms| && Fits(keys[i])
    ensures HEADER_SIZE + ENTRY_SIZE * i + ENTRY_SIZE <= |img|
    ensures var e := ReadEntry(img, i);
      && e == Entry(keys[i], OffsetOf(Firsts(ms), stored, Start(|ms|, page), ms[i]), |stored(ms[i])|)
      && e.offset + e.size <= |img|
  {
    var order, start := Firsts(ms), Start(|ms|, page);
    TableHolds(keys, ms, order, stored, start, i);
    RecordInTable(img, Table(keys, ms, order, stored, start), i);
    BlobsHold(order, stored, IndexOf(order, ms[i]));
    EntryFields(img, i, keys[i], OffsetOf(order, stored, start, ms[i]), |stored(ms[i])|);
  }

  /** The bytes that `order[k]` is stored as lie where the layout says. */
  lemma BlobReadsBack<M>(img: seq<byte>, keys: seq<Key>, ms: seq<M>, stored: M -> seq<byte>, page: nat, k: nat)
    requires IsImage(img, keys, ms, stored, page) && k < |Firsts(ms)|
    ensures var m, at := Firsts(ms)[k], OffsetAt(Firsts(ms), stored, Start(|ms|, page), k);
      at + |stored(m)| <= |img| && img[at..at + |stored(m)|] == stored(m)
  {
    var order, start := Firsts(ms), Start(|ms|, page);
    BlobsHold(order, stored, k);
    PartOfTail(img, start, |Blobs(order[..k], stored)|, |stored(order[k])|);
  }

  lemma PartOfTail(img: seq<byte>, start: nat, at: nat, len: nat)
    requires start + at + len <= |img|
    ensures img[start + at..start + at + len] == img[start..][at..at + len]
  {
  }

  lemma CountReadsBack<M>(img: seq<byte>, keys: seq<Key>, ms: seq<M>, stored: M -> seq<byte>, page: nat)
    requires IsImage(img, keys, ms, stored, page) && |img| < TWO32
    ensures |img| >= HEADER_SIZE && ReadCount(img) == |keys|
  {
    TableSize(keys, ms, Firsts(ms), stored, Start(|ms|, page));
    HeaderCount(img, |keys|);
  }

  lemma HeaderCount(img: seq<byte>, count: nat)
    requires |img| >= HEADER_SIZE && img[..HEADER_SIZE] == Header(count) && count < TWO32
    ensures ReadCount(img) == count
  {
    var mark: seq<byte> := [0x51, 0x43, 0x44, 0x54];
    assert (mark + Le32(QCDT_VERSION) + Le32(count))[8..12] == Le32(count);
    assert img[8..12] == img[..HEADER_SIZE][8..12];
    ReadBackLe32(img, 8, count);
  }

  /** The image says what it is: the mark, and the version of the format. */
  predicate IsMarked(img: seq<byte>)
  {
    |img| >= HEADER_SIZE && (forall i :: 0 <= i < 4 ==> img[i] == "QCDT"[i] as int) && ReadLe32(img, 4) == 2
  }

  lemma MarkReadsBack<M>(img: seq<byte>, keys: seq<Key>, ms: seq<M>, stored: M -> seq<byte>, page: nat)
    requires IsImage(img, keys, ms, stored, page)
    ensures IsMarked(img)
    ensures forall j :: HEADER_SIZE + ENTRY_SIZE * |ms| <= j < Start(|ms|, page) ==> img[j] == 0
  {
    TableSize(keys, ms, Firsts(ms), stored, Start(|ms|, page));
    var h := Header(|ms|);
    assert h[4..8] == Le32(QCDT_VERSION);
    forall i | 0 <= i < HEADER_SIZE ensures img[i] == h[i] {
      assert img[i] == img[..HEADER_SIZE][i];
    }
    assert img[4..8] == h[4..8];
    ReadBackLe32(img, 4, QCDT_VERSION);
  }

  /** The packed image reads back: the count and every entry's chip, and at the
      entry's offset and size exactly its master's stored bytes. */
  lemma ImageReadsBack<M>(keys: seq<Key>, ms: seq<M>, stored: M -> seq<byte>, page: nat, i: nat)
    requires |keys| == |ms| && page > 0 && i < |ms| && Fits(keys[i])
    requires |Image(keys, ms, stored, page)| < TWO32
    ensures var img := Image(keys, ms, stored, page);
      && HEADER_SIZE + ENTRY_SIZE * i + ENTRY_SIZE <= |img|
      && ReadCount(img) == |keys|
      && var e := ReadEntry(img, i);
         && e.key == keys[i] && e.offset + e.size <= |img|
         && img[e.offset..e.offset + e.size] == stored(ms[i])
  {
    var img := Image(keys, ms, stored, page);
    ImageIsImage(keys, ms, stored, page);
    CountReadsBack(img, keys, ms, stored, page);
    EntryReadsBack(img, keys, ms, stored, page, i);
    BlobReadsBack(img, keys, ms, stored, page, IndexOf(Firsts(ms), ms[i]));
  }

  /** Blobs start on pages, past the index; entries with the same master share
      one blob; those of different masters do not overlap. */
  lemma BlobsAreAlignedAndDisjoint<M>(keys: seq<Key>, ms: seq<M>, stored: M -> seq<byte>, page: nat, i: nat, j: nat)
    requires |keys| == |ms| && page > 0 && i < |ms| && j < |ms| && Fits(keys[i]) && Fits(keys[j])
    requires |Image(keys, ms, stored, page)| < TWO32
    requires forall m :: m in ms ==> |stored(m)| % page == 0
    ensures var img := Image(keys, ms, stored, page);
      && HEADER_SIZE + ENTRY_SIZE * i + ENTRY_SIZE <= |img| && HEADER_SIZE + ENTRY_SIZE * j + ENTRY_SIZE <= |img|
      && var e, f := ReadEntry(img, i), ReadEntry(img, j);
         && e.offset % page == 0 && e.offset >= IndexSize(|ms|) > 0
         && (ms[i] == ms[j] ==> e.offset == f.offset && e.size == f.size)
         && (ms[i] != ms[j] ==> e.offset + e.size <= f.offset || f.offset + f.size <= e.offset)
  {
    var img, order := Image(keys, ms, stored, page), Firsts(ms);
    ImageIsImage(keys, ms, stored, page);
    EntryReadsBack(img, keys, ms, stored, page, i);
    EntryReadsBack(img, keys, ms, stored, page, j);
    FirstsAre(ms);
    OffsetsAreAligned(order, stored, page, |ms|, IndexOf(order, ms[i]));
    OffsetsAreDisjoint(order, stored, Start(|ms|, page), IndexOf(order, ms[i]), IndexOf(order, ms[j]));
  }

  lemma OffsetsAreAligned<M>(order: seq<M>, stored: M -> seq<byte>, page: nat, count: nat, k: nat)
    requires page > 0 && k < |order| && forall m :: m in order ==> |stored(m)| % page == 0
    ensures OffsetAt(order, stored, Start(count, page), k) % page == 0
  {
    PaddedEndsOnPage(IndexSize(count), page);
    BlobsOnPage(order[..k], stored, page);
    SumOnPage(Start(count, page), |Blobs(order[..k], stored)|, page);
  }

  lemma OffsetsAreDisjoint<M>(order: seq<M>, stored: M -> seq<byte>, start: nat, a: nat, b: nat)
    requires a < |order| && b < |order|
    ensures a < b ==> OffsetAt(order, stored, start, a) + |stored(order[a])| <= OffsetAt(order, stored, start, b)
    ensures b < a ==> OffsetAt(order, stored, start, b) + |stored(order[b])| <= OffsetAt(order, stored, start, a)
  {
    if a < b {
      BlobsNest(order, stored, a, b);
    } else if b < a {
      BlobsNest(order, stored, b, a);
    }
  }
}
