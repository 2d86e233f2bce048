/** The tool as a whole, from its input files to what a reader finds in the
    image. */
module DtbServes {
  import opened Wrappers
  import opened DtbImage
  import opened DtbTools
  import opened DtbPackers
  import opened DtbScans

  // ----- what the scan leaves -----

  lemma {:induction false} DistinctCount(s: seq<Key>, ks: set<Key>)
    requires Distinct(s) && forall k :: k in s <==> k in ks
    ensures |s| == |ks|
  {
    if s != [] {
      var n := |s| - 1;
      forall k ensures k in s[..n] <==> k in ks - {s[n]} {
        assert s == s[..n] + [s[n]];
      }
      DistinctCount(s[..n], ks - {s[n]});
    }
  }

  lemma KeysAreDistinct(p: DtbPacker)
    requires p.Counted()
    ensures Distinct(p.Keys())
  {
    forall i, j | 0 <= i < j < |p.Keys()| ensures p.Keys()[i] != p.Keys()[j] {
      assert Less(p.list.nodes[i].key, p.list.nodes[j].key);
    }
  }

  lemma KeysAreListed(p: DtbPacker, l: Listing, k: Key)
    requires p.Counted() && Holds(p.list.Repr, l)
    ensures k in p.Keys() <==> k in l
  {
    p.list.ReprIsListed();
    if k in l {
      assert Has(p.list.Repr, k);
      var n :| n in p.list.Repr && n.key == k;
      var i :| 0 <= i < |p.list.nodes| && p.list.nodes[i] == n;
      assert p.Keys()[i] == k;
    }
    if k in p.Keys() {
      var i :| 0 <= i < |p.list.nodes| && p.Keys()[i] == k;
      assert p.list.nodes[i] in p.list.Repr;
    }
  }

  lemma CountIs(p: DtbPacker, l: Listing)
    requires p.Counted() && Holds(p.list.Repr, l)
    ensures |p.list.nodes| == |l|
  {
    KeysAreDistinct(p);
    forall k ensures k in p.Keys() <==> k in l.Keys {
      KeysAreListed(p, l, k);
    }
    DistinctCount(p.Keys(), l.Keys);
  }

  /** Every file that a listed chip is served from can be read with the size it was
      scanned with, padded. */
  predicate Readable(l: Listing, disk: Disk, page: PageSize) {
    forall k :: k in l ==> ReadsAs(Some(l[k].path), l[k].size, disk, page)
  }

  /** The scan leaves every listed chip a file of the directory, with its size
      rounded up to the end of a page that it does not fill. */
  lemma {:induction false} ListedFromFiles(files: seq<DtbFile>, page: PageSize, k: Key)
    requires k in Listed(files, page)
    ensures exists i :: 0 <= i < |files| && IsPaddedFile(files[i], Listed(files, page)[k], page)
  {
    var n := |files| - 1;
    if k in Listed(files[..n], page) {
      ListedFromFiles(files[..n], page, k);
      StaysServed(files, page, k);
      var i :| 0 <= i < n && IsPaddedFile(files[..n][i], Listed(files[..n], page)[k], page);
      assert IsPaddedFile(files[i], Listed(files, page)[k], page);
    } else {
      LastOffer(files, page, k);
      LastServes(files, page, k);
      PaddedEndsOnPage(files[n].size, page);
      assert IsPaddedFile(files[n], Listed(files, page)[k], page);
    }
  }

  predicate IsPaddedFile(f: DtbFile, source: Source, page: PageSize) {
    source.path == f.path && f.size > 0 && source.size % page == 0 && f.size < source.size <= f.size + page
  }

  /** As long as the files are as they were scanned, all can be read. */
  lemma {:induction false} UnchangedFilesRead(files: seq<DtbFile>, page: PageSize, disk: Disk)
    requires forall i :: 0 <= i < |files| ==> files[i].path in disk && |disk[files[i].path]| == files[i].size
    ensures Readable(Listed(files, page), disk, page)
  {
    var l := Listed(files, page);
    forall k | k in l ensures ReadsAs(Some(l[k].path), l[k].size, disk, page) {
      ListedFromFiles(files, page, k);
      var i :| 0 <= i < |files| && IsPaddedFile(files[i], l[k], page);
      OnePaddedSize(files[i].size, l[k].size, page);
    }
  }

  lemma OnePaddedSize(size: nat, padded: nat, page: PageSize)
    requires padded % page == 0 && size < padded <= size + page
    ensures padded == size + PaddingFor(size, page)
  {
    PaddedEndsOnPage(size, page);
    var a, b := padded / page, (size + PaddingFor(size, page)) / page;
    assert page * a == padded && page * b == size + PaddingFor(size, page);
    MulBound(page, a - b);
    assert page * a - page * b == page * (a - b);
  }

  lemma UnchangedIs(p: DtbPacker, l: Listing, disk: Disk)
    requires p.Valid() && Holds(p.list.Repr, l)
    ensures p.Unchanged(disk) <==> Readable(l, disk, p.page)
  {
    p.list.ReprIsListed();
    if p.Unchanged(disk) {
      forall k | k in l ensures ReadsAs(Some(l[k].path), l[k].size, disk, p.page) {
        assert Has(p.list.Repr, k);
        var n :| n in p.list.Repr && n.key == k;
        var i :| 0 <= i < |p.list.nodes| && p.list.nodes[i] == n;
        assert p.Masters()[i] == n.master;
      }
    }
    if Readable(l, disk, p.page) {
      forall m | m in p.list.Repr && m in p.Masters() ensures ReadsAs(m.dtbFile, m.dtbSize, disk, p.page) {
        var i :| 0 <= i < |p.list.nodes| && p.Masters()[i] == m;
        assert p.list.nodes[i] in p.list.Repr;
      }
    }
  }

  lemma {:induction false} SumWithout(taken: seq<Source>, j: nat)
    requires j < |taken|
    ensures Sum(taken) == Sum(taken[..j] + taken[j + 1..]) + taken[j].size
  {
    var n := |taken| - 1;
    var without := taken[..j] + taken[j + 1..];
    if j < n {
      SumWithout(taken[..n], j);
      assert without[..n - 1] == taken[..n][..j] + taken[..n][j + 1..] && without[n - 1] == taken[n];
    } else {
      assert without == taken[..n];
    }
  }

  /** Different heads' blobs take no more than all heads' together. */
  lemma {:induction false} BlobsFit(order: seq<ChipInfo>, stored: ChipInfo -> seq<byte>,
                                    heads: seq<ChipInfo>, taken: seq<Source>)
    requires Distinct(order) && forall m :: m in order ==> m in heads
    requires |heads| == |taken| && forall i :: 0 <= i < |heads| ==> |stored(heads[i])| == taken[i].size
    ensures |Blobs(order, stored)| <= Sum(taken)
    decreases |order|
  {
    if order != [] {
      var n := |order| - 1;
      assert order[n] in order;
      var j :| 0 <= j < |heads| && heads[j] == order[n];
      var without, rest := heads[..j] + heads[j + 1..], taken[..j] + taken[j + 1..];
      SumWithout(taken, j);
      forall m | m in order[..n] ensures m in without {
        assert m in order;
        var i :| 0 <= i < |heads| && heads[i] == m;
        assert without[if i < j then i else i - 1] == m;
      }
      BlobsFit(order[..n], stored, without, rest);
    }
  }

  lemma MastersAreHeads(p: DtbPacker, heads: seq<ChipInfo>, taken: seq<Source>)
    requires p.Counted() && Heads(p.list.Repr, heads, taken)
    ensures forall m :: m in p.Masters() ==> m in heads
  {
    forall i | 0 <= i < |p.list.nodes| ensures p.Masters()[i] in heads {
      assert p.list.nodes[i] in p.list.Repr;
    }
  }

  /** The image takes no more than what was promised. */
  lemma TotalIs(p: DtbPacker, heads: seq<ChipInfo>, taken: seq<Source>, disk: Disk)
    requires p.Valid() && Heads(p.list.Repr, heads, taken)
    ensures p.Total(disk) <= Start(|p.list.nodes|, p.page) + Sum(taken)
  {
    p.PassesStart(disk);
    MastersAreHeads(p, heads, taken);
    HeadsAreStored(p, heads, taken, disk);
    FirstsFit(p.Masters(), StoredIn(p.Files(disk)), heads, taken);
  }

  lemma HeadsAreStored(p: DtbPacker, heads: seq<ChipInfo>, taken: seq<Source>, disk: Disk)
    requires p.Valid() && Heads(p.list.Repr, heads, taken) && p.Scanned(StoredIn(p.Files(disk)))
    ensures forall i :: 0 <= i < |heads| ==> |StoredIn(p.Files(disk))(heads[i])| == taken[i].size
  {
    forall i | 0 <= i < |heads| ensures |StoredIn(p.Files(disk))(heads[i])| == taken[i].size {
      assert IsFrom(p.list.Repr, heads[i], taken[i]);
    }
  }

  lemma FirstsFit(ms: seq<ChipInfo>, stored: ChipInfo -> seq<byte>, heads: seq<ChipInfo>, taken: seq<Source>)
    requires (forall m :: m in ms ==> m in heads)
    requires |heads| == |taken| && forall i :: 0 <= i < |heads| ==> |stored(heads[i])| == taken[i].size
    ensures |Blobs(Firsts(ms), stored)| <= Sum(taken)
  {
    FirstsAre(ms);
    var order := Firsts(ms);
    assert Distinct(order);
    forall i | 0 <= i < |order| ensures order[i] in heads {
      assert order[i] in order;
      assert order[i] in ms;
    }
    BlobsFit(order, stored, heads, taken);
  }

  // ----- which chips share a region -----

  /** No two input files are one: a directory does not name a file twice. */
  ghost predicate PathsDiffer(files: seq<DtbFile>) {
    forall i, j :: 0 <= i < j < |files| ==> files[i].path != files[j].path
  }

  lemma {:induction false} TakenIsOfAFile(files: seq<DtbFile>, page: PageSize, k: nat)
    requires k < |Taken(files, page)|
    ensures exists i :: 0 <= i < |files| && files[i].path == Taken(files, page)[k].path
  {
    var n := |files| - 1;
    if k < |Taken(files[..n], page)| {
      TakenIsOfAFile(files[..n], page, k);
      var i :| 0 <= i < n && files[..n][i].path == Taken(files[..n], page)[k].path;
      assert files[i].path == Taken(files, page)[k].path;
    } else {
      assert files[n].path == Taken(files, page)[k].path;
    }
  }

  lemma {:induction false} TakenDiffer(files: seq<DtbFile>, page: PageSize, a: nat, b: nat)
    requires PathsDiffer(files) && a < b < |Taken(files, page)|
    ensures Taken(files, page)[a].path != Taken(files, page)[b].path
  {
    var n := |files| - 1;
    var before := Taken(files[..n], page);
    if b < |before| {
      TakenDiffer(files[..n], page, a, b);
    } else {
      TakenIsOfAFile(files[..n], page, a);
      var i :| 0 <= i < n && files[..n][i].path == before[a].path;
      assert files[i].path != files[n].path;
    }
  }

  /** Chips that are served from one file have one master. */
  lemma OneMasterEach(r: set<ChipInfo>, heads: seq<ChipInfo>, files: seq<DtbFile>, page: PageSize, a: ChipInfo, b: ChipInfo)
    requires PathsDiffer(files) && Heads(r, heads, Taken(files, page))
    requires a in r && b in r && a.master.dtbFile == b.master.dtbFile
    ensures a.master == b.master
  {
    var taken := Taken(files, page);
    var i :| 0 <= i < |heads| && heads[i] == a.master;
    var j :| 0 <= j < |heads| && heads[j] == b.master;
    assert IsFrom(r, heads[i], taken[i]) && IsFrom(r, heads[j], taken[j]);
    if i < j {
      TakenDiffer(files, page, i, j);
    } else if j < i {
      TakenDiffer(files, page, j, i);
    }
  }

  /** What a reader finds in the image: as many entries as chips are listed, in
      order, one for each, and at each entry's offset and size the file that its
      chip is served from, with zeros up to a page end.  It begins with its mark, and
      nothing but zeros is between the entries and the regions.  These start on
      pages past the index, and those of different files do not overlap. */
  ghost predicate Serves(img: seq<byte>, l: Listing, disk: Disk, page: PageSize) {
    && HEADER_SIZE + ENTRY_SIZE * |l| <= |img| && IsMarked(img) && ReadCount(img) == |l|
    && (forall j :: HEADER_SIZE + ENTRY_SIZE * |l| <= j < Start(|l|, page) && j < |img| ==> img[j] == 0)
    && (forall i: nat :: i < |l| ==> ServesEntry(img, i, l, disk, page))
    && (forall i: nat, j: nat :: i < j < |l| ==> Less(EntryAt(img, i).key, EntryAt(img, j).key))
    && (forall k :: k in l ==> exists i: nat :: i < |l| && EntryAt(img, i).key == k)
    && (forall i: nat :: i < |l| ==> OnPage(EntryAt(img, i), |l|, page))
    && (forall i: nat, j: nat :: i < |l| && j < |l| ==> KeptApart(EntryAt(img, i), EntryAt(img, j), l))
  }

  predicate OnPage(e: Entry, count: nat, page: PageSize) {
    e.offset % page == 0 && e.offset >= IndexSize(count)
  }

  predicate SameRegion(e: Entry, f: Entry) {
    e.offset == f.offset && e.size == f.size
  }

  predicate Apart(e: Entry, f: Entry) {
    e.offset + e.size <= f.offset || f.offset + f.size <= e.offset
  }

  ghost predicate KeptApart(e: Entry, f: Entry, l: Listing) {
    && (SameRegion(e, f) || Apart(e, f))
    && e.key in l && f.key in l && (l[e.key].path != l[f.key].path ==> Apart(e, f))
  }

  /** No file is stored twice. */
  ghost predicate StoredOnce(img: seq<byte>, l: Listing) {
    forall i: nat, j: nat :: i < |l| && j < |l| ==> SharedByFile(EntryAt(img, i), EntryAt(img, j), l)
  }

  ghost predicate SharedByFile(e: Entry, f: Entry, l: Listing) {
    e.key in l && f.key in l && (l[e.key].path == l[f.key].path ==> SameRegion(e, f))
  }

  function EntryAt(img: seq<byte>, i: nat): Entry {
    if HEADER_SIZE + ENTRY_SIZE * i + ENTRY_SIZE <= |img| then ReadEntry(img, i) else Entry(Key(0, 0, 0, 0), 0, 0)
  }

  ghost predicate ServesEntry(img: seq<byte>, i: nat, l: Listing, disk: Disk, page: PageSize) {
    var e := EntryAt(img, i);
    && HEADER_SIZE + ENTRY_SIZE * i + ENTRY_SIZE <= |img|
    && e.key in l && l[e.key].path in disk && e.offset + e.size <= |img|
    && img[e.offset..e.offset + e.size] == Padded(disk[l[e.key].path], page)
  }

  ghost function ImageOf(p: DtbPacker, disk: Disk): seq<byte>
    requires p.Valid()
    reads p, p.list, p.list.Repr
  {
    Image(p.Keys(), p.Masters(), StoredIn(p.Files(disk)), p.page)
  }

  lemma ImageSize(p: DtbPacker, disk: Disk)
    requires p.Valid()
    ensures |ImageOf(p, disk)| == p.Total(disk)
  {
    ImageIsImage(p.Keys(), p.Masters(), StoredIn(p.Files(disk)), p.page);
  }

  lemma EntryIsServed(p: DtbPacker, l: Listing, disk: Disk, i: nat)
    requires p.Valid() && Holds(p.list.Repr, l) && p.Unchanged(disk) && p.Total(disk) < TWO32
    requires i < |p.list.nodes| && Fits(p.list.nodes[i].key)
    ensures var img := ImageOf(p, disk);
      && ServesEntry(img, i, l, disk, p.page) && EntryAt(img, i).key == p.list.nodes[i].key
      && ReadCount(img) == |p.list.nodes|
  {
    var n, img := p.list.nodes[i], ImageOf(p, disk);
    ImageSize(p, disk);
    p.ImageServesEveryChip(disk, img, i);
    NodeHasSource(p, l, i);
    EntryIs(img, i, n.key, n.master.dtbFile, l, disk, p.page);
  }

  lemma NodeHasSource(p: DtbPacker, l: Listing, i: nat)
    requires p.Counted() && Holds(p.list.Repr, l) && i < |p.list.nodes|
    ensures var n := p.list.nodes[i]; n.key in l && n.master.dtbFile == Some(l[n.key].path)
  {
    assert p.list.nodes[i] in p.list.Repr;
  }

  lemma EntryIs(img: seq<byte>, i: nat, k: Key, file: Option<Path>, l: Listing, disk: Disk, page: PageSize)
    requires HEADER_SIZE + ENTRY_SIZE * i + ENTRY_SIZE <= |img|
    requires k in l && file == Some(l[k].path) && file.value in disk
    requires var e := ReadEntry(img, i);
      e.key == k && e.offset + e.size <= |img| && img[e.offset..e.offset + e.size] == Padded(disk[file.value], page)
    ensures ServesEntry(img, i, l, disk, page) && EntryAt(img, i).key == k
  {
  }

  /** The entries have the listed chips' keys, in the order of the list. */
  lemma EntriesCover(p: DtbPacker, l: Listing, img: seq<byte>)
    requires p.Counted() && Holds(p.list.Repr, l)
    requires forall i: nat :: i < |p.list.nodes| ==> EntryAt(img, i).key == p.list.nodes[i].key
    ensures forall i: nat, j: nat :: i < j < |p.list.nodes| ==> Less(EntryAt(img, i).key, EntryAt(img, j).key)
    ensures forall k :: k in l ==> exists i: nat :: i < |p.list.nodes| && EntryAt(img, i).key == k
  {
    forall k | k in l ensures exists i: nat :: i < |p.list.nodes| && EntryAt(img, i).key == k {
      KeysAreListed(p, l, k);
      var i :| 0 <= i < |p.list.nodes| && p.Keys()[i] == k;
      assert EntryAt(img, i).key == k;
    }
  }

  /** Where two entries' regions lie, by the masters of their chips. */
  lemma EntriesLie(p: DtbPacker, disk: Disk, i: nat, j: nat)
    requires p.Valid() && p.Unchanged(disk) && p.Total(disk) < TWO32
    requires i < |p.list.nodes| && j < |p.list.nodes| && Fits(p.list.nodes[i].key) && Fits(p.list.nodes[j].key)
    ensures var e, f := EntryAt(ImageOf(p, disk), i), EntryAt(ImageOf(p, disk), j);
      && OnPage(e, |p.list.nodes|, p.page)
      && (if p.list.nodes[i].master == p.list.nodes[j].master then SameRegion(e, f) else Apart(e, f))
  {
    ImageSize(p, disk);
    MastersArePadded(p, disk);
    BlobsAreAlignedAndDisjoint(p.Keys(), p.Masters(), StoredIn(p.Files(disk)), p.page, i, j);
  }

  lemma MastersArePadded(p: DtbPacker, disk: Disk)
    requires p.Valid()
    ensures forall m :: m in p.Masters() ==> |StoredIn(p.Files(disk))(m)| % p.page == 0
  {
    p.PassesStart(disk);
    forall m | m in p.Masters() ensures |StoredIn(p.Files(disk))(m)| % p.page == 0 {
      var i :| 0 <= i < |p.list.nodes| && p.Masters()[i] == m;
      p.NodeAt(i);
    }
  }

  /** A valid packer that holds `l`, whose files still read, with room for it all. */
  ghost predicate Packs(p: DtbPacker, l: Listing, disk: Disk)
    reads p, p.list, p.list.Repr
  {
    && p.Valid() && Holds(p.list.Repr, l) && p.Unchanged(disk) && p.Total(disk) < TWO32
    && (forall k :: k in l ==> Fits(k)) && |p.list.nodes| == |l| != 0
  }

  lemma EntryFits(p: DtbPacker, l: Listing, disk: Disk, i: nat)
    requires Packs(p, l, disk) && i < |l|
    ensures var n := p.list.nodes[i]; n in p.list.Repr && n.key in l && Fits(n.key)
    ensures EntryAt(ImageOf(p, disk), i).key == p.list.nodes[i].key
    ensures ServesEntry(ImageOf(p, disk), i, l, disk, p.page)
    ensures ReadCount(ImageOf(p, disk)) == |l|
    ensures p.list.nodes[i].master.dtbFile == Some(l[p.list.nodes[i].key].path)
  {
    p.NodeAt(i);
    EntryIsServed(p, l, disk, i);
  }

  lemma EntriesKeepApart(p: DtbPacker, l: Listing, disk: Disk, i: nat, j: nat)
    requires Packs(p, l, disk) && i < |l| && j < |l|
    ensures var e, f := EntryAt(ImageOf(p, disk), i), EntryAt(ImageOf(p, disk), j);
      OnPage(e, |l|, p.page) && KeptApart(e, f, l)
  {
    EntryFits(p, l, disk, i);
    EntryFits(p, l, disk, j);
    EntriesLie(p, disk, i, j);
  }

  lemma EachIsServed(p: DtbPacker, l: Listing, disk: Disk)
    requires Packs(p, l, disk)
    ensures var img := ImageOf(p, disk);
      && (forall i: nat :: i < |l| ==> EntryAt(img, i).key == p.list.nodes[i].key)
      && (forall i: nat :: i < |l| ==> ServesEntry(img, i, l, disk, p.page))
      && HEADER_SIZE + ENTRY_SIZE * |l| <= |img| && ReadCount(img) == |l|
  {
    var img := ImageOf(p, disk);
    forall i: nat | i < |l|
      ensures EntryAt(img, i).key == p.list.nodes[i].key && ServesEntry(img, i, l, disk, p.page)
    {
      EntryFits(p, l, disk, i);
    }
    EntryFits(p, l, disk, |l| - 1);
    assert ServesEntry(img, |l| - 1, l, disk, p.page);
  }

  lemma EachIsApart(p: DtbPacker, l: Listing, disk: Disk)
    requires Packs(p, l, disk)
    ensures var img := ImageOf(p, disk);
      && (forall i: nat :: i < |l| ==> OnPage(EntryAt(img, i), |l|, p.page))
      && (forall i: nat, j: nat :: i < |l| && j < |l| ==> KeptApart(EntryAt(img, i), EntryAt(img, j), l))
  {
    var img := ImageOf(p, disk);
    forall i: nat, j: nat | i < |l| && j < |l|
      ensures OnPage(EntryAt(img, i), |l|, p.page) && KeptApart(EntryAt(img, i), EntryAt(img, j), l)
    {
      EntriesKeepApart(p, l, disk, i, j);
    }
  }

  lemma ListingIsServed(p: DtbPacker, l: Listing, disk: Disk)
    requires Packs(p, l, disk)
    ensures Serves(ImageOf(p, disk), l, disk, p.page)
  {
    var img := ImageOf(p, disk);
    ImageIsImage(p.Keys(), p.Masters(), StoredIn(p.Files(disk)), p.page);
    MarkReadsBack(img, p.Keys(), p.Masters(), StoredIn(p.Files(disk)), p.page);
    EachIsServed(p, l, disk);
    EachIsApart(p, l, disk);
    EntriesCover(p, l, img);
  }

  lemma FilesAreStoredOnce(p: DtbPacker, files: seq<DtbFile>, heads: seq<ChipInfo>, disk: Disk)
    requires PathsDiffer(files) && Heads(p.list.Repr, heads, Taken(files, p.page))
    requires Packs(p, Listed(files, p.page), disk)
    ensures StoredOnce(ImageOf(p, disk), Listed(files, p.page))
  {
    var l, img := Listed(files, p.page), ImageOf(p, disk);
    forall i: nat, j: nat | i < |l| && j < |l| ensures SharedByFile(EntryAt(img, i), EntryAt(img, j), l) {
      var a, b := p.list.nodes[i], p.list.nodes[j];
      EntryFits(p, l, disk, i);
      EntryFits(p, l, disk, j);
      EntriesLie(p, disk, i, j);
      if l[a.key].path == l[b.key].path {
        OneMasterEach(p.list.Repr, heads, files, p.page, a, b);
      }
    }
  }

  /** What the scan leaves is enough for both passes and the reader. */
  lemma PackedIsServed(p: DtbPacker, l: Listing, heads: seq<ChipInfo>, taken: seq<Source>, disk: Disk)
    requires p.Valid() && Holds(p.list.Repr, l) && Heads(p.list.Repr, heads, taken)
    requires (forall k :: k in l ==> Fits(k)) && Start(|l|, p.page) + Sum(taken) < TWO32
    ensures p.Total(disk) < TWO32 && |p.list.nodes| == |l| && (p.Unchanged(disk) <==> Readable(l, disk, p.page))
    ensures p.list.nodes != [] && p.Unchanged(disk) ==> Packs(p, l, disk)
  {
    CountIs(p, l);
    TotalIs(p, heads, taken, disk);
    UnchangedIs(p, l, disk);
  }

  /** The tool, from its input files to the image.  An image comes out exactly if
      some file counts and every file that is needed still reads with its size; a
      reader then finds every chip that the files that count name; and if no file
      comes twice in the directory, none is stored twice. */
  method PackDtbs(files: seq<DtbFile>, page: PageSize, disk: Disk) returns (image: Option<seq<byte>>)
    requires forall k :: k in Listed(files, page) ==> Fits(k)
    requires Start(|Listed(files, page)|, page) + Sum(Taken(files, page)) < TWO32
    ensures image.Some? <==> Listed(files, page) != map[] && Readable(Listed(files, page), disk, page)
    ensures image.Some? ==> Serves(image.value, Listed(files, page), disk, page)
    ensures image.Some? && PathsDiffer(files) ==> StoredOnce(image.value, Listed(files, page))
  {
    var p := new DtbPacker(page);
    ghost var heads := Scan(p, files);
    ghost var l := Listed(files, page);
    PackedIsServed(p, l, heads, Taken(files, page), disk);
    if p.list.nodes != [] && p.Unchanged(disk) {
      ListingIsServed(p, l, disk);
      if PathsDiffer(files) {
        FilesAreStoredOnce(p, files, heads, disk);
      }
    }
    image := p.WriteImage(disk);
  }
}
