/** The scan over the directory: which chips are listed, and from which file each
    is served. */
module DtbScans {
  import opened Wrappers
  import opened DtbImage
  import opened DtbTools
  import opened DtbPackers

  type Id = (nat, nat)

  /** The properties of a file once they are parsed: chips (chipset, platform,
      revision) in the older version, IDs and boards in the newer. */
  datatype Props =
    | V1(chips: seq<(nat, nat, nat)>)
    | V2(ids: seq<Id>, boards: seq<Id>)

  /** An input file, with the size that the scan is told. */
  datatype DtbFile = DtbFile(path: Path, props: Props, size: nat)

  // ----- what should be listed -----

  function Triples(chips: seq<(nat, nat, nat)>): (ks: seq<Key>)
    ensures |ks| == |chips|
  {
    seq(|chips|, i requires 0 <= i < |chips| => Key(chips[i].0, chips[i].1, 0, chips[i].2))
  }

  /** The chips that a file names, the master first. */
  function KeysOf(f: DtbFile): seq<Key> {
    match f.props
    case V1(chips) => HeadFirst(Triples(chips))
    case V2(ids, boards) => FileKeys(ids, boards)
  }

  /** The file names chip `k`: in the older version as a triple, without a subtype;
      in the newer by an ID and a board. */
  predicate Names(f: DtbFile, k: Key) {
    match f.props
    case V1(chips) => k.subtype == 0 && (k.chipset, k.platform, k.revNum) in chips
    case V2(ids, boards) => (k.chipset, k.revNum) in ids && (k.platform, k.subtype) in boards
  }

  function NumberNamed(f: DtbFile): nat {
    match f.props
    case V1(chips) => |chips|
    case V2(ids, boards) => |ids| * |boards|
  }

  predicate NamesAny(f: DtbFile) {
    match f.props
    case V1(chips) => chips != []
    case V2(ids, boards) => ids != [] && boards != []
  }

  /** The chip that stands for the file. */
  function FirstNamed(f: DtbFile): Key
    requires NamesAny(f)
  {
    match f.props
    case V1(chips) => Key(chips[0].0, chips[0].1, 0, chips[0].2)
    case V2(ids, boards) => Key(ids[0].0, boards[0].0, boards[0].1, ids[0].1)
  }

  /** The chips of a file are exactly those that it names, as many times. */
  lemma KeysAreNamed(f: DtbFile, k: Key)
    ensures k in KeysOf(f) <==> Names(f, k)
    ensures |KeysOf(f)| == NumberNamed(f)
    ensures KeysOf(f) != [] <==> NamesAny(f)
    ensures NamesAny(f) ==> KeysOf(f)[0] == FirstNamed(f)
  {
    match f.props
    case V1(chips) => TriplesAreNamed(chips, k);
    case V2(ids, boards) =>
      if NamesAny(f) {
        FileKeysAreTheProduct(ids, boards, k);
      } else {
        NoPairs(ids, boards, k);
      }
  }

  lemma TriplesAreNamed(chips: seq<(nat, nat, nat)>, k: Key)
    ensures var ks := HeadFirst(Triples(chips));
      && (k in ks <==> k.subtype == 0 && (k.chipset, k.platform, k.revNum) in chips)
      && |ks| == |chips|
      && (chips != [] ==> ks[0] == Key(chips[0].0, chips[0].1, 0, chips[0].2))
  {
    var ts := Triples(chips);
    HeadFirstKeepsAll(ts);
    assert k in multiset(HeadFirst(ts)) <==> k in multiset(ts);
    if k.subtype == 0 && (k.chipset, k.platform, k.revNum) in chips {
      var i :| 0 <= i < |chips| && chips[i] == (k.chipset, k.platform, k.revNum);
      assert ts[i] == k;
    }
  }

  lemma NoPairs(ids: seq<Id>, boards: seq<Id>, k: Key)
    requires ids == [] || boards == []
    ensures FileKeys(ids, boards) == []
  {
    var hi, hb := HeadFirst(ids), HeadFirst(boards);
    HeadFirstKeepsAll(ids);
    HeadFirstKeepsAll(boards);
    PairsAreAll(hi, hb, k);
    assert Pairs(hi, hb) == [];
  }

  /** Where a chip's bytes come from, and how many they are with their padding. */
  datatype Source = Source(path: Path, size: nat)

  function SourceOf(f: DtbFile, page: PageSize): Source {
    Source(f.path, f.size + PaddingFor(f.size, page))
  }

  type Listing = map<Key, Source>

  /** A file counts if it names chips, has content, and its first chip is new. */
  predicate Counts(l: Listing, f: DtbFile) {
    NamesAny(f) && f.size > 0 && FirstNamed(f) !in l
  }

  function Entered(l: Listing, f: DtbFile, page: PageSize): Listing {
    if Counts(l, f) then l + map k | k in KeysOf(f) && k !in l :: SourceOf(f, page) else l
  }

  function Listed(files: seq<DtbFile>, page: PageSize): Listing {
    if files == [] then map[]
    else Entered(Listed(files[..|files| - 1], page), files[|files| - 1], page)
  }

  /** What the files that count bring in, in their order. */
  function Taken(files: seq<DtbFile>, page: PageSize): seq<Source> {
    if files == [] then []
    else TakenWith(Taken(files[..|files| - 1], page), Listed(files[..|files| - 1], page), files[|files| - 1], page)
  }

  function TakenWith(taken: seq<Source>, l: Listing, f: DtbFile, page: PageSize): seq<Source> {
    taken + if Counts(l, f) then [SourceOf(f, page)] else []
  }

  function Sum(taken: seq<Source>): nat {
    if taken == [] then 0 else Sum(taken[..|taken| - 1]) + taken[|taken| - 1].size
  }

  /** File `i` names `k` and has content, and the chip that stands for it is not yet
      listed when its turn comes. */
  predicate Offers(files: seq<DtbFile>, page: PageSize, i: nat, k: Key)
    requires i < |files|
  {
    && NamesAny(files[i]) && Names(files[i], k) && files[i].size > 0
    && FirstNamed(files[i]) !in Listed(files[..i], page)
  }

  lemma OffersBefore(files: seq<DtbFile>, page: PageSize, i: nat, k: Key)
    requires i < |files| - 1
    ensures Offers(files[..|files| - 1], page, i, k) <==> Offers(files, page, i, k)
  {
    assert files[..|files| - 1][..i] == files[..i];
  }

  /** A chip is listed before the last file, or the last file offers it. */
  lemma LastOffer(files: seq<DtbFile>, page: PageSize, k: Key)
    requires files != []
    ensures var n := |files| - 1;
      k in Listed(files, page) <==> k in Listed(files[..n], page) || Offers(files, page, n, k)
  {
    var n := |files| - 1;
    EnteredLists(Listed(files[..n], page), files[n], page, k);
  }

  lemma EnteredLists(l: Listing, f: DtbFile, page: PageSize, k: Key)
    ensures k in Entered(l, f, page) <==> k in l || (Counts(l, f) && Names(f, k))
  {
    KeysAreNamed(f, k);
  }

  /** What is listed: exactly the chips that some file that counts names. */
  lemma {:induction false} ListedMeans(files: seq<DtbFile>, page: PageSize, k: Key)
    ensures k in Listed(files, page) <==> Offered(files, page, k)
  {
    if files != [] {
      var n := |files| - 1;
      ListedMeans(files[..n], page, k);
      LastOffer(files, page, k);
      OffersSplit(files, page, k);
    }
  }

  ghost predicate Offered(files: seq<DtbFile>, page: PageSize, k: Key) {
    exists i: nat :: i < |files| && Offers(files, page, i, k)
  }

  lemma OfferedStays(files: seq<DtbFile>, page: PageSize, k: Key)
    requires files != [] && Offered(files[..|files| - 1], page, k)
    ensures Offered(files, page, k)
  {
    var before := files[..|files| - 1];
    var i: nat :| i < |before| && Offers(before, page, i, k);
    OffersBefore(files, page, i, k);
  }

  lemma OfferedEarlier(files: seq<DtbFile>, page: PageSize, k: Key)
    requires files != [] && Offered(files, page, k) && !Offers(files, page, |files| - 1, k)
    ensures Offered(files[..|files| - 1], page, k)
  {
    var i: nat :| i < |files| && Offers(files, page, i, k);
    OffersBefore(files, page, i, k);
  }

  lemma OffersSplit(files: seq<DtbFile>, page: PageSize, k: Key)
    requires files != []
    ensures Offered(files, page, k) <==>
      Offered(files[..|files| - 1], page, k) || Offers(files, page, |files| - 1, k)
  {
    if Offered(files[..|files| - 1], page, k) {
      OfferedStays(files, page, k);
    } else if Offered(files, page, k) && !Offers(files, page, |files| - 1, k) {
      OfferedEarlier(files, page, k);
    }
  }

  lemma EnteredServes(l: Listing, f: DtbFile, page: PageSize, k: Key)
    ensures k in l ==> k in Entered(l, f, page) && Entered(l, f, page)[k] == l[k]
    ensures k !in l && Counts(l, f) && Names(f, k) ==>
      k in Entered(l, f, page) && Entered(l, f, page)[k] == SourceOf(f, page)
  {
    KeysAreNamed(f, k);
  }

  lemma StaysServed(files: seq<DtbFile>, page: PageSize, k: Key)
    requires files != [] && k in Listed(files[..|files| - 1], page)
    ensures k in Listed(files, page) && Listed(files, page)[k] == Listed(files[..|files| - 1], page)[k]
  {
    EnteredServes(Listed(files[..|files| - 1], page), files[|files| - 1], page, k);
  }

  lemma LastServes(files: seq<DtbFile>, page: PageSize, k: Key)
    requires files != [] && k !in Listed(files[..|files| - 1], page) && Offers(files, page, |files| - 1, k)
    ensures k in Listed(files, page) && Listed(files, page)[k] == SourceOf(files[|files| - 1], page)
  {
    EnteredServes(Listed(files[..|files| - 1], page), files[|files| - 1], page, k);
  }

  /** And each is served from the first such file. */
  lemma {:induction false} FirstOfferIsServed(files: seq<DtbFile>, page: PageSize, i: nat, k: Key)
    requires i < |files| && Offers(files, page, i, k)
    requires forall j: nat :: j < i ==> !Offers(files, page, j, k)
    ensures k in Listed(files, page) && Listed(files, page)[k] == SourceOf(files[i], page)
  {
    var n := |files| - 1;
    if i < n {
      FirstOfferBefore(files, page, i, k);
      FirstOfferIsServed(files[..n], page, i, k);
      StaysServed(files, page, k);
    } else {
      LastOfferIsServed(files, page, k);
    }
  }

  lemma LastOfferIsServed(files: seq<DtbFile>, page: PageSize, k: Key)
    requires files != [] && Offers(files, page, |files| - 1, k)
    requires forall j: nat :: j < |files| - 1 ==> !Offers(files, page, j, k)
    ensures k in Listed(files, page) && Listed(files, page)[k] == SourceOf(files[|files| - 1], page)
  {
    NotOfferedBefore(files, page, k);
    LastServes(files, page, k);
  }

  lemma FirstOfferBefore(files: seq<DtbFile>, page: PageSize, i: nat, k: Key)
    requires i < |files| - 1 && Offers(files, page, i, k) && forall j: nat :: j < i ==> !Offers(files, page, j, k)
    ensures var before := files[..|files| - 1];
      Offers(before, page, i, k) && forall j: nat :: j < i ==> !Offers(before, page, j, k)
  {
    OffersBefore(files, page, i, k);
    var before := files[..|files| - 1];
    forall j: nat | j < i ensures !Offers(before, page, j, k) {
      OffersBefore(files, page, j, k);
    }
  }

  lemma NotOfferedBefore(files: seq<DtbFile>, page: PageSize, k: Key)
    requires files != [] && forall j: nat :: j < |files| - 1 ==> !Offers(files, page, j, k)
    ensures k !in Listed(files[..|files| - 1], page)
  {
    var before := files[..|files| - 1];
    ListedMeans(before, page, k);
    forall j: nat | j < |before| ensures !Offers(before, page, j, k) {
      OffersBefore(files, page, j, k);
    }
  }

  // ----- the scan -----

  method ChipInfoOf(f: DtbFile) returns (chips: seq<ChipInfo>)
    ensures fresh(chips) && IsChain(chips) && Spell(chips, KeysOf(f))
  {
    match f.props
    case V1(triples) =>
      var parsed: seq<Key> := [];
      var i := 0;
      while i < |triples|
        invariant 0 <= i <= |triples| && parsed == Triples(triples)[..i]
      {
        parsed := parsed + [Key(triples[i].0, triples[i].1, 0, triples[i].2)];
        i := i + 1;
      }
      assert parsed == Triples(triples);
      chips := ChainOf(parsed);
    case V2(ids, boards) =>
      var pairs := GetPairs(ids, boards);
      chips := ChainOf(pairs);
  }

  /** The chips of `r` are those of `l`, with their masters' files and sizes. */
  ghost predicate Holds(r: set<ChipInfo>, l: Listing)
    reads r`dtbFile, r`dtbSize
  {
    && (forall n :: n in r ==>
          && n.master in r && n.master.master == n.master && n.key in l
          && n.master.dtbFile == Some(l[n.key].path) && n.master.dtbSize == l[n.key].size)
    && (forall k {:trigger Has(r, k)} :: k in l ==> Has(r, k))
  }

  ghost predicate Has(r: set<ChipInfo>, k: Key) {
    exists n :: n in r && n.key == k
  }

  /** The masters among the chips of `r`: one for each file that counts. */
  ghost predicate Heads(r: set<ChipInfo>, heads: seq<ChipInfo>, taken: seq<Source>)
    reads r`dtbFile, r`dtbSize
  {
    && |heads| == |taken|
    && (forall i :: 0 <= i < |heads| ==> heads[i] in r && IsFrom(r, heads[i], taken[i]))
    && (forall n :: n in r ==> n.master in heads)
  }

  ghost predicate IsFrom(r: set<ChipInfo>, head: ChipInfo, source: Source)
    requires head in r
    reads r`dtbFile, r`dtbSize
  {
    head.dtbFile == Some(source.path) && head.dtbSize == source.size
  }

  /** `r` after the chips of `f` were added to it, by the head of its own chain. */
  ghost predicate Joined(was: set<ChipInfo>, r: set<ChipInfo>, chips: seq<ChipInfo>, f: DtbFile, page: PageSize)
    reads r`dtbFile, r`dtbSize
  {
    && chips != [] && Spell(chips, KeysOf(f))
    && was <= r <= was + SetOf(chips) && chips[0] in r
    && (forall j :: 0 <= j < |chips| ==> chips[j].master == chips[0])
    && (forall j :: 0 <= j < |chips| ==> Has(r, chips[j].key))
    && chips[0].dtbFile == Some(f.path) && chips[0].dtbSize == SourceOf(f, page).size
  }

  ghost predicate KeysDiffer(r: set<ChipInfo>) {
    forall a, b :: a in r && b in r && a.key == b.key ==> a == b
  }

  lemma ListedKeysDiffer(list: ChipList)
    requires list.Linked() && list.Sorted()
    ensures KeysDiffer(list.Repr)
  {
    list.ReprIsListed();
    forall i, j | 0 <= i < j < |list.nodes| ensures list.nodes[i].key != list.nodes[j].key {
      assert Less(list.nodes[i].key, list.nodes[j].key);
    }
    forall a, b | a in list.Repr && b in list.Repr && a.key == b.key ensures a == b {
      var i :| 0 <= i < |list.nodes| && list.nodes[i] == a;
      var j :| 0 <= j < |list.nodes| && list.nodes[j] == b;
    }
  }

  /** A chip that joined is one of the file's, and new to the listing. */
  lemma JoinedIsNew(was: set<ChipInfo>, r: set<ChipInfo>, chips: seq<ChipInfo>, f: DtbFile, page: PageSize,
                    l: Listing, n: ChipInfo)
    requires Joined(was, r, chips, f, page) && KeysDiffer(r) && Holds(was, l) && n in r && n !in was
    ensures n.key !in l && n.key in KeysOf(f) && n.master == chips[0]
  {
    var j :| 0 <= j < |chips| && chips[j] == n;
    assert KeysOf(f)[j] == n.key;
    assert Has(was, n.key) ==> n in was;
  }

  lemma JoinedHolds(was: set<ChipInfo>, r: set<ChipInfo>, chips: seq<ChipInfo>, f: DtbFile, page: PageSize, l: Listing)
    requires Joined(was, r, chips, f, page) && KeysDiffer(r) && Holds(was, l) && Counts(l, f)
    ensures Holds(r, Entered(l, f, page))
  {
    var l' := Entered(l, f, page);
    forall n | n in r
      ensures n.master in r && n.master.master == n.master && n.key in l'
      ensures n.master.dtbFile == Some(l'[n.key].path) && n.master.dtbSize == l'[n.key].size
    {
      if n !in was {
        JoinedIsNew(was, r, chips, f, page, l, n);
      }
    }
    forall k | k in l' ensures Has(r, k) {
      if k in l {
        assert Has(was, k);
      } else {
        var j :| 0 <= j < |KeysOf(f)| && KeysOf(f)[j] == k;
        assert chips[j].key == k;
      }
    }
  }

  lemma JoinedHeads(was: set<ChipInfo>, r: set<ChipInfo>, chips: seq<ChipInfo>, f: DtbFile, page: PageSize,
                    heads: seq<ChipInfo>, taken: seq<Source>)
    requires Joined(was, r, chips, f, page) && Heads(was, heads, taken)
    ensures Heads(r, heads + [chips[0]], taken + [SourceOf(f, page)])
  {
    var heads' := heads + [chips[0]];
    var taken' := taken + [SourceOf(f, page)];
    forall i | 0 <= i < |heads'| ensures heads'[i] in r && IsFrom(r, heads'[i], taken'[i]) {
      assert i < |heads| ==> IsFrom(was, heads[i], taken[i]);
    }
    forall n | n in r ensures n.master in heads' {
      if n !in was {
        var j :| 0 <= j < |chips| && chips[j] == n;
      }
    }
  }

  /** The heads after a file: its first chip is one of them if it counts. */
  ghost function HeadsWith(heads: seq<ChipInfo>, chips: seq<ChipInfo>, l: Listing, f: DtbFile): seq<ChipInfo> {
    if Counts(l, f) && chips != [] then heads + [chips[0]] else heads
  }

  /** Whether the file counts or not. */
  lemma FileHolds(was: set<ChipInfo>, r: set<ChipInfo>, chips: seq<ChipInfo>, f: DtbFile, page: PageSize,
                  l: Listing, heads: seq<ChipInfo>, taken: seq<Source>)
    requires Holds(was, l) && Heads(was, heads, taken) && KeysDiffer(r)
    requires if Counts(l, f) then Joined(was, r, chips, f, page) else r == was
    ensures Holds(r, Entered(l, f, page))
    ensures Heads(r, HeadsWith(heads, chips, l, f), TakenWith(taken, l, f, page))
  {
    if Counts(l, f) {
      JoinedHolds(was, r, chips, f, page, l);
      JoinedHeads(was, r, chips, f, page, heads, taken);
    }
  }

  lemma CountsIfNew(was: set<ChipInfo>, chips: seq<ChipInfo>, f: DtbFile, l: Listing)
    requires Holds(was, l) && chips != [] && Spell(chips, KeysOf(f))
    ensures Counts(l, f) <==> f.size > 0 && !Has(was, chips[0].key)
  {
    assert chips[0].key == KeysOf(f)[0];
    KeysAreNamed(f, KeysOf(f)[0]);
  }

  lemma ListsAreHas(list: ChipList, chips: seq<ChipInfo>)
    ensures forall j :: 0 <= j < |chips| ==> Has(list.Repr, chips[j].key) == list.Lists(chips[j].key)
  {
    forall j | 0 <= j < |chips| ensures Has(list.Repr, chips[j].key) == list.Lists(chips[j].key) {
      ListsIsHas(list, chips[j].key);
    }
  }

  /** Adds a file's chips, unless it is empty or its first chip is listed. */
  method AddChips(p: DtbPacker, chips: seq<ChipInfo>, f: DtbFile)
    requires p.Valid() && chips != [] && IsChain(chips) && Spell(chips, KeysOf(f))
    requires forall c :: c in chips ==> c !in p.list.Repr
    modifies p, p.list, p.list.Repr`prev, p.list.Repr`next, chips
    ensures p.Valid() && p.list.Repr <= old(p.list.Repr) + SetOf(chips) && KeysDiffer(p.list.Repr)
    ensures if f.size > 0 && !Has(old(p.list.Repr), chips[0].key)
            then Joined(old(p.list.Repr), p.list.Repr, chips, f, p.page) else p.list.Repr == old(p.list.Repr)
  {
    ListsIsHas(p.list, chips[0].key);
    p.AddFile(chips, f.path, f.size);
    ListsAreHas(p.list, chips);
    ListedKeysDiffer(p.list);
  }

  /** The chips listed before are as they were. */
  method AddBeside(p: DtbPacker, chips: seq<ChipInfo>, f: DtbFile,
                   ghost l: Listing, ghost heads: seq<ChipInfo>, ghost taken: seq<Source>)
    requires p.Valid() && chips != [] && IsChain(chips) && Spell(chips, KeysOf(f))
    requires forall c :: c in chips ==> c !in p.list.Repr
    requires Holds(p.list.Repr, l) && Heads(p.list.Repr, heads, taken)
    modifies p, p.list, p.list.Repr`prev, p.list.Repr`next, chips
    ensures p.Valid() && p.list.Repr <= old(p.list.Repr) + SetOf(chips) && KeysDiffer(p.list.Repr)
    ensures if f.size > 0 && !Has(old(p.list.Repr), chips[0].key)
            then Joined(old(p.list.Repr), p.list.Repr, chips, f, p.page) else p.list.Repr == old(p.list.Repr)
    ensures Holds(old(p.list.Repr), l) && Heads(old(p.list.Repr), heads, taken)
  {
    ghost var was := p.list.Repr;
    AddChips(p, chips, f);
    assert forall n :: n in was ==> n.dtbFile == old(n.dtbFile) && n.dtbSize == old(n.dtbSize);
  }

  lemma ListsIsHas(list: ChipList, k: Key)
    ensures list.Lists(k) == Has(list.Repr, k)
  {
  }

  /** What a file does to the listing. */
  method EnterFile(p: DtbPacker, chips: seq<ChipInfo>, f: DtbFile,
                   ghost l: Listing, ghost heads: seq<ChipInfo>, ghost taken: seq<Source>)
    requires p.Valid() && chips != [] && IsChain(chips) && Spell(chips, KeysOf(f))
    requires forall c :: c in chips ==> c !in p.list.Repr
    requires Holds(p.list.Repr, l) && Heads(p.list.Repr, heads, taken)
    modifies p, p.list, p.list.Repr`prev, p.list.Repr`next, chips
    ensures p.Valid() && p.list.Repr <= old(p.list.Repr) + SetOf(chips)
    ensures Holds(p.list.Repr, Entered(l, f, p.page))
    ensures Heads(p.list.Repr, HeadsWith(heads, chips, l, f), TakenWith(taken, l, f, p.page))
  {
    ghost var was := p.list.Repr;
    CountsIfNew(was, chips, f, l);
    AddBeside(p, chips, f, l, heads, taken);
    FileHolds(was, p.list.Repr, chips, f, p.page, l, heads, taken);
  }

  /** One file of the input directory. */
  method ScanFile(p: DtbPacker, f: DtbFile, ghost l: Listing, ghost heads: seq<ChipInfo>, ghost taken: seq<Source>)
    returns (ghost heads': seq<ChipInfo>)
    requires p.Valid() && Holds(p.list.Repr, l) && Heads(p.list.Repr, heads, taken)
    modifies p, p.list, p.list.Repr`prev, p.list.Repr`next
    ensures p.Valid() && fresh(p.list.Repr - old(p.list.Repr))
    ensures Holds(p.list.Repr, Entered(l, f, p.page))
    ensures Heads(p.list.Repr, heads', TakenWith(taken, l, f, p.page))
  {
    var chips := ChipInfoOf(f);
    heads' := HeadsWith(heads, chips, l, f);
    if chips != [] {
      EnterFile(p, chips, f, l, heads, taken);
    }
  }

  lemma OneMoreFile(files: seq<DtbFile>, page: PageSize, i: nat)
    requires i < |files|
    ensures Listed(files[..i + 1], page) == Entered(Listed(files[..i], page), files[i], page)
    ensures Taken(files[..i + 1], page) == TakenWith(Taken(files[..i], page), Listed(files[..i], page), files[i], page)
  {
    assert files[..i + 1][..i] == files[..i];
  }

  /** The whole directory. */
  method Scan(p: DtbPacker, files: seq<DtbFile>) returns (ghost heads: seq<ChipInfo>)
    requires p.Valid() && p.list.Repr == {}
    modifies p, p.list
    ensures p.Valid() && fresh(p.list.Repr)
    ensures Holds(p.list.Repr, Listed(files, p.page)) && Heads(p.list.Repr, heads, Taken(files, p.page))
  {
    heads := [];
    var i := 0;
    while i < |files|
      invariant 0 <= i <= |files| && p.Valid() && fresh(p.list.Repr)
      invariant Holds(p.list.Repr, Listed(files[..i], p.page))
      invariant Heads(p.list.Repr, heads, Taken(files[..i], p.page))
    {
      OneMoreFile(files, p.page, i);
      heads := ScanFile(p, files[i], Listed(files[..i], p.page), heads, Taken(files[..i], p.page));
      i := i + 1;
    }
    assert files[..i] == files;
  }
}
