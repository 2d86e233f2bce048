/** The satellites-in-view sentences: paging by four, one constellation at a time. */
module NmeaPaging {

  const GPS_PRN_START := 1
  const GPS_PRN_END := 32
  const GLONASS_PRN_START := 65
  const GLONASS_PRN_END := 96
  const PAGE := 4

  datatype Talker = GP | GL

  /** A satellite; its angles and signal as the sentence shows them. */
  datatype Sv = Sv(prn: int, elevation: int, azimuth: int, snr: int)

  datatype Sentence = Sentence(talker: Talker, count: nat, number: nat, total: nat, svs: seq<Sv>)

  predicate Of(t: Talker, prn: int) {
    match t
    case GP => GPS_PRN_START <= prn <= GPS_PRN_END
    case GL => GLONASS_PRN_START <= prn <= GLONASS_PRN_END
  }

  /** The constellation's satellites, in the order of the report. */
  function InView(t: Talker, svs: seq<Sv>): seq<Sv> {
    if svs == [] then []
    else One(t, svs[0]) + InView(t, svs[1..])
  }

  function One(t: Talker, sv: Sv): seq<Sv> {
    if Of(t, sv.prn) then [sv] else []
  }

  function Min(a: int, b: int): int {
    if a < b then a else b
  }

  /** The page of `view` that starts at `at`. */
  function PageAt(view: seq<Sv>, at: nat): seq<Sv>
    requires at <= |view|
  {
    view[at..Min(at + PAGE, |view|)]
  }

  function SentenceCount(n: nat): nat {
    n / PAGE + if n % PAGE != 0 then 1 else 0
  }

  /** The first pages of `view`, as sentences out of `count`. */
  ghost predicate PagesOf(t: Talker, out: seq<Sentence>, view: seq<Sv>, count: nat) {
    forall i :: 0 <= i < |out| ==> IsPage(t, out[i], view, count, i)
  }

  ghost predicate IsPage(t: Talker, s: Sentence, view: seq<Sv>, count: nat, i: nat) {
    PAGE * i < |view| && s == Sentence(t, count, i + 1, |view|, PageAt(view, PAGE * i))
  }

  /** The sentences for a constellation, numbered from 1. */
  ghost predicate Paged(t: Talker, out: seq<Sentence>, view: seq<Sv>) {
    if view == [] then out == [Sentence(t, 1, 1, 0, [])]
    else
      && |out| == SentenceCount(|view|)
      && PagesOf(t, out, view, |out|)
  }

  lemma Regroup(a: seq<Sv>, b: seq<Sv>, c: seq<Sv>)
    ensures a + (b + c) == (a + b) + c
  {
  }

  lemma {:induction false} InViewSplits(t: Talker, a: seq<Sv>, b: seq<Sv>)
    ensures InView(t, a + b) == InView(t, a) + InView(t, b)
  {
    if a == [] {
      assert a + b == b;
    } else {
      InViewSplits(t, a[1..], b);
      var x, ya, yb := One(t, a[0]), InView(t, a[1..]), InView(t, b);
      assert (a + b)[0] == a[0] && (a + b)[1..] == a[1..] + b;
      Regroup(x, ya, yb);
    }
  }

  lemma InViewStep(t: Talker, svs: seq<Sv>, start: nat, k: nat)
    requires start <= k < |svs|
    ensures InView(t, svs[start..k + 1])
         == if Of(t, svs[k].prn) then InView(t, svs[start..k]) + [svs[k]] else InView(t, svs[start..k])
  {
    assert svs[start..k + 1] == svs[start..k] + [svs[k]];
    InViewSplits(t, svs[start..k], [svs[k]]);
    assert InView(t, svs[start..k]) + [] == InView(t, svs[start..k]);
  }

  function AllSvs(out: seq<Sentence>): seq<Sv> {
    if out == [] then [] else AllSvs(out[..|out| - 1]) + out[|out| - 1].svs
  }

  lemma {:induction false} FirstPages(t: Talker, out: seq<Sentence>, view: seq<Sv>, n: nat)
    requires view != [] && Paged(t, out, view) && n <= |out|
    ensures AllSvs(out[..n]) == view[..Min(PAGE * n, |view|)]
  {
    if n > 0 {
      FirstPages(t, out, view, n - 1);
      assert out[..n][..n - 1] == out[..n - 1];
      assert IsPage(t, out[n - 1], view, |out|, n - 1);
      OneMorePage(view, PAGE * (n - 1));
    }
  }

  lemma OneMorePage(view: seq<Sv>, at: nat)
    requires at < |view|
    ensures view[..at] + PageAt(view, at) == view[..Min(at + PAGE, |view|)]
  {
  }

  /** Read in order, the sentences show every satellite in view once and no
      other; none is empty, and only the last can be short. */
  lemma PagesCoverTheView(t: Talker, out: seq<Sentence>, view: seq<Sv>)
    requires Paged(t, out, view)
    ensures AllSvs(out) == view
    ensures |out| >= 1 && forall i :: 0 <= i < |out| ==>
      && out[i].count == |out| && out[i].number == i + 1 && out[i].total == |view|
      && (view != [] ==> 1 <= |out[i].svs| <= PAGE) && (i + 1 < |out| ==> |out[i].svs| == PAGE)
  {
    if view == [] {
      assert AllSvs(out[..0]) == [];
    } else {
      FirstPages(t, out, view, |out|);
      assert out[..|out|] == out;
      forall i | 0 <= i < |out|
        ensures out[i].count == |out| && out[i].number == i + 1 && out[i].total == |view|
        ensures 1 <= |out[i].svs| <= PAGE && (i + 1 < |out| ==> |out[i].svs| == PAGE)
      {
        assert IsPage(t, out[i], view, |out|, i);
        assert i + 1 < |out| ==> IsPage(t, out[i + 1], view, |out|, i + 1);
      }
    }
  }

  lemma {:induction false} InViewKeepsTo(t: Talker, svs: seq<Sv>, sv: Sv)
    ensures sv in InView(t, svs) <==>
      sv in svs && if t == GP then 1 <= sv.prn <= 32 else 65 <= sv.prn <= 96
  {
    if svs != [] {
      InViewKeepsTo(t, svs[1..], sv);
      assert svs == [svs[0]] + svs[1..];
    }
  }

  // ----- the loops -----

  method CountSvs(svs: seq<Sv>) returns (gpsCount: nat, glnCount: nat)
    ensures gpsCount == |InView(GP, svs)| && glnCount == |InView(GL, svs)|
  {
    gpsCount, glnCount := 0, 0;
    for k := 0 to |svs|
      invariant gpsCount == |InView(GP, svs[0..k])| && glnCount == |InView(GL, svs[0..k])|
    {
      InViewStep(GP, svs, 0, k);
      InViewStep(GL, svs, 0, k);
      if GPS_PRN_START <= svs[k].prn <= GPS_PRN_END {
        gpsCount := gpsCount + 1;
      } else if GLONASS_PRN_START <= svs[k].prn <= GLONASS_PRN_END {
        glnCount := glnCount + 1;
      }
    }
    assert svs[0..|svs|] == svs;
  }

  lemma InViewNext(t: Talker, svs: seq<Sv>, k: nat)
    requires k < |svs|
    ensures InView(t, svs[k..]) ==
      if Of(t, svs[k].prn) then [svs[k]] + InView(t, svs[k + 1..]) else InView(t, svs[k + 1..])
  {
    assert svs[k..][1..] == svs[k + 1..];
    assert [] + InView(t, svs[k + 1..]) == InView(t, svs[k + 1..]);
  }

  /** Collects the next satellites, up to a page of them; `view` is what is in
      view from there on. */
  method FillPage(t: Talker, svs: seq<Sv>, start: nat, ghost view: seq<Sv>) returns (page: seq<Sv>, next: nat)
    requires start <= |svs| && view == InView(t, svs[start..])
    ensures start <= next <= |svs|
    ensures page == PageAt(view, 0) && InView(t, svs[next..]) == view[|page|..]
  {
    page, next := [], start;
    ghost var rest := view;
    while next < |svs| && |page| < PAGE
      invariant start <= next <= |svs| && |page| <= PAGE
      invariant Splits(view, page, rest) && rest == InView(t, svs[next..])
    {
      InViewNext(t, svs, next);
      if Of(t, svs[next].prn) {
        SplitsNext(view, page, svs[next], InView(t, svs[next + 1..]));
        page := page + [svs[next]];
      }
      next := next + 1;
      rest := InView(t, svs[next..]);
    }
    NothingLeft(t, svs, next);
    TakePage(view, page, rest);
  }

  ghost predicate Splits(view: seq<Sv>, page: seq<Sv>, rest: seq<Sv>) {
    view == page + rest
  }

  lemma SplitsNext(view: seq<Sv>, page: seq<Sv>, sv: Sv, rest: seq<Sv>)
    requires Splits(view, page, [sv] + rest)
    ensures Splits(view, page + [sv], rest)
  {
    assert page + ([sv] + rest) == (page + [sv]) + rest;
  }

  lemma NothingLeft(t: Talker, svs: seq<Sv>, k: nat)
    requires k <= |svs|
    ensures k == |svs| ==> InView(t, svs[k..]) == []
  {
  }

  lemma TakePage(view: seq<Sv>, page: seq<Sv>, rest: seq<Sv>)
    requires Splits(view, page, rest) && |page| <= PAGE && (|page| < PAGE ==> rest == [])
    ensures page == PageAt(view, 0) && rest == view[|page|..]
  {
  }

  /** `rest` is the view without its first `n` pages. */
  ghost predicate RestAfter(view: seq<Sv>, n: nat, rest: seq<Sv>) {
    rest == view[Min(PAGE * n, |view|)..]
  }

  lemma NextPage(view: seq<Sv>, n: nat, rest: seq<Sv>)
    requires n < SentenceCount(|view|) && RestAfter(view, n, rest)
    ensures PAGE * n < |view| && PageAt(rest, 0) == PageAt(view, PAGE * n)
    ensures RestAfter(view, n + 1, rest[|PageAt(rest, 0)|..])
  {
  }

  lemma PageJoins(t: Talker, out: seq<Sentence>, view: seq<Sv>, count: nat, page: seq<Sv>)
    requires PagesOf(t, out, view, count) && PAGE * |out| < |view| && page == PageAt(view, PAGE * |out|)
    ensures PagesOf(t, out + [Sentence(t, count, |out| + 1, |view|, page)], view, count)
  {
  }

  /** After the first `|out|` sentences. */
  ghost predicate PagedSoFar(t: Talker, out: seq<Sentence>, view: seq<Sv>, rest: seq<Sv>) {
    RestAfter(view, |out|, rest) && PagesOf(t, out, view, SentenceCount(|view|))
  }

  lemma NextSentence(t: Talker, out: seq<Sentence>, view: seq<Sv>, rest: seq<Sv>)
    requires PagedSoFar(t, out, view, rest) && |out| < SentenceCount(|view|)
    ensures var page := PageAt(rest, 0);
      PagedSoFar(t, out + [Sentence(t, SentenceCount(|view|), |out| + 1, |view|, page)], view, rest[|page|..])
  {
    NextPage(view, |out|, rest);
    PageJoins(t, out, view, SentenceCount(|view|), PageAt(rest, 0));
  }

  lemma NoMoreSentences(t: Talker, out: seq<Sentence>, view: seq<Sv>, rest: seq<Sv>)
    requires PagedSoFar(t, out, view, rest) && view != [] && |out| == SentenceCount(|view|)
    ensures Paged(t, out, view)
  {
  }

  lemma NoSentenceYet(t: Talker, svs: seq<Sv>)
    ensures PagedSoFar(t, [], InView(t, svs), InView(t, svs[0..]))
  {
    assert svs[0..] == svs;
  }

  method GenerateSentences(t: Talker, svs: seq<Sv>, svCount: nat) returns (out: seq<Sentence>)
    requires svCount == |InView(t, svs)|
    ensures Paged(t, out, InView(t, svs))
  {
    if svCount <= 0 {
      return [Sentence(t, 1, 1, 0, [])];
    }
    ghost var view := InView(t, svs);
    NoSentenceYet(t, svs);
    out := [];
    var svNumber := 0;
    var sentenceNumber := 1;
    var sentenceCount := SentenceCount(svCount);
    while sentenceNumber <= sentenceCount
      invariant |out| == sentenceNumber - 1 <= sentenceCount && 0 <= svNumber <= |svs|
      invariant PagedSoFar(t, out, view, InView(t, svs[svNumber..]))
    {
      var page;
      page, svNumber := AddSentence(t, svs, svNumber, out, view);
      out := out + [Sentence(t, sentenceCount, sentenceNumber, svCount, page)];
      sentenceNumber := sentenceNumber + 1;
    }
    NoMoreSentences(t, out, view, InView(t, svs[svNumber..]));
  }

  /** The page of the next sentence. */
  method AddSentence(t: Talker, svs: seq<Sv>, svNumber: nat, ghost out: seq<Sentence>, ghost view: seq<Sv>)
    returns (page: seq<Sv>, next: nat)
    requires svNumber <= |svs| && |out| < SentenceCount(|view|)
    requires PagedSoFar(t, out, view, InView(t, svs[svNumber..]))
    ensures next <= |svs|
    ensures PagedSoFar(t, out + [Sentence(t, SentenceCount(|view|), |out| + 1, |view|, page)], view, InView(t, svs[next..]))
  {
    ghost var rest := InView(t, svs[svNumber..]);
    NextSentence(t, out, view, rest);
    page, next := FillPage(t, svs, svNumber, rest);
  }

  /** The whole report, as sent: first the GPS sentences, then the GLONASS ones. */
  method GenerateSv(svs: seq<Sv>) returns (sent: seq<Sentence>, gps: seq<Sentence>, gln: seq<Sentence>)
    ensures sent == gps + gln
    ensures Paged(GP, gps, InView(GP, svs)) && Paged(GL, gln, InView(GL, svs))
  {
    var gpsCount, glnCount := CountSvs(svs);
    var first := GenerateSentences(GP, svs, gpsCount);
    var second := GenerateSentences(GL, svs, glnCount);
    sent, gps, gln := first + second, first, second;
  }
}
