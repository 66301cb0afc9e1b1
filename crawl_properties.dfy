/** What the crawl promises, stated on the functions that specify
    `HtmlScraper` (the methods of the class are proved against them): the
    novelty filter against its description, one round of `start_parsing`,
    whole runs, and the content of a detail page. Every lemma holds for any
    reader of date texts and any network. */
module CrawlProperties {
  import opened Results
  import opened PyStr
  import opened Dates
  import opened Store
  import opened Scraper

  // ---------------------------------------------------------------------
  // The novelty filter of `parse_date`

  /** A page whose every date text reads as a date not yet stored is walked
      to its end: all its dates are new, in page order. */
  lemma AllNewPage(read: string -> Option<Instant>, texts: seq<string>, docs: seq<Document>)
    requires forall i :: 0 <= i < |texts| ==> read(texts[i]).Some? && !HasDate(docs, InstantText(read(texts[i]).value))
    ensures ScanDates(read, texts, docs).end == Exhausted
    ensures |ScanDates(read, texts, docs).dates| == |texts|
    ensures forall i :: 0 <= i < |texts| ==> ScanDates(read, texts, docs).dates[i] == read(texts[i]).value
  {
    ScanDatesDescribes(read, texts, docs);
  }

  /** When the first stored date of a page is its `k`-th text, and every
      text before it reads as a new date, the walk stops there: the page has
      `k` new pastes and the walk ends at a stored date. */
  lemma FirstStoredAt(read: string -> Option<Instant>, texts: seq<string>, docs: seq<Document>, k: nat)
    requires k < |texts|
    requires forall i :: 0 <= i < k ==> read(texts[i]).Some? && !HasDate(docs, InstantText(read(texts[i]).value))
    requires read(texts[k]).Some? && HasDate(docs, InstantText(read(texts[k]).value))
    ensures ScanDates(read, texts, docs).end == Hit
    ensures |ScanDates(read, texts, docs).dates| == k
    ensures forall i :: 0 <= i < k ==> ScanDates(read, texts, docs).dates[i] == read(texts[i]).value
  {
    ScanDatesDescribes(read, texts, docs);
  }

  // ---------------------------------------------------------------------
  // One round of `start_parsing`

  /** The walk of `parse_date` over the page and store of `c`. */
  function Scan(read: string -> Option<Instant>, c: Crawl): DateScan
  {
    ScanDates(read, c.page.dateTexts, c.documents)
  }

  /** The records `create_pastes` builds in the round from `c`. */
  function Found(web: Web, read: string -> Option<Instant>, c: Crawl): Result<seq<Paste>, CrawlError>
  {
    Records(web, Counted(c, Scan(read, c)), Scan(read, c).dates)
  }

  /** The stop flag after `parse_date`, at the start of a round (no pastes
      counted yet) and when every text seen was a date: raised exactly when
      the walk met a stored date, and otherwise every text of the page was
      counted. */
  lemma StopIffHit(read: string -> Option<Instant>, c: Crawl)
    requires c.pagePastes == 0 && Scan(read, c).end != BadDate
    ensures Counted(c, Scan(read, c)).stop <==> c.stop || Scan(read, c).end == Hit
    ensures Counted(c, Scan(read, c)).pagePastes == |Scan(read, c).dates|
    ensures Scan(read, c).end != Hit ==> Counted(c, Scan(read, c)).pagePastes == |c.page.dateTexts|
  {
  }

  /** A round whose dates all read and whose records can be put together:
      the records are exactly the rows of the new pastes, they are appended
      to the store in order, the page's count is added to the total and
      reset, the next page is followed (or the stop flag raised), and the
      loop carries on from there. */
  lemma RoundStores(web: Web, read: string -> Option<Instant>, c: Crawl, rest: nat)
    requires Scan(read, c).end != BadDate && Found(web, read, c).Success?
    ensures var scan, pastes := Scan(read, c), Found(web, read, c).value;
      var next := Advance(web, Stored(Counted(c, scan), pastes));
      && RunRound(web, read, c, rest) == Run(web, read, next, rest)
      && |pastes| == Min(|c.page.titles|, c.pagePastes + |scan.dates|)
      && (forall i :: 0 <= i < |pastes| ==>
            pastes[i] == Paste(AuthorName(c.page.authorLinks[i]), Strip(c.page.titles[i]),
                               Flatten(web.detail(c.page.contentLinks[i])), scan.dates[i]))
      && next.documents == c.documents + ToDocuments(pastes)
      && next.newPastes == c.newPastes + c.pagePastes + |scan.dates|
      && next.pagePastes == 0
      && next.page == (match NextPageUrl(c.page.pagination)
                       case Some(url) => web.listing(url)
                       case None => c.page)
      && next.stop == (Counted(c, scan).stop || NextPageUrl(c.page.pagination).None?)
  {
  }

  /** A round that fails: a text that is no date raises the parser error
      before anything is stored, and so does a missing row in
      `create_pastes`; the store and the total are untouched. */
  lemma RoundFails(web: Web, read: string -> Option<Instant>, c: Crawl, rest: nat)
    requires Scan(read, c).end == BadDate || Found(web, read, c).Failure?
    ensures RunRound(web, read, c, rest).Aborted?
    ensures RunRound(web, read, c, rest).error == if Scan(read, c).end == BadDate then ParserError else IndexError
    ensures RunRound(web, read, c, rest).state.documents == c.documents
    ensures RunRound(web, read, c, rest).state.newPastes == c.newPastes
  {
  }

  /** The dates of the records a round stores are the leading dates of the
      page, none of them in the store before the round. */
  lemma StoredAreNovel(web: Web, read: string -> Option<Instant>, c: Crawl)
    requires Found(web, read, c).Success?
    ensures var pastes := Found(web, read, c).value;
      forall i :: 0 <= i < |pastes| ==>
        read(c.page.dateTexts[i]) == Some(pastes[i].date) && !HasDate(c.documents, InstantText(pastes[i].date))
  {
    var scan := Scan(read, c);
    ScanDatesDescribes(read, c.page.dateTexts, c.documents);
    var pastes := Found(web, read, c).value;
    assert |pastes| <= |scan.dates|;
    forall i | 0 <= i < |pastes|
      ensures read(c.page.dateTexts[i]) == Some(pastes[i].date) && !HasDate(c.documents, InstantText(pastes[i].date))
    {
      assert pastes[i].date == scan.dates[i];
    }
  }

  /** The round that meets a stored date still follows the pagination link
      before the loop test sees the stop flag: the next page is fetched, and
      the run ends there with the records of this round stored. */
  lemma FollowsLinkEvenWhenStopping(web: Web, read: string -> Option<Instant>, c: Crawl, url: string, rest: nat)
    requires c.pagePastes == 0 && Scan(read, c).end == Hit && Found(web, read, c).Success?
    requires NextPageUrl(c.page.pagination) == Some(url)
    ensures RunRound(web, read, c, rest).Finished?
    ensures RunRound(web, read, c, rest).state.page == web.listing(url)
    ensures RunRound(web, read, c, rest).state.documents == c.documents + ToDocuments(Found(web, read, c).value)
  {
    RoundStores(web, read, c, rest);
  }

  // ---------------------------------------------------------------------
  // Whole runs of `start_parsing`

  /** A run only ever appends to the store and only ever adds to the total
      of new pastes, however it ends. */
  lemma {:induction false} RunAppendOnly(web: Web, read: string -> Option<Instant>, c: Crawl, fuel: nat)
    ensures c.documents <= Run(web, read, c, fuel).state.documents
    ensures c.newPastes <= Run(web, read, c, fuel).state.newPastes
    decreases fuel
  {
    RunEnds(web, read, c, fuel);
    if !c.stop && fuel > 0 {
      RunGoesOn(web, read, c, fuel);
      if Scan(read, c).end == BadDate || Found(web, read, c).Failure? {
        RoundFails(web, read, c, fuel - 1);
      } else {
        var pastes := Found(web, read, c).value;
        var next := Advance(web, Stored(Counted(c, Scan(read, c)), pastes));
        RoundStores(web, read, c, fuel - 1);
        RunAppendOnly(web, read, next, fuel - 1);
        PrefixOfConcat(c.documents, ToDocuments(pastes), Run(web, read, next, fuel - 1).state.documents);
      }
    }
  }

  /** A page that shows a row for every one of its date texts: a title, an
      author cell and a content link. */
  predicate Covers(p: Page) {
    |p.dateTexts| <= |p.titles| && |p.dateTexts| <= |p.authorLinks| && |p.dateTexts| <= |p.contentLinks|
  }

  /** On a page that shows a row for every date text, the records of a
      round can always be put together: one per new date. */
  lemma CoveredRoundStores(web: Web, read: string -> Option<Instant>, c: Crawl)
    requires c.pagePastes == 0 && Covers(c.page) && Scan(read, c).end != BadDate
    ensures Found(web, read, c).Success?
    ensures |Found(web, read, c).value| == |Scan(read, c).dates|
  {
    var count := |Scan(read, c).dates|;
    assert Counted(c, Scan(read, c)).pagePastes == count;
  }

  /** One round on such pages: it either raises the parser error, or
      stores one record per new date, counts each of them once in the total,
      and lands on another such page with no pastes counted. */
  lemma CoveredRound(web: Web, read: string -> Option<Instant>, c: Crawl, fuel: nat)
    requires !c.stop && fuel > 0 && c.pagePastes == 0 && Covers(c.page)
    requires forall url :: Covers(web.listing(url))
    requires Scan(read, c).end != BadDate
    ensures var next := Advance(web, Stored(Counted(c, Scan(read, c)), Found(web, read, c).value));
      && Found(web, read, c).Success?
      && Run(web, read, c, fuel) == Run(web, read, next, fuel - 1)
      && next.pagePastes == 0 && Covers(next.page)
      && |next.documents| - |c.documents| == next.newPastes - c.newPastes
  {
    RunGoesOn(web, read, c, fuel);
    CoveredRoundStores(web, read, c);
    RoundStores(web, read, c, fuel - 1);
    var next := Advance(web, Stored(Counted(c, Scan(read, c)), Found(web, read, c).value));
    match NextPageUrl(c.page.pagination)
    case Some(url) =>
      assert Covers(web.listing(url));
    case None =>
  }

  /** On pages that show a row for every date text, no round raises
      IndexError, and the total `start_parsing` returns grows by exactly the
      number of records stored. */
  lemma {:induction false} RunCountsStored(web: Web, read: string -> Option<Instant>, c: Crawl, fuel: nat)
    requires c.pagePastes == 0 && Covers(c.page)
    requires forall url :: Covers(web.listing(url))
    ensures Run(web, read, c, fuel).Aborted? ==> Run(web, read, c, fuel).error == ParserError
    ensures |Run(web, read, c, fuel).state.documents| - |c.documents|
              == Run(web, read, c, fuel).state.newPastes - c.newPastes
    decreases fuel
  {
    RunEnds(web, read, c, fuel);
    if !c.stop && fuel > 0 {
      if Scan(read, c).end == BadDate {
        RunGoesOn(web, read, c, fuel);
        RoundFails(web, read, c, fuel - 1);
      } else {
        CoveredRound(web, read, c, fuel);
        var next := Advance(web, Stored(Counted(c, Scan(read, c)), Found(web, read, c).value));
        RunCountsStored(web, read, next, fuel - 1);
      }
    }
  }

  /** What `start_parsing` returns on such pages is the number of records
      the run stored, on top of the total it started from. */
  lemma ReturnedIsStoredCount(web: Web, read: string -> Option<Instant>, c: Crawl, fuel: nat, n: nat)
    requires c.pagePastes == 0 && Covers(c.page)
    requires forall url :: Covers(web.listing(url))
    requires Returned(Run(web, read, c, fuel)) == Success(n)
    ensures n == c.newPastes + |Run(web, read, c, fuel).state.documents| - |c.documents|
  {
    RunCountsStored(web, read, c, fuel);
  }

  /** A listing page with no rows whose last pagination entry links back to
      itself never raises the stop flag: the loop of `start_parsing` would
      run for ever, and any bound on the rounds is used up with nothing
      changed. */
  lemma {:induction false} SelfLinkedEmptyPage(web: Web, read: string -> Option<Instant>, c: Crawl, url: string, fuel: nat)
    requires !c.stop && c.pagePastes == 0 && c.page.dateTexts == []
    requires NextPageUrl(c.page.pagination) == Some(url) && web.listing(url) == c.page
    ensures Run(web, read, c, fuel) == OutOfFuel(c)
    decreases fuel
  {
    RunEnds(web, read, c, fuel);
    if fuel > 0 {
      RunGoesOn(web, read, c, fuel);
      assert Scan(read, c) == DateScan([], Exhausted);
      assert Found(web, read, c) == Success([]);
      RoundStores(web, read, c, fuel - 1);
      assert ToDocuments([]) == [] && c.documents + [] == c.documents;
      assert Advance(web, Stored(Counted(c, Scan(read, c)), [])) == c;
      SelfLinkedEmptyPage(web, read, c, url, fuel - 1);
    }
  }

  /** A crawl whose first listing row is already in the store (a second
      crawl of an unchanged site, say) stores nothing and returns the total
      it started from. */
  lemma NewestStoredAddsNothing(web: Web, read: string -> Option<Instant>, c: Crawl, fuel: nat)
    requires !c.stop && c.pagePastes == 0 && fuel > 0 && c.page.dateTexts != []
    requires read(c.page.dateTexts[0]).Some?
    requires HasDate(c.documents, InstantText(read(c.page.dateTexts[0]).value))
    ensures Run(web, read, c, fuel).Finished?
    ensures Run(web, read, c, fuel).state.documents == c.documents
    ensures Returned(Run(web, read, c, fuel)) == Success(c.newPastes)
  {
    var scan := Scan(read, c);
    assert scan == DateScan([], Hit);
    assert Found(web, read, c) == Success([]);
    RoundStores(web, read, c, fuel - 1);
  }

  // ---------------------------------------------------------------------
  // The content of a detail page

  /** The lines that are not blank, in order. */
  function NonBlank(lines: seq<string>): seq<string>
  {
    if lines == [] then []
    else (if IsBlank(lines[0]) then [] else [lines[0]]) + NonBlank(lines[1..])
  }

  /** Lines joined, each followed by a line feed. */
  function Joined(lines: seq<string>): string
  {
    if lines == [] then "" else lines[0] + "\n" + Joined(lines[1..])
  }

  /** One line adds itself and a line feed, or nothing when it is blank. */
  lemma PieceOf(line: string)
    ensures Piece(line) == if IsBlank(line) then "" else line + "\n"
  {
    StripEmptyIffBlank(line);
  }

  lemma {:induction false} NonBlankSnoc(lines: seq<string>, line: string)
    ensures NonBlank(lines + [line]) == NonBlank(lines) + (if IsBlank(line) then [] else [line])
  {
    if lines != [] {
      assert (lines + [line])[1..] == lines[1..] + [line];
      NonBlankSnoc(lines[1..], line);
    } else {
      assert lines + [line] == [line];
    }
  }

  lemma {:induction false} JoinedSnoc(lines: seq<string>, line: string)
    ensures Joined(lines + [line]) == Joined(lines) + line + "\n"
  {
    if lines != [] {
      assert (lines + [line])[1..] == lines[1..] + [line];
      JoinedSnoc(lines[1..], line);
    } else {
      assert lines + [line] == [line];
    }
  }

  /** The content `parse_content` builds from a detail page is the
      non-blank lines, in order, each followed by a line feed. */
  lemma {:induction false} FlattenIsJoinedNonBlank(lines: seq<string>)
    ensures Flatten(lines) == Joined(NonBlank(lines))
    decreases |lines|
  {
    if lines != [] {
      var init, last := lines[..|lines| - 1], lines[|lines| - 1];
      assert lines == init + [last];
      FlattenIsJoinedNonBlank(init);
      NonBlankSnoc(init, last);
      PieceOf(last);
      assert Flatten(lines) == Flatten(init) + Piece(last);
      if !IsBlank(last) {
        JoinedSnoc(NonBlank(init), last);
        Assoc(Joined(NonBlank(init)), last, "\n");
        assert NonBlank(lines) == NonBlank(init) + [last];
      } else {
        assert NonBlank(lines) == NonBlank(init);
        assert Flatten(lines) == Flatten(init);
      }
    }
  }

  /** Flattening two runs of lines one after the other joins their
      contents. */
  lemma {:induction false} FlattenConcat(a: seq<string>, b: seq<string>)
    ensures Flatten(a + b) == Flatten(a) + Flatten(b)
    decreases |b|
  {
    if b == [] {
      assert a + b == a;
    } else {
      var init, last := b[..|b| - 1], b[|b| - 1];
      InitLast(a, b);
      FlattenConcat(a, init);
      Assoc(Flatten(a), Flatten(init), Piece(last));
    }
  }

  /** A blank line contributes nothing, wherever it stands. */
  lemma BlankLineVanishes(a: seq<string>, line: string, b: seq<string>)
    requires IsBlank(line)
    ensures Flatten(a + [line] + b) == Flatten(a + b)
  {
    FlattenConcat(a + [line], b);
    FlattenConcat(a, [line]);
    FlattenConcat(a, b);
    PieceOf(line);
    assert [line][..0] == [];
    assert Flatten([line]) == "";
    assert Flatten(a + [line]) == Flatten(a);
  }
}
