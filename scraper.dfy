/** `HtmlScraper`: the page-by-page crawl of a paginated listing of pastes.

    A listing page is given by what the scraper's selectors pick out of it
    (the `Page` datatype), and the network by two functions from addresses
    to fetched listing pages and to the text lines of detail pages (the
    `Web` datatype). The exceptions the scraper lets escape become
    `CrawlError` values. */
module Scraper {
  import opened Results
  import opened PyStr
  import opened Dates
  import opened Store

  /** One listing page, as the selectors of the scraper see it. */
  datatype Page = Page(
    // the last text node of each `div.col-sm-6`: the date text of a row
    dateTexts: seq<string>,
    // for each `div.col-sm-6`: the text of its first link, if it has one
    authorLinks: seq<Option<string>>,
    // the text of each `div.col-sm-5 h4`
    titles: seq<string>,
    // the `href` of each `div.col-sm-7 a`
    contentLinks: seq<string>,
    // for each `ul.pagination li`: the `href` of its first link, if it has one
    pagination: seq<Option<string>>)

  /** The network: the listing page at an address, and the lines of text of
      the detail page at an address. */
  datatype Web = Web(listing: string -> Page, detail: string -> seq<string>)

  /** What escapes `start_parsing`: `arrow`'s parser error, the IndexError of
      `create_pastes`, and, in the model only, running out of page budget. */
  datatype CrawlError = ParserError | IndexError | PageBudgetExhausted

  // ---------------------------------------------------------------------
  // The novelty filter of `parse_date`

  /** How the walk over a page's date texts ended: all of them were new, one
      was already stored, or one could not be read as a date. */
  datatype ScanEnd = Exhausted | Hit | BadDate

  datatype DateScan = DateScan(dates: seq<Instant>, end: ScanEnd)

  /** `r` describes the walk over `texts`: its dates are the instants `read`
      gives for the leading texts, none of them stored; the walk ends at the
      end of the texts, at a text whose instant is stored, or at a text that
      is no date. The scraper reads with `GetDate`; the walk is stated for any
      reader. */
  predicate DescribesScan(read: string -> Option<Instant>, texts: seq<string>, docs: seq<Document>, r: DateScan) {
    && |r.dates| <= |texts|
    && (r.end == Exhausted <==> |r.dates| == |texts|)
    && (forall i :: 0 <= i < |r.dates| ==>
          read(texts[i]) == Some(r.dates[i]) && !HasDate(docs, InstantText(r.dates[i])))
    && (r.end == Hit ==>
          read(texts[|r.dates|]).Some? && HasDate(docs, InstantText(read(texts[|r.dates|]).value)))
    && (r.end == BadDate ==> read(texts[|r.dates|]).None?)
  }

  lemma DescribesPrepend(read: string -> Option<Instant>, texts: seq<string>, docs: seq<Document>, d: Instant, rest: DateScan)
    requires texts != [] && read(texts[0]) == Some(d) && !HasDate(docs, InstantText(d))
    requires DescribesScan(read, texts[1..], docs, rest)
    ensures DescribesScan(read, texts, docs, DateScan([d] + rest.dates, rest.end))
  {
    var ds := [d] + rest.dates;
    forall i | 1 <= i < |ds|
      ensures read(texts[i]) == Some(ds[i]) && !HasDate(docs, InstantText(ds[i]))
    {
      assert texts[i] == texts[1..][i - 1] && ds[i] == rest.dates[i - 1];
    }
    assert |rest.dates| < |texts[1..]| ==> texts[|ds|] == texts[1..][|rest.dates|];
  }

  /** The leading run of date texts whose instant is not yet stored, and why
      the run ends. */
  function ScanDates(read: string -> Option<Instant>, texts: seq<string>, docs: seq<Document>): (r: DateScan)
    ensures |r.dates| <= |texts| && (r.end == Exhausted <==> |r.dates| == |texts|)
  {
    if texts == [] then DateScan([], Exhausted)
    else
      match read(texts[0])
      case None => DateScan([], BadDate)
      case Some(d) =>
        if HasDate(docs, InstantText(d)) then DateScan([], Hit)
        else
          var rest := ScanDates(read, texts[1..], docs);
          DateScan([d] + rest.dates, rest.end)
  }

  /** The walk `ScanDates` computes fits the description. */
  lemma {:induction false} ScanDatesDescribes(read: string -> Option<Instant>, texts: seq<string>, docs: seq<Document>)
    ensures DescribesScan(read, texts, docs, ScanDates(read, texts, docs))
  {
    if texts != [] && read(texts[0]).Some? && !HasDate(docs, InstantText(read(texts[0]).value)) {
      ScanDatesDescribes(read, texts[1..], docs);
      DescribesPrepend(read, texts, docs, read(texts[0]).value, ScanDates(read, texts[1..], docs));
    }
  }

  lemma DescribesTail(read: string -> Option<Instant>, texts: seq<string>, docs: seq<Document>, r: DateScan)
    requires DescribesScan(read, texts, docs, r) && |r.dates| > 0
    ensures DescribesScan(read, texts[1..], docs, DateScan(r.dates[1..], r.end))
  {
    var ds := r.dates[1..];
    forall i | 0 <= i < |ds|
      ensures read(texts[1..][i]) == Some(ds[i]) && !HasDate(docs, InstantText(ds[i]))
    {
      assert texts[1..][i] == texts[i + 1] && ds[i] == r.dates[i + 1];
    }
    assert |ds| < |texts[1..]| ==> texts[1..][|ds|] == texts[|r.dates|];
  }

  /** The description determines the walk: any scan result that fits it is
      the one `ScanDates` computes. */
  lemma {:induction false} ScanDatesUnique(read: string -> Option<Instant>, texts: seq<string>, docs: seq<Document>, r: DateScan)
    requires DescribesScan(read, texts, docs, r)
    ensures r == ScanDates(read, texts, docs)
  {
    if texts == [] {
      assert r.dates == [];
    } else {
      var first := read(texts[0]);
      assert |r.dates| > 0 ==> first == Some(r.dates[0]);
      if first.None? || HasDate(docs, InstantText(first.value)) {
        assert r.dates == [];
      } else {
        assert |r.dates| > 0;
        DescribesTail(read, texts, docs, r);
        ScanDatesUnique(read, texts[1..], docs, DateScan(r.dates[1..], r.end));
        assert r.dates == [first.value] + r.dates[1..];
      }
    }
  }

  /** What the walk does at position `i`, once it has got that far: a text
      that is no date ends it, a stored date ends it, a new date is added. */
  lemma ScanAt(read: string -> Option<Instant>, texts: seq<string>, docs: seq<Document>, i: nat)
    requires i < |texts| && i <= |ScanDates(read, texts, docs).dates|
    ensures read(texts[i]).None? ==>
              i == |ScanDates(read, texts, docs).dates| && ScanDates(read, texts, docs).end == BadDate
    ensures read(texts[i]).Some? && HasDate(docs, InstantText(read(texts[i]).value)) ==>
              i == |ScanDates(read, texts, docs).dates| && ScanDates(read, texts, docs).end == Hit
    ensures read(texts[i]).Some? && !HasDate(docs, InstantText(read(texts[i]).value)) ==>
              i < |ScanDates(read, texts, docs).dates| && ScanDates(read, texts, docs).dates[i] == read(texts[i]).value
  {
    ScanDatesDescribes(read, texts, docs);
  }

  // ---------------------------------------------------------------------
  // The field extractors, each bounded by the number of new pastes

  /** The author of a row: the text of its first link, or "" without one. */
  function AuthorName(link: Option<string>): string
  {
    match link
    case None => ""
    case Some(text) => text
  }

  function Authors(links: seq<Option<string>>, limit: nat): (r: seq<string>)
    ensures |r| == Min(|links|, limit)
    ensures forall i :: 0 <= i < |r| ==> r[i] == AuthorName(links[i])
  {
    if links == [] || limit == 0 then []
    else [AuthorName(links[0])] + Authors(links[1..], limit - 1)
  }

  lemma AuthorsCap(links: seq<Option<string>>, limit: nat)
    ensures Authors(links, Min(|links|, limit)) == Authors(links, limit)
  {
  }

  lemma {:induction false} AuthorsSnoc(links: seq<Option<string>>, i: nat)
    requires i < |links|
    ensures Authors(links, i + 1) == Authors(links, i) + [AuthorName(links[i])]
  {
    if i > 0 {
      AuthorsSnoc(links[1..], i - 1);
    }
  }

  function Titles(heads: seq<string>, limit: nat): (r: seq<string>)
    ensures |r| == Min(|heads|, limit)
    ensures forall i :: 0 <= i < |r| ==> r[i] == Strip(heads[i])
  {
    if heads == [] || limit == 0 then []
    else [Strip(heads[0])] + Titles(heads[1..], limit - 1)
  }

  lemma TitlesCap(heads: seq<string>, limit: nat)
    ensures Titles(heads, Min(|heads|, limit)) == Titles(heads, limit)
  {
  }

  lemma {:induction false} TitlesSnoc(heads: seq<string>, i: nat)
    requires i < |heads|
    ensures Titles(heads, i + 1) == Titles(heads, i) + [Strip(heads[i])]
  {
    if i > 0 {
      TitlesSnoc(heads[1..], i - 1);
    }
  }

  /** What one line of a detail page adds to the content: the line and a
      line feed, or nothing when the line is blank. */
  function Piece(line: string): string
  {
    if |Strip(line)| != 0 then line + "\n" else ""
  }

  /** The content of a detail page, built line by line from the first. */
  function Flatten(lines: seq<string>): string
  {
    if lines == [] then "" else Flatten(lines[..|lines| - 1]) + Piece(lines[|lines| - 1])
  }

  /** Flattening one more line adds what that line contributes. */
  lemma FlattenStep(lines: seq<string>, j: nat)
    requires j < |lines|
    ensures Flatten(lines[..j + 1]) == Flatten(lines[..j]) + Piece(lines[j])
  {
    assert lines[..j + 1][..j] == lines[..j];
  }

  /** The inner loop of `parse_content`: the lines of one detail page
      joined, blank lines skipped, each line ended by a line feed. */
  method FlattenLines(lines: seq<string>) returns (content: string)
    ensures content == Flatten(lines)
  {
    content := "";
    for j := 0 to |lines|
      invariant content == Flatten(lines[..j])
    {
      FlattenStep(lines, j);
      if |Strip(lines[j])| != 0 {
        Assoc(content, lines[j], "\n");
        content := content + lines[j] + "\n";
      }
    }
    assert lines[..|lines|] == lines;
  }

  function Contents(detail: string -> seq<string>, links: seq<string>, limit: nat): (r: seq<string>)
    ensures |r| == Min(|links|, limit)
    ensures forall i :: 0 <= i < |r| ==> r[i] == Flatten(detail(links[i]))
  {
    if links == [] || limit == 0 then []
    else [Flatten(detail(links[0]))] + Contents(detail, links[1..], limit - 1)
  }

  /** A bound past the end of the links changes nothing. */
  lemma ContentsCap(detail: string -> seq<string>, links: seq<string>, limit: nat)
    ensures Contents(detail, links, Min(|links|, limit)) == Contents(detail, links, limit)
  {
  }

  /** Raising the bound by one, within the links, adds the next content. */
  lemma {:induction false} ContentsSnoc(detail: string -> seq<string>, links: seq<string>, i: nat)
    requires i < |links|
    ensures Contents(detail, links, i + 1) == Contents(detail, links, i) + [Flatten(detail(links[i]))]
  {
    if i > 0 {
      ContentsSnoc(detail, links[1..], i - 1);
    }
  }

  // ---------------------------------------------------------------------
  // Pagination

  /** The address the last pagination entry links to, if there is a last
      entry and it has a link. */
  function NextPageUrl(pagination: seq<Option<string>>): Option<string>
  {
    if pagination == [] then None else pagination[|pagination| - 1]
  }

  // ---------------------------------------------------------------------
  // One round of `start_parsing`, and the whole crawl

  /** The state `start_parsing` works on: the scraper's fields and the
      documents of the store. */
  datatype Crawl = Crawl(page: Page, documents: seq<Document>, newPastes: nat, pagePastes: nat, stop: bool)

  /** The fields `parse_date` leaves after the walk `scan`: the new dates
      counted and, unless a text was no date, the stop flag raised when the
      walk ended early. */
  function Counted(c: Crawl, scan: DateScan): Crawl
  {
    var count := c.pagePastes + |scan.dates|;
    if scan.end == BadDate then c.(pagePastes := count)
    else c.(pagePastes := count, stop := c.stop || count != |c.page.dateTexts|)
  }

  /** The records of a round once `parse_date` has read `dates` and counted
      the new pastes in `c.pagePastes`: the other fields of as many rows,
      put together by `create_pastes`. */
  function Records(web: Web, c: Crawl, dates: seq<Instant>): Result<seq<Paste>, CrawlError>
  {
    HtmlScraper.CreatePastes(Titles(c.page.titles, c.pagePastes), Authors(c.page.authorLinks, c.pagePastes),
                             dates, Contents(web.detail, c.page.contentLinks, c.pagePastes))
  }

  /** `update_data_base`: the records appended to the store. */
  function Stored(c: Crawl, pastes: seq<Paste>): Crawl
  {
    c.(documents := c.documents + ToDocuments(pastes))
  }

  /** The end of a round: `update_next_page`, then the page's count added
      to the total and reset. */
  function Advance(web: Web, c: Crawl): Crawl
  {
    var moved := match NextPageUrl(c.page.pagination)
      case Some(url) => c.(page := web.listing(url))
      case None => c.(stop := true);
    moved.(newPastes := moved.newPastes + moved.pagePastes, pagePastes := 0)
  }

  /** How the loop of `start_parsing` ends: the stop flag is up, an
      exception escapes a round, or (in the model only) the rounds allowed
      are used up. */
  datatype RunResult = Finished(state: Crawl) | Aborted(error: CrawlError, state: Crawl) | OutOfFuel(state: Crawl)

  /** The loop of `start_parsing` from `c`, reading dates with `read`, run
      for at most `fuel` rounds: it ends once the stop flag is up. */
  function Run(web: Web, read: string -> Option<Instant>, c: Crawl, fuel: nat): RunResult
    decreases fuel, 2
  {
    if c.stop then Finished(c) else Pass(web, read, c, fuel)
  }

  /** A pass through the loop of `start_parsing` with the stop flag down:
      a round, unless the rounds allowed are used up. */
  function Pass(web: Web, read: string -> Option<Instant>, c: Crawl, fuel: nat): RunResult
    decreases fuel, 1
  {
    if fuel == 0 then OutOfFuel(c) else RunRound(web, read, c, fuel - 1)
  }

  /** One round from `c`, then the rest of the loop with `rest` rounds
      left: `parse_date`, whose parser error escapes the round. */
  function RunRound(web: Web, read: string -> Option<Instant>, c: Crawl, rest: nat): RunResult
    decreases rest, 4
  {
    var scan := ScanDates(read, c.page.dateTexts, c.documents);
    if scan.end == BadDate then Aborted(ParserError, Counted(c, scan))
    else RunStore(web, read, Counted(c, scan), scan.dates, rest)
  }

  /** The rest of a round once `parse_date` has read `dates`: the records
      are put together (an IndexError escapes), stored, and the crawl moves
      to the next page. */
  function RunStore(web: Web, read: string -> Option<Instant>, c: Crawl, dates: seq<Instant>, rest: nat): RunResult
    decreases rest, 3
  {
    match Records(web, c, dates)
    case Failure(e) => Aborted(e, c)
    case Success(pastes) => Run(web, read, Advance(web, Stored(c, pastes)), rest)
  }

  /** With the stop flag down and a round allowed, the loop runs a round. */
  lemma RunGoesOn(web: Web, read: string -> Option<Instant>, c: Crawl, fuel: nat)
    requires !c.stop && fuel > 0
    ensures Run(web, read, c, fuel) == RunRound(web, read, c, fuel - 1)
  {
  }

  /** The loop stops at once when the stop flag is up or no round is left. */
  lemma RunEnds(web: Web, read: string -> Option<Instant>, c: Crawl, fuel: nat)
    ensures c.stop ==> Run(web, read, c, fuel) == Finished(c)
    ensures !c.stop && fuel == 0 ==> Run(web, read, c, fuel) == OutOfFuel(c)
  {
  }

  /** More rounds allowed never change a run that ends within fewer: the
      bound on the rounds only cuts off runs that the loop of
      `start_parsing` would carry on with. */
  lemma {:induction false} RunFuelMonotone(web: Web, read: string -> Option<Instant>, c: Crawl, f: nat, g: nat)
    requires !Run(web, read, c, f).OutOfFuel? && f <= g
    ensures Run(web, read, c, g) == Run(web, read, c, f)
    decreases f
  {
    RunEnds(web, read, c, f);
    if !c.stop {
      RunGoesOn(web, read, c, f);
      RunGoesOn(web, read, c, g);
      var scan := ScanDates(read, c.page.dateTexts, c.documents);
      if scan.end != BadDate {
        var d := Counted(c, scan);
        match Records(web, d, scan.dates)
        case Failure(_) =>
        case Success(pastes) =>
          RunFuelMonotone(web, read, Advance(web, Stored(d, pastes)), f - 1, g - 1);
      }
    }
  }

  /** What `start_parsing` hands back for a run. */
  function Returned(out: RunResult): Result<nat, CrawlError>
  {
    match out
    case Finished(s) => Success(s.newPastes)
    case Aborted(e, _) => Failure(e)
    case OutOfFuel(_) => Failure(PageBudgetExhausted)
  }

  // ---------------------------------------------------------------------
  // The scraper object

  class HtmlScraper {
    const web: Web
    /** `get_date`, the method that reads the date text of a row. */
    const getDate: string -> Option<Instant>
    const database: DataBase
    var page: Page
    var newPastes: nat
    var pagePastes: nat
    var stopParsing: bool

    constructor (web: Web, page: Page, database: DataBase)
      ensures this.web == web && this.database == database && this.page == page
      ensures getDate == GetDate
      ensures newPastes == 0 && pagePastes == 0 && !stopParsing
    {
      this.web := web;
      getDate := GetDate;
      this.database := database;
      this.page := page;
      newPastes := 0;
      pagePastes := 0;
      stopParsing := false;
    }

    function State(): Crawl
      reads this, database
    {
      Crawl(page, database.documents, newPastes, pagePastes, stopParsing)
    }

    /** `parse_date`: the dates of the leading new pastes of the page, each
        counted in `pagePastes`; the stop flag is raised when the walk ends
        before the end of the page. */
    method ParseDate() returns (r: Result<seq<Instant>, CrawlError>)
      modifies this`pagePastes, this`stopParsing
      ensures ScanDates(getDate, page.dateTexts, database.documents).end == BadDate ==> r == Failure(ParserError)
      ensures ScanDates(getDate, page.dateTexts, database.documents).end != BadDate ==> r == Success(ScanDates(getDate, page.dateTexts, database.documents).dates)
      ensures pagePastes == old(pagePastes) + |ScanDates(getDate, page.dateTexts, database.documents).dates|
      ensures stopParsing == if ScanDates(getDate, page.dateTexts, database.documents).end == BadDate then old(stopParsing)
        else old(stopParsing) || pagePastes != |page.dateTexts|
    {
      var texts := page.dateTexts;
      ghost var docs := database.documents;
      ghost var scan := ScanDates(getDate, texts, docs);
      var dates: seq<Instant> := [];
      var i := 0;
      while i < |texts|
        invariant i <= |scan.dates|
        invariant dates == scan.dates[..i]
        invariant pagePastes == old(pagePastes) + i
        invariant stopParsing == old(stopParsing)
      {
        var date := getDate(texts[i]);
        ScanAt(getDate, texts, docs, i);
        if date.None? {
          return Failure(ParserError);
        }
        if database.QueryDate(InstantText(date.value)) {
          break;
        }
        PrefixSnoc(scan.dates, i);
        dates := dates + [date.value];
        pagePastes := pagePastes + 1;
        i := i + 1;
      }
      assert i == |scan.dates| && dates == scan.dates[..i];
      assert dates == scan.dates;
      if pagePastes != |texts| {
        stopParsing := true;
      }
      return Success(dates);
    }

    /** `parse_author`: the author of each of the first `pagePastes` rows. */
    method ParseAuthor() returns (authors: seq<string>)
      ensures authors == Authors(page.authorLinks, pagePastes)
    {
      var rows := page.authorLinks;
      var limit := pagePastes;
      authors := [];
      var i := 0;
      while i < |rows|
        invariant i <= |rows| && i <= limit
        invariant authors == Authors(rows, i)
      {
        if i == limit {
          break;
        }
        var name := "";
        if rows[i].Some? {
          name := rows[i].value;
        }
        AuthorsSnoc(rows, i);
        authors := authors + [name];
        i := i + 1;
      }
      AuthorsCap(rows, limit);
    }

    /** `parse_title`: the stripped title of each of the first `pagePastes`
        rows. */
    method ParseTitle() returns (titles: seq<string>)
      ensures titles == Titles(page.titles, pagePastes)
    {
      var heads := page.titles;
      var limit := pagePastes;
      titles := [];
      var i := 0;
      while i < |heads|
        invariant i <= |heads| && i <= limit
        invariant titles == Titles(heads, i)
      {
        if i == limit {
          break;
        }
        TitlesSnoc(heads, i);
        titles := titles + [Strip(heads[i])];
        i := i + 1;
      }
      TitlesCap(heads, limit);
    }

    /** `parse_content`: for each of the first `pagePastes` content links,
        the non-blank lines of the detail page, each ended by a line feed.
        `requested` lists the detail addresses fetched, in order: the loop
        stops before fetching once `pagePastes` pages are read. */
    method ParseContent() returns (contents: seq<string>, ghost requested: seq<string>)
      ensures contents == Contents(web.detail, page.contentLinks, pagePastes)
      ensures requested == page.contentLinks[..Min(|page.contentLinks|, pagePastes)]
    {
      var detail := web.detail;
      var links := page.contentLinks;
      var limit := pagePastes;
      contents := [];
      requested := [];
      var i := 0;
      while i < |links|
        invariant i <= |links| && i <= limit
        invariant contents == Contents(detail, links, i)
        invariant requested == links[..i]
      {
        if i == limit {
          break;
        }
        PrefixSnoc(links, i);
        requested := requested + [links[i]];
        var lines := detail(links[i]);
        var content := FlattenLines(lines);
        ContentsSnoc(detail, links, i);
        contents := contents + [content];
        i := i + 1;
      }
      ContentsCap(detail, links, limit);
    }

    /** `create_pastes`: record `i` is made of element `i` of each list, one
        record per title; a list shorter than the titles raises IndexError. */
    static function CreatePastes(titles: seq<string>, names: seq<string>, dates: seq<Instant>,
                                 contents: seq<string>): (r: Result<seq<Paste>, CrawlError>)
      ensures r.Success? <==> |titles| <= |names| && |titles| <= |dates| && |titles| <= |contents|
      ensures r.Failure? ==> r.error == IndexError
      ensures r.Success? ==> |r.value| == |titles| && forall i :: 0 <= i < |titles| ==>
                r.value[i] == Paste(names[i], titles[i], contents[i], dates[i])
    {
      if titles == [] then Success([])
      else if names == [] || dates == [] || contents == [] then Failure(IndexError)
      else
        match CreatePastes(titles[1..], names[1..], dates[1..], contents[1..])
        case Failure(e) => Failure(e)
        case Success(rest) => Success([Paste(names[0], titles[0], contents[0], dates[0])] + rest)
    }

    /** `update_next_page`: fetch the page the last pagination entry links
        to; with no entry, or no link in it, raise the stop flag and keep the
        page. */
    method UpdateNextPage()
      modifies this`page, this`stopParsing
      ensures match NextPageUrl(old(page).pagination)
        case Some(url) => page == web.listing(url) && stopParsing == old(stopParsing)
        case None => page == old(page) && stopParsing
    {
      var entries := page.pagination;
      if |entries| == 0 {
        stopParsing := true;
        return;
      }
      var last := entries[|entries| - 1];
      if last.None? {
        stopParsing := true;
        return;
      }
      page := web.listing(last.value);
    }

    /** The end of a round whose records are `pastes`: they go to the
        store, the next page is fetched, and the page's count is added to
        the total. */
    method StorePastes(pastes: seq<Paste>)
      modifies this, database
      ensures State() == Advance(web, Stored(old(State()), pastes))
    {
      database.UpdateDataBase(pastes);
      UpdateNextPage();
      newPastes := newPastes + pagePastes;
      pagePastes := 0;
    }

    /** The round after `parse_date` has read `dates`: the other fields, the
        records and their storing, and then the rest of the loop with `rest`
        rounds left. */
    method StorePage(dates: seq<Instant>, ghost rest: nat) returns (error: Option<CrawlError>)
      modifies this, database
      ensures RunStore(web, getDate, old(State()), dates, rest) ==
        if error.Some? then Aborted(error.value, State()) else Run(web, getDate, State(), rest)
    {
      var authors := ParseAuthor();
      var titles := ParseTitle();
      ghost var requested;
      var contents;
      contents, requested := ParseContent();
      var pastes := CreatePastes(titles, authors, dates, contents);
      if pastes.Failure? {
        return Some(pastes.error);
      }
      StorePastes(pastes.value);
      return None;
    }

    /** One round of the loop of `start_parsing`, with `rest` rounds left
        after it: the exception that escapes the round, or the run from the
        state it leaves. */
    method Round(ghost rest: nat) returns (error: Option<CrawlError>)
      modifies this, database
      ensures RunRound(web, getDate, old(State()), rest) ==
        if error.Some? then Aborted(error.value, State()) else Run(web, getDate, State(), rest)
    {
      ghost var c := State();
      ghost var scan := ScanDates(getDate, c.page.dateTexts, c.documents);
      var dates := ParseDate();
      assert State() == Counted(c, scan);
      if dates.Failure? {
        return Some(dates.error);
      }
      error := StorePage(dates.value, rest);
    }

    /** `start_parsing`: parse, store and move on, page after page, until
        the stop flag is raised; the result is the count of new pastes.
        `maxPages` bounds the number of rounds, which the source does not
        bound. */
    method StartParsing(maxPages: nat) returns (r: Result<nat, CrawlError>)
      modifies this, database
      ensures State() == Run(web, getDate, old(State()), maxPages).state
      ensures r == Returned(Run(web, getDate, old(State()), maxPages))
    {
      ghost var start := State();
      var budget := maxPages;
      while !stopParsing && budget > 0
        invariant Run(web, getDate, State(), budget) == Run(web, getDate, start, maxPages)
        decreases budget
      {
        RunGoesOn(web, getDate, State(), budget);
        var error := Round(budget - 1);
        if error.Some? {
          return Failure(error.value);
        }
        budget := budget - 1;
      }
      RunEnds(web, getDate, State(), budget);
      if !stopParsing {
        return Failure(PageBudgetExhausted);
      }
      return Success(newPastes);
    }
  }
}
