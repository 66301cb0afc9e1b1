# Incremental paste-site crawler, modelled in Dafny

`Crawler.py` crawls a paginated listing of pastes. `HtmlScraper.start_parsing` processes one listing page per round:

- `parse_date` reads each row's date text with `get_date`.
- It counts the leading rows whose date is not yet stored. It stops at the first stored date and raises `stop_parsing` when it stopped before the end of the page.
- `parse_author`, `parse_title` and `parse_content` each take that many rows of their own column. `parse_content` fetches each detail page and keeps its non-blank lines.
- `create_pastes` zips the columns into `PasteModel` records.
- `DataBase.update_data_base` inserts them into a TinyDB table, keyed in practice by the date text.
- `update_next_page` follows the link of the last pagination entry, or raises the stop flag. It runs in every round that does not raise, including the round whose `parse_date` has just raised the stop flag (`Crawler.py:93`). So the listing page after the last one parsed is requested and read into a tree (`Crawler.py:94`), but never scraped; `CrawlProperties.FollowsLinkEvenWhenStopping` states this.
- The page's count is added to the running total.

The loop ends when the stop flag is up, and `start_parsing` returns the total.

The model has six modules:

- `Results` (`results.dfy`): `Option`, `Result` and a few generic sequence facts.
- `PyStr` (`pystr.dfy`): the Python string operations the crawler relies on, proved against their meaning:
  - `str.lower` on ASCII letters;
  - `in`;
  - `str.replace`, which replaces every occurrence scanned left to right without overlap (described with the leftmost occurrence, `Find`);
  - `str.strip`.
- `Dates` (`dates.dfy`):
  - the noise removal and month substitution of `get_date`;
  - a strict reader of the `DD-MM-YYYY HH:mm:ss` form, which stands for `arrow.get`;
  - `str()` of the instant, which is `YYYY-MM-DDTHH:mm:ss+00:00`.
- `Store` (`store.dfy`): `PasteModel` as the datatype `Paste`, the stored document, and the class `DataBase` over an in-memory sequence of documents.
- `Scraper` (`scraper.dfy`):
  - a listing page as a `Page` of pre-extracted columns;
  - the network as a `Web` of two functions, one from a listing address to a page and one from a detail address to its text lines;
  - pure specification functions for each step and for the whole loop (`Run`, bounded by a number of rounds);
  - the class `HtmlScraper`, whose imperative methods are proved against them.
- `CrawlProperties` (`crawl_properties.dfy`) and `DateExample` (`date_example.dfy`): properties of single rounds and of whole runs, the reference definition of content flattening, and a worked date example.

Exceptions become values:

- `arrow`'s parser error and `create_pastes`'s `IndexError` are `CrawlError`s.
- A round that raises ends the run with the error and with the state as it was when the error was raised.

## Model

| member | source | states |
|---|---|---|
| Store.DataBase.constructor | Crawler.py:224-225 | the store starts with the given documents |
| Store.DataBase.UpdateDataBase | Crawler.py:227-235 | the store becomes the old documents followed by one document per paste, in list order, with the date kept as the instant's text |
| Store.DataBase.QueryDate | Crawler.py:237-243 | true exactly when some stored document has that date text |
| Store.DataBase.ClearDb | Crawler.py:245-250 | the store is empty afterwards |
| Store.DataBase.GetNumberOfDocuments | Crawler.py:252-257 | the number of stored documents |
| Store.Paste | Crawler.py:17-23 | `PasteModel`: author, title and content texts and the paste's instant, a value with no contract |
| Store.ToDocument | Crawler.py:234-235 | the document inserted for one paste, its date as the instant's text, defined without a contract; `Store.DataBase.UpdateDataBase` and `Store.StoredInstant` use it |
| Store.ToDocuments | Crawler.py:233-235 | one document per paste, document `i` built from paste `i` |
| Store.HasDate | Crawler.py:243 | `contains(where('date') == v)`: true exactly when some document's date equals `v` |
| Store.HasDateConcat | Crawler.py:233-243 | after appending, a date is present exactly when it was present before or is among the new documents |
| Store.StoredInstant | Crawler.py:195 | for valid instants, querying the store by the instant's text finds exactly the pastes with that instant |
| Dates.InstantTextInjective | Crawler.py:195 | distinct valid instants have distinct `str()` texts, so the date query is a query by instant |
| Dates.MonthNames | Crawler.py:55-56 | the keys of `month_dict` in insertion order, a constant; `Dates.MonthTable` states its shape |
| Dates.MonthNumbers | Crawler.py:55-56 | the values of `month_dict` in the same order, a constant; `Dates.MonthTable` states its shape |
| Dates.MonthTable | Crawler.py:55-56 | twelve months, each a three-letter lower-case name whose number is the two-digit form of its position plus one |
| Dates.RemoveNoise | Crawler.py:69-70 | the noise-removal step: lower-casing, then the deletions in source order, defined without a contract; `Dates.GetDate` and `DateExample.WorkedExample` use it |
| Dates.SubstituteMonth | Crawler.py:71-74 | the month step, defined without a contract; `Dates.SubstituteFirstMonth`, `Dates.NoMonthUnchanged` and `Dates.UndelimitedMonthUnchanged` state its meaning |
| Dates.CleanDate | Crawler.py:69-74 | the text handed to `arrow.get`: noise removed, stripped, month substituted, defined without a contract; `Dates.GetDate` states its meaning |
| Dates.InstantText | Crawler.py:235 | `str()` of an instant, defined without a contract; `Dates.InstantTextInjective` and `Store.StoredInstant` state its meaning |
| Dates.GetDate | Crawler.py:63-75 | a date is produced only for a cleaned text that is exactly the `DD-MM-YYYY HH:mm:ss` form of a valid instant |
| Dates.FormatDmy | Crawler.py:75 | the `'DD-MM-YYYY HH:mm:ss'` form of an instant, defined without a contract; `Dates.ParseFormat` and `Dates.GetDate` state its meaning |
| Dates.DaysInMonth | Crawler.py:75 | the length of a month in the Gregorian calendar that `arrow.get` checks, leap years included, defined without a contract; `Dates.ValidInstant` uses it |
| Dates.ValidInstant | Crawler.py:75 | the instants `arrow.get` accepts: a real calendar date in years 1 to 9999 and a time of day, defined without a contract; `Dates.ParseInstant` and `Dates.ParseFormat` state its meaning |
| Dates.ParseFormat | Crawler.py:75 | reading the `DD-MM-YYYY HH:mm:ss` form of any valid instant gives that instant back |
| Dates.ParseInstant | Crawler.py:75 | whatever is read is a valid instant whose printed form is the text read |
| Dates.FirstMonthFrom | Crawler.py:71-72 | the first month of the table, in `jan`…`dec` order, that occurs anywhere in the text; none when no month occurs |
| Dates.SubstituteFirstMonth | Crawler.py:71-74 | when month `m` is the first of the table to occur, the text has every space-delimited `m` replaced by its number between hyphens and no other month replaced |
| Dates.NoMonthUnchanged | Crawler.py:71-74 | text naming no month is left as it is |
| Dates.UndelimitedMonthUnchanged | Crawler.py:71-74 | when the first month found does not stand between spaces, nothing is substituted, even if a later month does |
| Dates.NumberOfDigits | Crawler.py:75 | a number printed with a field width reads back as itself |
| Dates.DigitsOfNumber | Crawler.py:75 | a string of digits is the printed form of its own value |
| DateExample.WorkedExample | Crawler.py:63-75 | `"Posted by Anonymous at 05 Mar 2024 13:45:00 UTC"` cleans to `"05-03-2024 13:45:00"`, reads as 5 March 2024 13:45:00, and is stored as `"2024-03-05T13:45:00+00:00"` |
| PyStr.Contains | Crawler.py:69-73 | `in`: true exactly when the pattern occurs at some position |
| PyStr.ReplaceAll | Crawler.py:69-73 | `str.replace` written as a left-to-right scan, defined without a contract; `PyStr.ReplaceAtFind` and `PyStr.ReplaceAbsent` state its meaning |
| PyStr.Strip | Crawler.py:70 | `str.strip` as leading then trailing whitespace removed, defined without a contract; `PyStr.StripSpec` states its meaning |
| PyStr.Lower | Crawler.py:69 | `str.lower`: same length, each ASCII capital lowered and every other character kept |
| PyStr.Find | Crawler.py:69-73 | the leftmost occurrence of a pattern, the one `replace` acts on first, or `-1` exactly when the pattern does not occur; `PyStr.ReplaceAtFind` is stated with it |
| PyStr.ReplaceAtFind | Crawler.py:69-73 | `str.replace`: the text up to the leftmost occurrence, the replacement, then the rest replaced in turn; the text itself when there is no occurrence |
| PyStr.ReplaceAbsent | Crawler.py:69-73 | replacing a pattern that does not occur changes nothing |
| PyStr.StripSpec | Crawler.py:70 | `str.strip`: a contiguous piece of the text, only whitespace cut on either side, no whitespace at either end of the result |
| PyStr.StripIdempotent | Crawler.py:70 | stripping twice is stripping once |
| PyStr.StripEmptyIffBlank | Crawler.py:177 | the stripped line is empty exactly when the line is all whitespace |
| Scraper.ScanDates | Crawler.py:191-198 | the walk over the page's date texts: never more dates than texts, and it ends at the end of the page exactly when every text was counted; `Scraper.ScanDatesDescribes` and `Scraper.ScanDatesUnique` state the rest |
| Scraper.Counted | Crawler.py:198-200 | the fields `parse_date` leaves: the count raised by the walk's dates and the stop flag raised when the walk ended early at a stored date, defined without a contract; `Scraper.HtmlScraper.ParseDate` and `CrawlProperties.StopIffHit` state its meaning |
| Scraper.ScanDatesDescribes | Crawler.py:191-198 | the walk's dates are the leading dates of the page that read and are not stored, in page order; it ends at the first stored date, at a text that is no date, or at the end of the page |
| Scraper.ScanDatesUnique | Crawler.py:191-198 | the walk is the only outcome that fits that description |
| CrawlProperties.AllNewPage | Crawler.py:193-198 | a page with no stored date is walked to its end, and every date text of the page is counted |
| CrawlProperties.FirstStoredAt | Crawler.py:193-198 | when the first stored date is the `k`-th text, exactly the `k` dates before it are counted |
| Scraper.HtmlScraper.ParseDate | Crawler.py:183-201 | the returned dates are the walk's dates; `page_pastes` grows by their number; the stop flag is raised exactly when that count falls short of the page; the parser error escapes with the flag untouched |
| CrawlProperties.StopIffHit | Crawler.py:199-200 | at the start of a round the stop flag is up after `parse_date` exactly when a stored date was met, and otherwise every text of the page was counted |
| Scraper.AuthorName | Crawler.py:131-134 | the row's first link text, or `""` when the row has no link, defined without a contract; `Scraper.Authors` states its meaning |
| Scraper.Authors | Crawler.py:122-137 | `min(rows, page_pastes)` names, name `i` being the first link's text of row `i` or `""` when the row has none |
| Scraper.HtmlScraper.ParseAuthor | Crawler.py:116-137 | returns those names |
| Scraper.Titles | Crawler.py:145-154 | `min(titles, page_pastes)` titles, title `i` being the stripped heading of row `i` |
| Scraper.HtmlScraper.ParseTitle | Crawler.py:139-154 | returns those titles |
| Scraper.Contents | Crawler.py:163-181 | `min(links, page_pastes)` contents, content `i` being the flattened detail page of link `i` |
| Scraper.HtmlScraper.ParseContent | Crawler.py:156-181 | returns those contents; the addresses it requests (the ghost output `requested`) are exactly the first `min(links, page_pastes)` content links, in page order |
| Scraper.Piece | Crawler.py:177-178 | what one line adds to the content, defined without a contract; `CrawlProperties.PieceOf` states its meaning |
| Scraper.Flatten | Crawler.py:175-178 | the content built from the lines, first to last, defined without a contract; `CrawlProperties.FlattenIsJoinedNonBlank` states its meaning |
| Scraper.FlattenLines | Crawler.py:175-178 | the content built by the line loop is `Flatten` of the lines |
| CrawlProperties.FlattenIsJoinedNonBlank | Crawler.py:175-178 | the content is the non-blank lines, in order, each followed by a line feed |
| CrawlProperties.PieceOf | Crawler.py:177-178 | a line contributes itself and a line feed, or nothing when it is all whitespace |
| CrawlProperties.BlankLineVanishes | Crawler.py:176-178 | a blank line, wherever it stands, does not change the content |
| CrawlProperties.FlattenConcat | Crawler.py:176-178 | the content of two runs of lines is the two contents joined |
| Scraper.HtmlScraper.CreatePastes | Crawler.py:203-217 | succeeds exactly when no list is shorter than the titles, with one record per title and record `i` made of element `i` of each list; otherwise IndexError |
| Scraper.HtmlScraper.UpdateNextPage | Crawler.py:99-114 | the page becomes the listing the last pagination entry links to; with no entry, or no link in it, the stop flag is raised and the page kept |
| Scraper.HtmlScraper.constructor | Crawler.py:54-61 | the totals start at 0 and the stop flag down |
| Scraper.Records | Crawler.py:88-91 | `create_pastes` over the title, author and content columns, each taken up to the page's count, defined without a contract; `CrawlProperties.RoundStores` and `CrawlProperties.CoveredRoundStores` state its meaning |
| Scraper.Stored | Crawler.py:92 | `update_data_base` on the crawl state: the records' documents appended to the store, defined without a contract; `CrawlProperties.RoundStores` states its meaning |
| Scraper.NextPageUrl | Crawler.py:111 | the link of the last pagination entry, none when there is no entry, defined without a contract; `Scraper.HtmlScraper.UpdateNextPage` uses it |
| Scraper.Advance | Crawler.py:93-96 | the end of a round: the next page or the stop flag, then the count added to the total and reset, defined without a contract; `CrawlProperties.RoundStores` states its meaning |
| Scraper.Run | Crawler.py:86-97 | the loop of `start_parsing` for at most `fuel` rounds, defined without a contract; `CrawlProperties.RoundStores`, `CrawlProperties.RunAppendOnly` and `Scraper.RunFuelMonotone` state its meaning |
| Scraper.Pass | Crawler.py:86-87 | one more round when rounds are left, defined without a contract; part of `Run` |
| Scraper.RunRound | Crawler.py:87-96 | `parse_date`, whose parser error ends the run, then `RunStore`, defined without a contract; `CrawlProperties.RoundFails` states its meaning |
| Scraper.RunStore | Crawler.py:88-96 | the other columns, the records (an IndexError ends the run), the store and `Advance`, defined without a contract; `CrawlProperties.RoundStores` states its meaning |
| Scraper.RunFuelMonotone | Crawler.py:86-97 | a run that ends within `f` rounds ends the same way with any larger bound, so the bound never changes a finished result |
| Scraper.Returned | Crawler.py:97 | what `start_parsing` returns, the total, or the exception that escapes the loop; `PageBudgetExhausted` when the model's round bound ran out, defined without a contract; `Scraper.HtmlScraper.StartParsing` and `CrawlProperties.ReturnedIsStoredCount` state its meaning |
| Scraper.HtmlScraper.Round | Crawler.py:87-96 | one pass of the loop body: the escaping exception and the state it leaves, or the rest of the run from the new state, agree with `RunRound` |
| Scraper.HtmlScraper.StorePage | Crawler.py:88-96 | the round after `parse_date`: agrees with `RunStore` |
| Scraper.HtmlScraper.StorePastes | Crawler.py:92-96 | the new state is `Advance` of the store with the records appended |
| Scraper.HtmlScraper.StartParsing | Crawler.py:77-97 | the state and the result are those of `Run`, the loop's specification, from the starting state |
| CrawlProperties.RoundStores | Crawler.py:86-96 | a round stores exactly the new rows' records, in order, after the old documents; adds the page's count to the total and resets it; follows the pagination link or raises the stop flag; then the loop goes on from there |
| CrawlProperties.RoundFails | Crawler.py:87-91 | a round that raises leaves the store and the total as they were |
| CrawlProperties.StoredAreNovel | Crawler.py:191-198 | every record a round stores carries the date of its own row, and that date was not in the store before the round |
| CrawlProperties.FollowsLinkEvenWhenStopping | Crawler.py:86-94 | the round that meets a stored date still requests the next listing page before the loop ends |
| CrawlProperties.RunAppendOnly | Crawler.py:86-97 | over a whole run the store only grows at the end, and the total only grows |
| CrawlProperties.CoveredRoundStores | Crawler.py:203-217 | when every date row has its title, author and content cells, the records can always be put together, one per new date |
| CrawlProperties.RunCountsStored | Crawler.py:86-97 | on such pages no IndexError escapes, and the total grows by exactly the number of documents stored |
| CrawlProperties.ReturnedIsStoredCount | Crawler.py:97 | on such pages what `start_parsing` returns is the starting total plus the number of documents stored |
| CrawlProperties.NewestStoredAddsNothing | Crawler.py:86-97 | when the first row of the page is already stored, the run ends after one round with nothing stored, returning the total it started from |
| CrawlProperties.SelfLinkedEmptyPage | Crawler.py:86-114 | a listing page with no rows whose last entry links back to itself never raises the stop flag, so the loop has no end |

## Left out

- Network: `requests.get` and the proxy table are not modelled. A listing page and a detail page are whatever the `Web` functions give for an address. A request that fails, and the exception handling of `Crawler.start_crawling`, are not modelled.
- HTML: `lxml` parsing and the CSS and XPath selectors are not modelled. A page is given as its columns:
  - the date texts;
  - per row, the author link text if the row has a link;
  - the title texts;
  - the content link addresses;
  - per pagination entry, its first link address if it has one.
- HTML content the model does not represent: a heading without text, a link without an `href`, and an author link without text (Python's `None`). Titles and addresses are always strings here. For an author link without text, `parse_author` stores `None` as the author (`Crawler.py:134`); the model takes the link text as a string, so that case has no counterpart.
- `Dates.ParseInstant`: stands for `arrow.get(text, 'DD-MM-YYYY HH:mm:ss')` as a strict reader (two-digit day, month, hour, minute and second, a four-digit year, a real calendar date). `arrow`'s other tolerances and its error messages are not modelled.
- Arrow's own `str()` layout is written out as `YYYY-MM-DDTHH:mm:ss+00:00`. Sub-second parts and time zones are not modelled.
- `PyStr.Lower`: lowers ASCII capitals only. `PyStr.Strip`: strips the ASCII whitespace set. Python's full Unicode tables are not modelled.
- TinyDB: its on-disk format, document ids and caching are not modelled. The table is an in-memory sequence of documents.
- Scheduling and the process: `job`, `main`, `schedule`, `time.sleep` and `atexit` are not modelled.
- `Scraper.HtmlScraper.StartParsing`: takes a bound `maxPages` on the number of rounds, which the source does not have. A run that uses the bound up ends in `PageBudgetExhausted`, which the source never returns. `Scraper.RunFuelMonotone` shows that the bound changes nothing for a run that ends within it. `CrawlProperties.SelfLinkedEmptyPage` shows a site on which the source would loop for ever.
