# Wiki crawler: a verified model of the crawl engine

This project models `Wiki_Crawler`, the breadth-first Wikipedia crawler of
`Information/wiki_crawler.py`, in Dafny. The crawler keeps a FIFO frontier of
URLs, a visited set that only grows, and a counter of stored pages. It pops one
URL at a time, downloads and parses the page, writes one JSON record per page
into its crawl directory, and appends the page's article links to the frontier.
It checkpoints the visited set and the counter to `crawl_progress.json`.

Modules:

- `Wrappers`: `Option`.
- `Text`: Python's `str.strip()` (`IsSpace` is `str.isspace()`, code point by
  code point) and the file-name sanitiser `re.sub(r'[<>:"/\\|?*]', "_", title)`.
- `Html`: the parsed document, reduced to the four lookups the crawler makes.
  These are the `firstHeading` text, the children of `div.mw-parser-output`,
  the `span.toctext` texts of the `toc` element, and the `href` of every `<a>`.
- `Links`: the article-path pattern `^/wiki/[^:#]*$` and the link filter of
  `extract_links` as a specification function.
- `Extract`: the section-tracking paragraph fold (a specification function and
  the imperative loop proved equal to it), the table of contents, and the page
  record.
- `Storage`: the crawl directory as one map from file name to file content.
  It also holds the checkpoint restore of `load_progress`.
- `Crawler`: the class `WikiCrawler` and the environment `Env` of oracles.
  The class has fields `urlQueue: seq<string>`, `visitedUrls: set<string>`,
  `pagesProcessed: nat` and `files`. Its methods are `LoadProgress`,
  `SaveProgress`, `StorePage`, `ExtractLinks`, `ParsePage`, the work on one
  unvisited URL `ProcessPage`, one loop iteration `Step` with its invariants
  in `Advance`, the loop `Run`, and `Crawl`.
- The same module also describes the crawler's state as a value, `State`,
  and one loop iteration as the function `Next` on it. `Process` is the work
  on one unvisited URL. `WikiCrawler.Snapshot()` reads the object's fields
  into a `State`. `ProcessPage` and `Step` ensure that the new state is
  `Process`, or `Next`, of the old one. `Run` and `Crawl` return the ghost
  sequence `trace` of the states the loop went through. `IsRun` says that
  each state is `Next` of the one before and that the loop guard held before
  each iteration; the trace stops at the first state where it fails.

The outside world is a value of `Env`:

- `fetch` is the HTTP download: None on failure.
- `parse` is BeautifulSoup.
- `urljoin` is `urllib.parse.urljoin`.
- `writeOk` says whether writing a given file of the crawl directory succeeds.
- `interrupted` says whether the user interrupts before a given loop iteration.

Ghost state records what the crawler did:

- `attempts` logs each download, with whether it produced a record.
- `stored` logs each record written to a page file.
- `loadedCount` is the counter as restored at construction.

`WikiCrawler.Valid()` states the dedup invariants, as `Consistent` of the
snapshot. The counter equals the
restored count plus the number of records written. No two written records have
the same URL. A URL whose page produced a record is visited and is never
downloaded again.

The model follows the code as written, including these behaviours that are
easy to miss:

- The counter counts successful page writes. A restart sets it to the size of
  the visited set, not to the saved counter. A URL is marked visited even when
  its record was not written (empty title, failed write), so the restored
  counter can exceed the number of pages actually written.
  `Crawl` proves that the counter grows no faster than the visited set.
- Only URLs whose page produced a record are marked visited. A URL whose
  download failed, or whose page has no title heading, can be downloaded again
  in the same crawl if some later page links to it again.
- The checkpoint is written after every parse attempt at which the counter is
  a multiple of 100. That includes attempts that stored nothing, so a counter
  resting at 0 or 100 checkpoints after each parse attempt. It is always
  written at exit.
- The checkpoint holds the visited set and the counter, not the frontier. A
  restart begins again from the start URL alone. If that URL is already
  visited, the restarted crawl downloads nothing and adds nothing
  (`CrawlThenRestart`).
- Page files and the checkpoint share one directory. A page whose title
  sanitises to `crawl_progress` (such as `crawl/progress` or `crawl:progress`)
  is written over the checkpoint (`CheckpointCollidingTitles`). The next
  periodic save (wiki_crawler.py:183-184) or the save at exit (:188-189)
  writes the checkpoint again. Only a restart that follows a run killed before
  that save loads an empty visited set (`PageCanOverwriteCheckpoint`).

## Model

| member | source | states |
|---|---|---|
| `Text.TrimStartRemovesLeadingSpace` | Information/wiki_crawler.py:124 | the left half of `strip()` removes exactly a whitespace-only prefix and stops at the first other character |
| `Text.TrimEndRemovesTrailingSpace` | Information/wiki_crawler.py:124 | the right half of `strip()` removes exactly a whitespace-only suffix and stops at the last other character |
| `Text.StripIsTrimmedSlice` | Information/wiki_crawler.py:137 | `strip()` returns the slice of the text between the removed whitespace; it neither starts nor ends with whitespace, and it is empty exactly when the text is all whitespace |
| `Text.SanitizeFilename` | Information/wiki_crawler.py:89 | the file name has the title's length; each unsafe character (`<`, `>`, `:`, `"`, `/`, backslash, vertical bar, `?`, `*`) becomes `_` and every other character stays where it was |
| `Text.SanitizeIdempotent` | Information/wiki_crawler.py:89 | a sanitised name holds none of the unsafe characters, and sanitising it again gives the same name |
| `Links.ArticleHrefIsPattern` | Information/wiki_crawler.py:27 | `re.match(r"^/wiki/[^:#]*$", href)` succeeds exactly when the href starts with `/wiki/` and the rest has no `:` and no `#`; this includes how `$` may match before a final newline |
| `Links.FilterLinks` | Information/wiki_crawler.py:102-111 | the links are never more than the anchors, and none of them is in the visited set |
| `Links.FilterLinksMembers` | Information/wiki_crawler.py:105-110 | a URL is extracted if and only if it is not visited and some anchor's article-path href resolves to it |
| `Links.FilterLinksAppend` | Information/wiki_crawler.py:104-111 | the links of two consecutive runs of anchors are the first run's links followed by the second's, so document order is kept |
| `Extract.RecordedPositions` | Information/wiki_crawler.py:137 | lists, in strictly increasing order, exactly the positions of the `p` children whose stripped text is not empty |
| `Extract.CurrentSectionIsLatestHeading` | Information/wiki_crawler.py:133-136 | the current section is `""` while no `h2` child has been seen; otherwise it is the stripped text of the last `h2` child |
| `Extract.ParagraphsFollowChildren` | Information/wiki_crawler.py:133-140 | the j-th recorded paragraph comes from the j-th recorded `p` child; it holds that child's stripped text, under the section in force just before the child |
| `Extract.ContentParagraphs` | Information/wiki_crawler.py:131-140 | the loop that tracks `current_section` returns exactly the paragraphs of the specification fold |
| `Extract.TableOfContents` | Information/wiki_crawler.py:143-148 | a page without a TOC element has an empty outline; otherwise the outline has one stripped label per TOC item, in order |
| `Storage.WriteAllKeys` | Information/wiki_crawler.py:89-94 | writing a run of page records one after another creates exactly one file per distinct title file name, and no other file |
| `Storage.WriteAllUntouched` | Information/wiki_crawler.py:89-94 | writing a run of page records leaves every file that no record is named to as it was, and the last record of the run wins its file |
| `Storage.PageFileName` | Information/wiki_crawler.py:89-90 | a page's file is its sanitised title followed by `.json`, and the name has no path separator |
| `Storage.CheckpointRoundTrip` | Information/wiki_crawler.py:41-60 | loading a checkpoint just saved restores exactly the saved visited set, with the counter equal to that set's size |
| `Storage.CheckpointCollidingTitles` | Information/wiki_crawler.py:89-90 | a page's file is the checkpoint file exactly when its title has 14 characters spelling `crawl_progress`, where the `_` may also be any unsafe character |
| `Storage.PageCanOverwriteCheckpoint` | Information/wiki_crawler.py:89-90 | any page whose title sanitises to `crawl_progress` is written to `crawl_progress.json`, and a load before the checkpoint is saved again restores an empty visited set and a counter of 0 |
| `Crawler.Download` | Information/wiki_crawler.py:173-175 | download content is usable exactly when the fetch succeeded with a non-empty body |
| `Crawler.VisitLinksInUniverse` | Information/wiki_crawler.py:151-153 | every link extracted from a page of a link-closed set of URLs lies in that set |
| `Crawler.WikiCrawler.constructor` | Information/wiki_crawler.py:20-34 | the frontier is the start URL alone; visited set and counter are what the checkpoint restores; the invariant holds |
| `Crawler.WikiCrawler.LoadProgress` | Information/wiki_crawler.py:36-49 | a readable checkpoint restores its visited set and sets the counter to its size; a JSON object without `visited_urls` restores the empty set; a missing or unreadable file changes nothing |
| `Crawler.WikiCrawler.SaveProgress` | Information/wiki_crawler.py:51-65 | the checkpoint file is replaced wholesale by the current visited set and counter, or left as it was if the write fails |
| `Crawler.WikiCrawler.StorePage` | Information/wiki_crawler.py:84-100 | an empty title or a failed write changes nothing; a successful write puts the record in its title's file and raises the counter by exactly 1 |
| `Crawler.WikiCrawler.ExtractLinks` | Information/wiki_crawler.py:102-111 | the loop over the anchors returns exactly the specified links, filtered against the current visited set |
| `Crawler.WikiCrawler.ParsePage` | Information/wiki_crawler.py:113-155 | None exactly when there is no title heading, and then the frontier is unchanged; otherwise the record has the stripped title, the sectioned paragraphs, the links and the outline, and the frontier is the old one followed by exactly those links |
| `Crawler.WikiCrawler.ProcessPage` | Information/wiki_crawler.py:172-184 | an unvisited URL is downloaded exactly once and logged with the counter at that moment; without usable content or without a record the frontier, the visited set, the counter and the page files stay as they were; with a record its links are enqueued and it is marked visited; the counter rises by one exactly when the page file is written; the directory is the old one with that page file written, and with the checkpoint on top when a parse attempt leaves the counter a multiple of 100 and the checkpoint file can be written; the whole new state is `Process` of the old |
| `Crawler.WikiCrawler.Step` | Information/wiki_crawler.py:160-184 | pops exactly the head; a visited head is never downloaded and changes nothing else; otherwise the head is processed as above; at most one download is logged, the counter rises by at most one and no faster than visited, and a new download is of a URL not visited before, logged with the counter it was made at; the whole new state is `Next` of the old |
| `Crawler.WikiCrawler.Advance` | Information/wiki_crawler.py:160-184 | one iteration, made while the loop guard holds, turns the state into `Next` of it and extends a run of the loop by that state; the frontier stays inside a link-closed set of URLs, and either a new URL of that set becomes visited or the frontier gets shorter |
| `Crawler.WikiCrawler.Run` | Information/wiki_crawler.py:160-184 | the loop goes from the start state to the final state through `trace`, one `Next` per iteration, and `iterations` counts them; the guard (non-empty frontier, counter below `max_pages`, no interrupt) held before each of them and fails at the end, so the loop stops at the first interrupt; every download is made with the counter below `max_pages`; a start counter at or above `max_pages` pops and downloads nothing; the visited set grows by exactly the URLs whose page gave a record, and the directory is the old one with the records written in order, except perhaps for the checkpoint file |
| `Crawler.WikiCrawler.Crawl` | Information/wiki_crawler.py:157-192 | runs the loop through `trace` as `Run` does, stopping at the first failed guard, and no interrupt came before the last iteration; the final state is the loop's last state with the checkpoint saved; every download is made with the counter below `max_pages`, so the counter never exceeds the larger of `max_pages` and its start value; no URL visited at the start is downloaded; a frontier of visited URLs fetches nothing; the visited set grows by exactly the URLs whose page gave a record; the directory is the old one with the records written in order, and with the final checkpoint of the final state on top when the checkpoint file can be written |
| `Crawler.ProcessLogs` | Information/wiki_crawler.py:172-181 | `Process` logs exactly one attempt, with the URL, whether it gave a record and the counter of the moment; the URL becomes visited exactly when it gave a record; the counter rises by at most one and only on a record; at most one record is stored |
| `Crawler.ProcessDirectory` | Information/wiki_crawler.py:178-184 | `Process` leaves the directory as the old one with at most the page it stored written, except perhaps for the checkpoint file, which it cannot touch when checkpoint writes fail |
| `Crawler.ProcessConsistent` | Information/wiki_crawler.py:172-181 | processing an unvisited URL keeps the counter equal to the restored count plus the records written, and keeps written records and recorded downloads free of repeated URLs |
| `Crawler.ProcessIs` | Information/wiki_crawler.py:172-184 | a state that agrees field by field with what processing a URL does is `Process` of the old state |
| `Crawler.NextFacts` | Information/wiki_crawler.py:160-184 | one iteration logs at most one attempt, for a URL not visited before and at the counter of the moment; only that URL, when recorded, becomes visited; the counter rises by at most one and no faster than visited; at most one page is stored and written; a visited head is only dropped |
| `Crawler.ReachesStep` | Information/wiki_crawler.py:160-184 | one more iteration made while the guard holds keeps everything `Reaches` says about the states since the start: nothing forgotten, every download of a URL unvisited at the start and under the page budget, the visited set and directory grown by the recorded URLs and written pages, and an all-visited frontier fetching nothing |
| `Crawler.RunReaches` | Information/wiki_crawler.py:160-184 | every run of the loop reaches its last state from its first in the sense of `Reaches`, and a run that starts with the counter at or above `max_pages` makes no iteration |
| `Crawler.IsRunExtend` | Information/wiki_crawler.py:160-162 | a run extended by one iteration whose guard held is still a run |
| `Crawler.RunNotInterrupted` | Information/wiki_crawler.py:160 | along a run no interrupt came before any iteration but the last state |
| `Crawler.CrawlThenRestart` | Information/wiki_crawler.py:20-44 | when the checkpoint file can be written: after a crawl and a restart, the restored visited set is exactly the one the crawl ended with, and its size is the restored counter; if the start page was visited, the restarted crawl downloads nothing and ends with the same visited set |

## Left out

- The HTTP request, its headers and the random 1 to 3 second delay of
  `download_page` are not modelled. The download is the `fetch` oracle, a
  function of the URL.
- The HTML parser is not modelled. A document is the four lookups in
  `Html.Document`, and the parser is the `parse` oracle.
- `urllib.parse.urljoin` is not modelled. It is the `urljoin` oracle, so the
  reference resolution of RFC 3986 (section 5.2) and dot-segment removal are
  not part of this model.
- JSON encoding, file handles and creating the directory are not modelled.
  Files hold values (`Storage.FileContent`). Whether a write succeeds is
  decided by the file's name alone. A failed write leaves the directory
  unchanged, and a partially written file is not modelled.
- Crawler.WikiCrawler.Crawl: requires a finite set of URLs that holds the
  frontier and holds every article link resolved from a recorded page of the
  set. This is what makes the loop terminate; in the source, an unbounded link graph with failing page writes
  can keep the loop running forever.
- Crawler.WikiCrawler.Crawl: models `KeyboardInterrupt` only as a stop polled
  at the top of each iteration. An interrupt in the middle of an iteration can
  lose the URL just popped; that case is not modelled. The final checkpoint is
  still written on every exit.
- Crawler.WikiCrawler.LoadProgress: does not model a checkpoint that parses as
  JSON but whose `visited_urls` is not a list of strings.
- The `max_pages=10000` default, the `start_url` and `directory` attributes
  beyond their use above, and logging are not modelled.
- `run_crawler` and `main` start one thread per configured crawler. The
  crawlers share no state, so each is one `WikiCrawler`; threads are not
  modelled.
- `Information/youtube_api.py` is not part of this model: it is a thin client
  of a video API with no crawl logic.
