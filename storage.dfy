/**
 * The crawl directory as the crawler sees it: one JSON file per stored page,
 * named after the page title, and the checkpoint file `crawl_progress.json`,
 * all in one namespace. File contents are values, not bytes.
 */
module Storage {
  import opened Extract
  import Text

  const ProgressFileName: string := "crawl_progress.json"

  /** What a file of the crawl directory holds, as `json.load` would read it back. */
  datatype FileContent =
    | PageJson(page: PageRecord)
    | ProgressJson(visitedUrls: set<string>, pagesProcessed: int)
    | Unreadable

  /** The part of the crawler that a checkpoint restores. */
  datatype CrawlState = CrawlState(visitedUrls: set<string>, pagesProcessed: nat)

  /**
   * The file a page with this title is written to: the sanitised title with a
   * `.json` suffix. It never contains a path separator, so it stays inside the
   * crawl directory.
   */
  function PageFileName(title: string): (name: string)
    ensures |name| == |title| + 5
    ensures name[..|title|] == Text.SanitizeFilename(title) && name[|title|..] == ".json"
    ensures forall i :: 0 <= i < |name| ==> name[i] != '/' && name[i] != '\\'
  {
    Text.SanitizeFilename(title) + ".json"
  }

  /** The directory after `store_page` wrote `records` one after another, each to its title's file. */
  function WriteAll(files: map<string, FileContent>, records: seq<PageRecord>): map<string, FileContent> {
    if records == [] then files
    else
      var last := records[|records| - 1];
      WriteAll(files, records[..|records| - 1])[PageFileName(last.title) := PageJson(last)]
  }

  /**
   * Writing a run of records creates exactly one file per distinct title file
   * name and no other file.
   */
  lemma {:induction false} WriteAllKeys(files: map<string, FileContent>, records: seq<PageRecord>)
    ensures WriteAll(files, records).Keys == files.Keys + (set r | r in records :: PageFileName(r.title))
  {
    if records != [] {
      var last := records[|records| - 1];
      var before := records[..|records| - 1];
      assert records == before + [last];
      assert (set r | r in records :: PageFileName(r.title)) ==
             (set r | r in before :: PageFileName(r.title)) + {PageFileName(last.title)};
      WriteAllKeys(files, before);
    }
  }

  /**
   * Writing a run of records leaves every file that no record of the run is
   * named to as it was, and the last record of the run wins its file.
   */
  lemma {:induction false} WriteAllUntouched(files: map<string, FileContent>, records: seq<PageRecord>)
    ensures forall k :: k in files && (forall r :: r in records ==> PageFileName(r.title) != k) ==>
              k in WriteAll(files, records) && WriteAll(files, records)[k] == files[k]
    ensures records != [] ==>
              WriteAll(files, records)[PageFileName(records[|records| - 1].title)] == PageJson(records[|records| - 1])
  {
    if records != [] {
      var before := records[..|records| - 1];
      assert forall r :: r in before ==> r in records;
      WriteAllUntouched(files, before);
    }
  }

  /**
   * `load_progress` applied to the directory `files` when the crawler holds
   * `current`: a readable checkpoint restores its visited set and sets the
   * counter to that set's size (the saved counter is ignored); a JSON object
   * without the `visited_urls` key restores the empty set; a missing or
   * unreadable file leaves `current` as it was.
   */
  function Restore(files: map<string, FileContent>, current: CrawlState): CrawlState {
    if ProgressFileName !in files then current
    else
      match files[ProgressFileName]
      case ProgressJson(visited, _) => CrawlState(visited, |visited|)
      case PageJson(_) => CrawlState({}, 0)
      case Unreadable => current
  }

  /**
   * Saving then loading gives back exactly the visited set that was saved; the
   * counter comes back as the size of that set, whatever was saved with it.
   */
  lemma CheckpointRoundTrip(files: map<string, FileContent>, visited: set<string>, saved: int, current: CrawlState)
    ensures Restore(files[ProgressFileName := ProgressJson(visited, saved)], current) == CrawlState(visited, |visited|)
  {
  }

  /**
   * The titles whose page file is the checkpoint file: exactly the 14-character
   * titles that spell `crawl_progress`, except that the `_` may be any of the
   * unsafe characters (`crawl/progress`, `crawl:progress`, ...).
   */
  lemma CheckpointCollidingTitles(title: string)
    ensures PageFileName(title) == ProgressFileName <==>
      |title| == 14 &&
      forall i :: 0 <= i < 14 ==> title[i] == "crawl_progress"[i] || (i == 5 && Text.IsUnsafe(title[i]))
  {
    var name := Text.SanitizeFilename(title);
    var target := "crawl_progress";
    assert ProgressFileName == target + ".json";
    if PageFileName(title) == ProgressFileName {
      assert name == PageFileName(title)[..|title|];
      assert |title| == 14 && name == target;
      forall i | 0 <= i < 14
        ensures title[i] == target[i] || (i == 5 && Text.IsUnsafe(title[i]))
      {
        assert name[i] == target[i];
      }
    }
    if |title| == 14 &&
       forall i :: 0 <= i < 14 ==> title[i] == target[i] || (i == 5 && Text.IsUnsafe(title[i]))
    {
      assert forall i :: 0 <= i < 14 ==> name[i] == target[i];
      assert name == target;
    }
  }

  /**
   * Page files and the checkpoint share one namespace: a page whose title
   * sanitises to `crawl_progress` is written over the checkpoint, and a load
   * made before the checkpoint is written again then restores an empty visited
   * set. The crawler rewrites the checkpoint at its periodic saves and at exit,
   * so only a restart after a run that ended without its final save sees this.
   */
  lemma PageCanOverwriteCheckpoint(files: map<string, FileContent>, page: PageRecord, current: CrawlState)
    requires Text.SanitizeFilename(page.title) == "crawl_progress"
    ensures PageFileName(page.title) == ProgressFileName
    ensures Restore(files[PageFileName(page.title) := PageJson(page)], current) == CrawlState({}, 0)
  {
    assert ProgressFileName == "crawl_progress" + ".json";
  }
}
