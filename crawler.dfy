/**
 * The crawl engine `Wiki_Crawler`: a FIFO frontier, a growing visited set, a
 * counter of stored pages and the crawl directory, driven one URL at a time.
 */
module Crawler {
  import opened Wrappers
  import opened Html
  import opened Links
  import opened Extract
  import opened Storage
  import Text

  /**
   * The collaborators of one crawl, each reduced to a function of its inputs:
   * the HTTP download, the HTML parser, URL resolution, whether writing a file
   * of the crawl directory succeeds, and whether the user has interrupted the
   * crawl before the given loop iteration.
   */
  datatype Env = Env(
    fetch: string -> Option<string>,
    parse: string -> Document,
    urljoin: (string, string) -> string,
    writeOk: string -> bool,
    interrupted: nat -> bool)

  /**
   * One download attempt: the URL, whether `parse_page` returned a record for
   * it, and the counter `pages_processed` when it was made.
   */
  datatype Attempt = Attempt(url: string, recorded: bool, counter: nat)

  /**
   * `download_page` followed by `if not content`: the downloaded text, or None
   * when the download failed or returned an empty body.
   */
  function Download(env: Env, url: string): (content: Option<string>)
    ensures content.Some? <==> env.fetch(url).Some? && env.fetch(url).value != ""
    ensures content.Some? ==> content == env.fetch(url)
  {
    match env.fetch(url)
    case Some(text) => if text != "" then Some(text) else None
    case None => None
  }

  /** Visiting `url` yields a record: usable content whose document has a title heading. */
  predicate Recorded(env: Env, url: string) {
    Download(env, url).Some? && env.parse(Download(env, url).value).firstHeading.Some?
  }

  /** The record built for `url` while the visited set is `visited`. */
  function Visit(env: Env, url: string, visited: set<string>): PageRecord
    requires Recorded(env, url)
  {
    var doc := env.parse(Download(env, url).value);
    RecordOf(url, doc, FilterLinks(doc.anchors, url, visited, env.urljoin))
  }

  /** `store_page` writes this record: its title is not empty and its file can be written. */
  predicate StoreSucceeds(env: Env, data: PageRecord) {
    data.title != "" && env.writeOk(PageFileName(data.title))
  }

  /** Every href present on the page that `url` downloads to. */
  ghost function PageHrefs(env: Env, url: string): set<string> {
    match env.fetch(url)
    case None => {}
    case Some(content) => set a | a in env.parse(content).anchors && a.Some? :: a.value
  }

  /** Resolving any article href of a recorded page in `universe` gives a URL in `universe`. */
  ghost predicate LinksStayIn(env: Env, universe: set<string>) {
    forall u, h :: u in universe && Recorded(env, u) && h in PageHrefs(env, u) && IsArticleHref(h) ==> env.urljoin(u, h) in universe
  }

  /** Every link found on a recorded page of a closed universe lies in that universe. */
  lemma VisitLinksInUniverse(env: Env, universe: set<string>, url: string, visited: set<string>)
    requires LinksStayIn(env, universe) && url in universe && Recorded(env, url)
    ensures forall l :: l in Visit(env, url, visited).links ==> l in universe
  {
    var doc := env.parse(Download(env, url).value);
    forall l | l in Visit(env, url, visited).links ensures l in universe {
      FilterLinksMembers(doc.anchors, url, visited, env.urljoin, l);
      var i :| 0 <= i < |doc.anchors| && doc.anchors[i].Some? && IsArticleHref(doc.anchors[i].value)
               && env.urljoin(url, doc.anchors[i].value) == l;
      assert doc.anchors[i] in doc.anchors;
      assert doc.anchors[i].value in PageHrefs(env, url);
    }
  }

  /**
   * The state of a crawler as a value: the frontier, the visited set, the
   * counter, the crawl directory, and the logs of downloads and stored records.
   */
  datatype State = State(queue: seq<string>, visited: set<string>, processed: nat,
                         files: map<string, FileContent>, attempts: seq<Attempt>, stored: seq<PageRecord>)

  /** `save_progress` on a state: the checkpoint of its visited set and counter, if it can be written. */
  function Save(env: Env, s: State): State {
    if env.writeOk(ProgressFileName)
    then s.(files := s.files[ProgressFileName := ProgressJson(s.visited, s.processed)])
    else s
  }

  /**
   * The body of the loop of `crawl` after the visited check, on a state whose
   * frontier no longer holds `url`: one logged download; with usable content
   * a parse, and on a record its links enqueued, its page stored if the write
   * succeeds and the URL marked visited; then the checkpoint when the counter
   * is a multiple of 100.
   */
  function Process(env: Env, s: State, url: string): State {
    var logged := s.(attempts := s.attempts + [Attempt(url, Recorded(env, url), s.processed)]);
    if Download(env, url).None? then logged
    else
      var parsed :=
        if !Recorded(env, url) then logged
        else
          var rec := Visit(env, url, s.visited);
          var marked := logged.(queue := s.queue + rec.links, visited := s.visited + {url});
          if StoreSucceeds(env, rec)
          then marked.(processed := s.processed + 1, stored := s.stored + [rec],
                       files := s.files[PageFileName(rec.title) := PageJson(rec)])
          else marked;
      if parsed.processed % 100 == 0 then Save(env, parsed) else parsed
  }

  /** One iteration of the loop of `crawl`: pop the head, and skip it if visited or process it. */
  function Next(env: Env, s: State): State
    requires s.queue != []
  {
    var head := s.queue[0];
    if head in s.visited then s.(queue := s.queue[1..])
    else Process(env, s.(queue := s.queue[1..]), head)
  }

  /** The guard of the loop of `crawl` before iteration `k`. */
  predicate Continues(env: Env, maxPages: int, s: State, k: nat) {
    s.queue != [] && s.processed < maxPages && !env.interrupted(k)
  }

  /**
   * `trace` is a run of the loop: before each iteration but the last state the
   * guard held, and each state is the iteration applied to the one before.
   */
  ghost predicate IsRun(env: Env, maxPages: int, trace: seq<State>) {
    forall k :: 0 <= k < |trace| - 1 ==>
      Continues(env, maxPages, trace[k], k) && trace[k + 1] == Next(env, trace[k])
  }

  /** A run extended by one iteration whose guard held is a run. */
  lemma IsRunExtend(env: Env, maxPages: int, trace: seq<State>, s: State)
    requires trace != [] && IsRun(env, maxPages, trace)
    requires Continues(env, maxPages, trace[|trace| - 1], |trace| - 1)
    requires s == Next(env, trace[|trace| - 1])
    ensures IsRun(env, maxPages, trace + [s])
  {
    var t := trace + [s];
    forall k | 0 <= k < |t| - 1
      ensures Continues(env, maxPages, t[k], k) && t[k + 1] == Next(env, t[k])
    {
      assert t[k] == trace[k];
    }
  }

  /** Along a run, the guard held before every iteration but the last: no interrupt came earlier. */
  lemma RunNotInterrupted(env: Env, maxPages: int, trace: seq<State>)
    requires IsRun(env, maxPages, trace)
    ensures forall k :: 0 <= k < |trace| - 1 ==> !env.interrupted(k)
  {
    forall k | 0 <= k < |trace| - 1 ensures !env.interrupted(k) {
      assert Continues(env, maxPages, trace[k], k);
    }
  }

  /** The URLs of the attempts in `log` whose page gave a record. */
  ghost function RecordedUrls(log: seq<Attempt>): set<string> {
    set i | 0 <= i < |log| && log[i].recorded :: log[i].url
  }

  /** The recorded URLs of two logs run one after the other are those of each. */
  lemma RecordedUrlsConcat(log: seq<Attempt>, more: seq<Attempt>)
    ensures RecordedUrls(log + more) == RecordedUrls(log) + RecordedUrls(more)
  {
    var l := log + more;
    forall u | u in RecordedUrls(l)
      ensures u in RecordedUrls(log) + RecordedUrls(more)
    {
      var i :| 0 <= i < |l| && l[i].recorded && l[i].url == u;
      if i >= |log| {
        assert more[i - |log|] == l[i];
      }
    }
    forall u | u in RecordedUrls(log) + RecordedUrls(more)
      ensures u in RecordedUrls(l)
    {
      if u in RecordedUrls(log) {
        var i :| 0 <= i < |log| && log[i].recorded && log[i].url == u;
        assert l[i] == log[i];
      } else {
        var i :| 0 <= i < |more| && more[i].recorded && more[i].url == u;
        assert l[|log| + i] == more[i];
      }
    }
  }

  /**
   * A step that logs at most one attempt, and marks its URL visited exactly
   * when it gave a record, keeps the visited set equal to the start set plus
   * the recorded URLs logged since position `from`.
   */
  lemma VisitedGrowth(start: set<string>, from: nat, log: seq<Attempt>, visited: set<string>,
                      now: seq<Attempt>, after: set<string>)
    requires from <= |log| && log <= now && |now| <= |log| + 1
    requires visited == start + RecordedUrls(log[from..])
    requires |now| == |log| ==> after == visited
    requires |now| > |log| ==> after == visited + (if now[|log|].recorded then {now[|log|].url} else {})
    ensures after == start + RecordedUrls(now[from..])
  {
    var more := now[|log|..];
    assert now[from..] == log[from..] + more;
    RecordedUrlsConcat(log[from..], more);
    if more != [] {
      assert more == [now[|log|]];
      assert RecordedUrls(more) == if more[0].recorded then {more[0].url} else {};
    }
  }

  /**
   * Since a crawl started from visited set `visited0` and directory `files0`,
   * with logs of lengths `attemptsFrom` and `storedFrom`, the visited set has
   * grown by exactly the URLs whose download gave a record, and the directory
   * holds the pages stored since, written in order (the checkpoint file aside).
   */
  ghost predicate Grown(env: Env, visited0: set<string>, attemptsFrom: nat, files0: map<string, FileContent>,
                        storedFrom: nat, visited: set<string>, attempts: seq<Attempt>,
                        files: map<string, FileContent>, stored: seq<PageRecord>)
  {
    && attemptsFrom <= |attempts| && storedFrom <= |stored|
    && visited == visited0 + RecordedUrls(attempts[attemptsFrom..])
    && DirectoryAfter(env, files0, stored[storedFrom..], files)
  }

  /** One step that logs at most one attempt and stores at most one page keeps `Grown`. */
  lemma GrownStep(env: Env, visited0: set<string>, attemptsFrom: nat, files0: map<string, FileContent>,
                  storedFrom: nat, visited: set<string>, attempts: seq<Attempt>,
                  files: map<string, FileContent>, stored: seq<PageRecord>,
                  visited': set<string>, attempts': seq<Attempt>,
                  files': map<string, FileContent>, stored': seq<PageRecord>)
    requires Grown(env, visited0, attemptsFrom, files0, storedFrom, visited, attempts, files, stored)
    requires attempts <= attempts' && |attempts'| <= |attempts| + 1
    requires |attempts'| == |attempts| ==> visited' == visited
    requires |attempts'| > |attempts| ==>
               var a := attempts'[|attempts|];
               visited' == visited + (if a.recorded then {a.url} else {})
    requires stored <= stored' && |stored'| <= |stored| + 1
    requires DirectoryAfter(env, files, stored'[|stored|..], files')
    ensures Grown(env, visited0, attemptsFrom, files0, storedFrom, visited', attempts', files', stored')
  {
    DirectoryAfterCompose(env, files0, storedFrom, stored, files, stored', files');
    VisitedGrowth(visited0, attemptsFrom, attempts, visited, attempts', visited');
  }

  /** The two directories hold the same files with the same contents, except perhaps file `k`. */
  ghost predicate AgreeExcept(a: map<string, FileContent>, b: map<string, FileContent>, k: string) {
    forall x :: x != k ==> (x in a <==> x in b) && (x in a ==> a[x] == b[x])
  }

  /**
   * `after` is the directory `before` once `records` were written in order,
   * except that the checkpoint file may have been rewritten since; it cannot
   * have been when checkpoint writes fail.
   */
  ghost predicate DirectoryAfter(env: Env, before: map<string, FileContent>, records: seq<PageRecord>,
                                 after: map<string, FileContent>) {
    && AgreeExcept(after, WriteAll(before, records), ProgressFileName)
    && (!env.writeOk(ProgressFileName) ==> after == WriteAll(before, records))
  }

  /** Two directories that agree away from `k` are equal once `k` is written. */
  lemma SameAfterWriting(a: map<string, FileContent>, b: map<string, FileContent>, k: string, v: FileContent)
    requires AgreeExcept(a, b, k)
    ensures a[k := v] == b[k := v]
  {
  }

  /**
   * One step that writes at most one page and perhaps the checkpoint leaves the
   * directory as `before` with that page written.
   */
  lemma DirectoryAfterStep(env: Env, before: map<string, FileContent>, records: seq<PageRecord>,
                           after: map<string, FileContent>, checkpoint: FileContent)
    requires after == WriteAll(before, records)
             || (env.writeOk(ProgressFileName) && after == WriteAll(before, records)[ProgressFileName := checkpoint])
    ensures DirectoryAfter(env, before, records, after)
  {
  }

  /**
   * A run of steps, each writing at most one page, writes the pages in order:
   * the pages stored since position `from` of the log.
   */
  lemma DirectoryAfterCompose(env: Env, f0: map<string, FileContent>, from: nat, written: seq<PageRecord>,
                              f1: map<string, FileContent>, now: seq<PageRecord>, f2: map<string, FileContent>)
    requires from <= |written| && written <= now && |now| <= |written| + 1
    requires DirectoryAfter(env, f0, written[from..], f1) && DirectoryAfter(env, f1, now[|written|..], f2)
    ensures DirectoryAfter(env, f0, now[from..], f2)
  {
    var w, w2 := written[from..], now[|written|..];
    assert now[from..] == w + w2;
    if w2 == [] {
      assert w + w2 == w;
    } else {
      var r := w2[0];
      var n, v := PageFileName(r.title), PageJson(r);
      assert w2 == [r] && w2[..0] == [] && (w + w2)[..|w|] == w;
      assert WriteAll(f1, w2) == f1[n := v];
      assert WriteAll(f0, w + w2) == WriteAll(f0, w)[n := v];
    }
  }

  /**
   * The counter is the restored count `loaded` plus the pages written since; no
   * record was written twice for one URL; and a URL whose page gave a record is
   * in the visited set and was never downloaded again.
   */
  ghost predicate Consistent(s: State, loaded: nat) {
    && s.processed == loaded + |s.stored|
    && (forall i :: 0 <= i < |s.stored| ==> s.stored[i].url in s.visited)
    && (forall i, j :: 0 <= i < j < |s.stored| ==> s.stored[i].url != s.stored[j].url)
    && (forall i :: 0 <= i < |s.attempts| && s.attempts[i].recorded ==> s.attempts[i].url in s.visited)
    && (forall i, j :: 0 <= i < j < |s.attempts| && s.attempts[i].recorded ==> s.attempts[j].url != s.attempts[i].url)
  }

  /** Processing an unvisited URL keeps the state consistent. */
  lemma ProcessConsistent(env: Env, s: State, loaded: nat, url: string)
    requires Consistent(s, loaded) && url !in s.visited
    ensures Consistent(Process(env, s, url), loaded)
  {
    ProcessLogs(env, s, url);
  }

  /**
   * A state `s'` that `ProcessPage` describes field by field, as it leaves
   * state `s` after processing `url`, is `Process(env, s, url)`.
   */
  lemma ProcessIs(env: Env, s: State, url: string, s': State)
    requires s'.attempts == s.attempts + [Attempt(url, Recorded(env, url), s.processed)]
    requires !Recorded(env, url) ==>
               s'.queue == s.queue && s'.visited == s.visited && s'.processed == s.processed && s'.stored == s.stored
    requires Recorded(env, url) ==>
               var rec := Visit(env, url, s.visited);
               && s'.queue == s.queue + rec.links && s'.visited == s.visited + {url}
               && (if StoreSucceeds(env, rec)
                   then s'.processed == s.processed + 1 && s'.stored == s.stored + [rec]
                   else s'.processed == s.processed && s'.stored == s.stored)
    requires s.stored <= s'.stored
    requires var pages := WriteAll(s.files, s'.stored[|s.stored|..]);
             s'.files == if Download(env, url).Some? && s'.processed % 100 == 0 && env.writeOk(ProgressFileName)
                         then pages[ProgressFileName := ProgressJson(s'.visited, s'.processed)]
                         else pages
    ensures s' == Process(env, s, url)
  {
    var more := s'.stored[|s.stored|..];
    if more == [] {
      assert WriteAll(s.files, more) == s.files;
    } else {
      assert more == [more[0]] && more[..0] == [];
      assert WriteAll(s.files, more) == s.files[PageFileName(more[0].title) := PageJson(more[0])];
    }
  }

  /**
   * What processing one unvisited URL does to the logs: it logs one attempt
   * with the counter of the moment, marks the URL visited exactly when it gave
   * a record, and counts and stores at most one page.
   */
  lemma ProcessLogs(env: Env, s: State, url: string)
    ensures var s' := Process(env, s, url);
      && s'.attempts == s.attempts + [Attempt(url, Recorded(env, url), s.processed)]
      && s'.visited == s.visited + (if Recorded(env, url) then {url} else {})
      && s.processed <= s'.processed <= s.processed + 1
      && (s'.processed == s.processed + 1 ==> Recorded(env, url))
      && s.stored <= s'.stored && |s'.stored| <= |s.stored| + 1
  {
  }

  /** Processing one URL writes at most the page it stores, and perhaps the checkpoint. */
  lemma ProcessDirectory(env: Env, s: State, url: string)
    ensures var s' := Process(env, s, url);
      && s.stored <= s'.stored
      && DirectoryAfter(env, s.files, s'.stored[|s.stored|..], s'.files)
  {
    var s' := Process(env, s, url);
    var more := s'.stored[|s.stored|..];
    if Download(env, url).Some? && Recorded(env, url) && StoreSucceeds(env, Visit(env, url, s.visited)) {
      var rec := Visit(env, url, s.visited);
      assert more == [rec] && more[..0] == [];
      assert WriteAll(s.files, more) == s.files[PageFileName(rec.title) := PageJson(rec)];
    } else {
      assert more == [];
    }
    DirectoryAfterStep(env, s.files, more, s'.files, ProgressJson(s'.visited, s'.processed));
  }

  /**
   * What one iteration from `s` to `s'` does, in the terms the whole loop is
   * described in: at most one attempt logged, for an unvisited URL and with the
   * counter of the moment, the visited set grown by its URL exactly when it gave
   * a record, at most one page counted, stored and written, and a visited head
   * only dropped.
   */
  ghost predicate StepFacts(env: Env, s: State, s': State)
    requires s.queue != []
  {
      && s.attempts <= s'.attempts && |s'.attempts| <= |s.attempts| + 1
      && (|s'.attempts| == |s.attempts| ==> s'.visited == s.visited)
      && (|s'.attempts| > |s.attempts| ==>
            var a := s'.attempts[|s.attempts|];
            && s'.visited == s.visited + (if a.recorded then {a.url} else {})
            && a.url !in s.visited && a.counter == s.processed)
      && s.stored <= s'.stored && |s'.stored| <= |s.stored| + 1
      && DirectoryAfter(env, s.files, s'.stored[|s.stored|..], s'.files)
      && s.processed <= s'.processed <= s.processed + 1
      && s'.processed - s.processed <= |s'.visited| - |s.visited|
      && (s.queue[0] in s.visited ==> s' == s.(queue := s.queue[1..]))
  }

  /** `Next` makes the step `StepFacts` describes. */
  lemma NextFacts(env: Env, s: State)
    requires s.queue != []
    ensures StepFacts(env, s, Next(env, s))
  {
    var head := s.queue[0];
    if head in s.visited {
      assert s.stored[|s.stored|..] == [];
    } else {
      ProcessLogs(env, s.(queue := s.queue[1..]), head);
      ProcessDirectory(env, s.(queue := s.queue[1..]), head);
    }
  }

  /**
   * What holds between the state `s0` a run starts in and any state `s` it
   * reaches: nothing is forgotten, every download was made unvisited and under
   * the budget, the visited set and directory grew as `Grown` says, and a
   * frontier that was all visited stays so without downloading anything.
   */
  ghost predicate Reaches(env: Env, maxPages: int, s0: State, s: State) {
    && Progressed(maxPages, s0, s)
    && Grown(env, s0.visited, |s0.attempts|, s0.files, |s0.stored|, s.visited, s.attempts, s.files, s.stored)
  }

  /** The part of `Reaches` about the counter, the logs and the frontier. */
  ghost predicate Progressed(maxPages: int, s0: State, s: State) {
    && s0.visited <= s.visited
    && s0.processed <= s.processed
    && (s.processed <= s0.processed || s.processed <= maxPages)
    && s.processed - s0.processed <= |s.visited| - |s0.visited|
    && s0.attempts <= s.attempts && s0.stored <= s.stored
    && (forall i :: |s0.attempts| <= i < |s.attempts| ==>
          s.attempts[i].url !in s0.visited && s.attempts[i].counter < maxPages)
    && ((forall u :: u in s0.queue ==> u in s0.visited) ==>
          && (forall u :: u in s.queue ==> u in s.visited)
          && s.attempts == s0.attempts && s.visited == s0.visited && s.processed == s0.processed)
  }

  lemma ReachesRefl(env: Env, maxPages: int, s0: State)
    ensures Reaches(env, maxPages, s0, s0)
  {
    assert s0.attempts[|s0.attempts|..] == [] && s0.stored[|s0.stored|..] == [];
  }

  /** One more iteration, made while the guard holds, keeps `Reaches`. */
  lemma ReachesStep(env: Env, maxPages: int, s0: State, s: State, k: nat)
    requires Reaches(env, maxPages, s0, s) && Continues(env, maxPages, s, k)
    ensures Reaches(env, maxPages, s0, Next(env, s))
  {
    NextFacts(env, s);
    ReachesByFacts(env, maxPages, s0, s, Next(env, s));
  }

  /** A step as `StepFacts` describes it, made under the budget, keeps `Reaches`. */
  lemma ReachesByFacts(env: Env, maxPages: int, s0: State, s: State, s': State)
    requires Reaches(env, maxPages, s0, s) && s.queue != [] && s.processed < maxPages
    requires StepFacts(env, s, s')
    ensures Reaches(env, maxPages, s0, s')
  {
    GrownStep(env, s0.visited, |s0.attempts|, s0.files, |s0.stored|, s.visited, s.attempts, s.files, s.stored,
              s'.visited, s'.attempts, s'.files, s'.stored);
    ProgressedByFacts(env, maxPages, s0, s, s');
  }

  lemma ProgressedByFacts(env: Env, maxPages: int, s0: State, s: State, s': State)
    requires Progressed(maxPages, s0, s) && s.queue != [] && s.processed < maxPages
    requires StepFacts(env, s, s')
    ensures Progressed(maxPages, s0, s')
  {
    forall i | |s0.attempts| <= i < |s'.attempts|
      ensures s'.attempts[i].url !in s0.visited && s'.attempts[i].counter < maxPages
    {
      if i < |s.attempts| {
        assert s'.attempts[i] == s.attempts[i];
      }
    }
    if forall u :: u in s0.queue ==> u in s0.visited {
      assert s.queue[0] in s.queue;
    }
  }

  /**
   * Every run reaches its last state from its first, and a run that starts
   * with the budget used up makes no iteration.
   */
  lemma {:induction false} RunReaches(env: Env, maxPages: int, trace: seq<State>)
    requires trace != [] && IsRun(env, maxPages, trace)
    ensures Reaches(env, maxPages, trace[0], trace[|trace| - 1])
    ensures trace[0].processed >= maxPages ==> |trace| == 1
  {
    if |trace| == 1 {
      ReachesRefl(env, maxPages, trace[0]);
    } else {
      var p := trace[..|trace| - 1];
      forall k | 0 <= k < |p| - 1
        ensures Continues(env, maxPages, p[k], k) && p[k + 1] == Next(env, p[k])
      {
        assert p[k] == trace[k] && p[k + 1] == trace[k + 1];
      }
      RunReaches(env, maxPages, p);
      var k := |trace| - 2;
      assert p[k] == trace[k];
      assert Continues(env, maxPages, trace[k], k) && trace[k + 1] == Next(env, trace[k]);
      ReachesStep(env, maxPages, trace[0], trace[k], k);
      assert Continues(env, maxPages, trace[0], 0);
    }
  }

  class WikiCrawler {
    const startUrl: string
    const maxPages: int
    /** The frontier `url_queue`, head first. */
    var urlQueue: seq<string>
    var visitedUrls: set<string>
    var pagesProcessed: nat
    /** The crawl directory: file name to content. */
    var files: map<string, FileContent>

    /** Every download attempt of this crawler's lifetime, oldest first. */
    ghost var attempts: seq<Attempt>
    /** Every record this crawler has written to a page file, oldest first. */
    ghost var stored: seq<PageRecord>
    /** The counter as the checkpoint restored it at construction. */
    ghost var loadedCount: nat

    ghost predicate Valid()
      reads this
    {
      Consistent(Snapshot(), loadedCount)
    }

    /** The crawler's state as a value. */
    ghost function Snapshot(): State
      reads this
    {
      State(urlQueue, visitedUrls, pagesProcessed, files, attempts, stored)
    }

    /** The loop has run `n` times from `start`, through the states of `trace`, to the current state. */
    ghost predicate RanFrom(env: Env, start: State, n: nat, trace: seq<State>)
      reads this
    {
      |trace| == n + 1 && trace[0] == start && trace[n] == Snapshot() && IsRun(env, maxPages, trace)
    }

    /** `Grown` for the crawler's current state. */
    ghost predicate GrownFrom(env: Env, visited0: set<string>, attemptsFrom: nat,
                              files0: map<string, FileContent>, storedFrom: nat)
      reads this
    {
      Grown(env, visited0, attemptsFrom, files0, storedFrom, visitedUrls, attempts, files, stored)
    }

    /**
     * `__init__`: the frontier holds the start URL only, and the visited set and
     * counter are whatever `load_progress` restores from the directory.
     */
    constructor (startUrl: string, maxPages: int, files: map<string, FileContent>)
      ensures Valid()
      ensures this.startUrl == startUrl && this.maxPages == maxPages && this.files == files
      ensures urlQueue == [startUrl]
      ensures CrawlState(visitedUrls, pagesProcessed) == Restore(files, CrawlState({}, 0))
      ensures attempts == [] && stored == []
    {
      this.startUrl := startUrl;
      this.maxPages := maxPages;
      this.files := files;
      visitedUrls := {};
      urlQueue := [startUrl];
      pagesProcessed := 0;
      attempts := [];
      stored := [];
      loadedCount := 0;
      new;
      LoadProgress();
      loadedCount := pagesProcessed;
    }

    /** `load_progress`: restores the visited set and recounts the counter from it. */
    method LoadProgress()
      modifies this`visitedUrls, this`pagesProcessed
      ensures CrawlState(visitedUrls, pagesProcessed) == Restore(files, old(CrawlState(visitedUrls, pagesProcessed)))
    {
      if ProgressFileName in files {
        match files[ProgressFileName] {
          case ProgressJson(saved, _) =>
            visitedUrls := saved;
            pagesProcessed := |visitedUrls|;
          case PageJson(_) =>
            // a JSON object without "visited_urls": the default [] is loaded
            visitedUrls := {};
            pagesProcessed := 0;
          case Unreadable =>
            // json.load raised: the error is logged and nothing changes
        }
      }
    }

    /** `save_progress`: overwrites the checkpoint with the current state, unless the write fails. */
    method SaveProgress(env: Env)
      modifies this`files
      ensures files == if env.writeOk(ProgressFileName)
                       then old(files)[ProgressFileName := ProgressJson(visitedUrls, pagesProcessed)]
                       else old(files)
    {
      if env.writeOk(ProgressFileName) {
        files := files[ProgressFileName := ProgressJson(visitedUrls, pagesProcessed)];
      }
    }

    /**
     * `store_page`: a record with an empty title is ignored; otherwise it is
     * written to the file named after its title and the counter goes up by one,
     * unless the write fails, in which case nothing changes.
     */
    method StorePage(data: PageRecord, env: Env)
      modifies this`files, this`pagesProcessed, this`stored
      ensures StoreSucceeds(env, data) ==>
                files == old(files)[PageFileName(data.title) := PageJson(data)]
                && pagesProcessed == old(pagesProcessed) + 1 && stored == old(stored) + [data]
      ensures !StoreSucceeds(env, data) ==>
                files == old(files) && pagesProcessed == old(pagesProcessed) && stored == old(stored)
    {
      if data.title == "" {
        return;
      }
      var fileName := PageFileName(data.title);
      if env.writeOk(fileName) {
        files := files[fileName := PageJson(data)];
        pagesProcessed := pagesProcessed + 1;
        stored := stored + [data];
      }
    }

    /**
     * `extract_links`: walks the anchors in document order and keeps the
     * resolved URL of each article-path href that is not yet visited.
     */
    method ExtractLinks(anchors: seq<Option<string>>, baseUrl: string, env: Env) returns (links: seq<string>)
      ensures links == FilterLinks(anchors, baseUrl, visitedUrls, env.urljoin)
    {
      links := [];
      for i := 0 to |anchors|
        invariant links == FilterLinks(anchors[..i], baseUrl, visitedUrls, env.urljoin)
      {
        assert anchors[..i + 1][..i] == anchors[..i];
        var href := anchors[i];
        if href.Some? && href.value != "" && IsArticleHref(href.value) {
          var fullUrl := env.urljoin(baseUrl, href.value);
          if fullUrl !in visitedUrls {
            links := links + [fullUrl];
          }
        }
      }
      assert anchors[..|anchors|] == anchors;
    }

    /**
     * `parse_page`: no record and no change when the document has no title
     * heading; otherwise the record of the page, whose links are also appended
     * to the frontier, in order.
     */
    method ParsePage(url: string, content: string, env: Env) returns (page: Option<PageRecord>)
      modifies this`urlQueue
      ensures page.None? <==> env.parse(content).firstHeading.None?
      ensures page.None? ==> urlQueue == old(urlQueue)
      ensures page.Some? ==>
                var doc := env.parse(content);
                page.value == RecordOf(url, doc, FilterLinks(doc.anchors, url, visitedUrls, env.urljoin))
                && urlQueue == old(urlQueue) + page.value.links
    {
      var soup := env.parse(content);
      if soup.firstHeading.None? {
        return None;
      }
      var paragraphs := [];
      if soup.content.Some? {
        paragraphs := ContentParagraphs(soup.content.value);
      }
      var toc := TableOfContents(soup.toc);
      var newLinks := ExtractLinks(soup.anchors, url, env);
      urlQueue := urlQueue + newLinks;
      page := Some(PageRecord(url, Text.Strip(soup.firstHeading.value), paragraphs, newLinks, toc));
    }

    /**
     * The part of an iteration of `crawl` after the visited check, for a URL not
     * yet visited: download it once; without usable content stop; otherwise
     * parse it, and on a record store it and mark the URL visited; then
     * checkpoint when the counter is a multiple of 100.
     */
    method ProcessPage(url: string, env: Env)
      requires Valid() && url !in visitedUrls
      modifies this`urlQueue, this`visitedUrls, this`pagesProcessed, this`files, this`attempts, this`stored
      ensures Valid()
      ensures attempts == old(attempts) + [Attempt(url, Recorded(env, url), old(pagesProcessed))]
      // without a record the URL is dropped and not marked visited
      ensures !Recorded(env, url) ==>
                urlQueue == old(urlQueue) && visitedUrls == old(visitedUrls)
                && pagesProcessed == old(pagesProcessed) && stored == old(stored)
      // with a record its links join the frontier, it is stored if possible and marked visited
      ensures Recorded(env, url) ==>
                var rec := Visit(env, url, old(visitedUrls));
                && urlQueue == old(urlQueue) + rec.links
                && visitedUrls == old(visitedUrls) + {url}
                && (if StoreSucceeds(env, rec)
                    then pagesProcessed == old(pagesProcessed) + 1 && stored == old(stored) + [rec]
                    else pagesProcessed == old(pagesProcessed) && stored == old(stored))
      // the page stored now (if any) is written to its file; after a parse
      // attempt the checkpoint is written when the counter is a multiple of 100
      ensures var pages := WriteAll(old(files), stored[|old(stored)|..]);
              files == if Download(env, url).Some? && pagesProcessed % 100 == 0 && env.writeOk(ProgressFileName)
                       then pages[ProgressFileName := ProgressJson(visitedUrls, pagesProcessed)]
                       else pages
      ensures Snapshot() == Process(env, old(Snapshot()), url)
    {
      var content := Download(env, url);
      if content.None? {
        attempts := attempts + [Attempt(url, false, pagesProcessed)];
        assert stored[|stored|..] == [];
        ProcessIs(env, old(Snapshot()), url, Snapshot());
        ProcessConsistent(env, old(Snapshot()), loadedCount, url);
        return;
      }
      var pageData := ParsePage(url, content.value, env);
      attempts := attempts + [Attempt(url, pageData.Some?, pagesProcessed)];
      ghost var written := [];
      if pageData.Some? {
        StorePage(pageData.value, env);
        visitedUrls := visitedUrls + {url};
        if stored != old(stored) {
          written := [pageData.value];
          assert written[..0] == [];
        }
      }
      assert stored[|old(stored)|..] == written;
      if pagesProcessed % 100 == 0 {
        SaveProgress(env);
      }
      ProcessIs(env, old(Snapshot()), url, Snapshot());
      ProcessConsistent(env, old(Snapshot()), loadedCount, url);
    }

    /**
     * One iteration of the loop of `crawl`: pop the head of the frontier; skip it
     * if visited; otherwise download it, parse it, store the record and mark the
     * URL visited, then checkpoint when the counter is a multiple of 100.
     */
    method Step(env: Env)
      requires Valid() && urlQueue != []
      modifies this`urlQueue, this`visitedUrls, this`pagesProcessed, this`files, this`attempts, this`stored
      ensures Valid()
      // an already visited URL is dropped without being downloaded
      ensures old(urlQueue[0]) in old(visitedUrls) ==>
                urlQueue == old(urlQueue[1..]) && visitedUrls == old(visitedUrls)
                && pagesProcessed == old(pagesProcessed) && files == old(files)
                && attempts == old(attempts) && stored == old(stored)
      // any other URL is downloaded once
      ensures old(urlQueue[0]) !in old(visitedUrls) ==>
                attempts == old(attempts) + [Attempt(old(urlQueue[0]), Recorded(env, old(urlQueue[0])), old(pagesProcessed))]
      // without a record it is dropped and not marked visited
      ensures old(urlQueue[0]) !in old(visitedUrls) && !Recorded(env, old(urlQueue[0])) ==>
                urlQueue == old(urlQueue[1..]) && visitedUrls == old(visitedUrls)
                && pagesProcessed == old(pagesProcessed) && stored == old(stored)
      // with a record its links join the frontier, it is stored if possible and marked visited
      ensures old(urlQueue[0]) !in old(visitedUrls) && Recorded(env, old(urlQueue[0])) ==>
                var rec := Visit(env, old(urlQueue[0]), old(visitedUrls));
                && urlQueue == old(urlQueue[1..]) + rec.links
                && visitedUrls == old(visitedUrls) + {old(urlQueue[0])}
                && (if StoreSucceeds(env, rec)
                    then pagesProcessed == old(pagesProcessed) + 1 && stored == old(stored) + [rec]
                    else pagesProcessed == old(pagesProcessed) && stored == old(stored))
      // the page stored now (if any) is written to its file; after a parse
      // attempt the checkpoint is written when the counter is a multiple of 100
      ensures var pages := WriteAll(old(files), stored[|old(stored)|..]);
              files == if old(urlQueue[0]) !in old(visitedUrls) && Download(env, old(urlQueue[0])).Some?
                          && pagesProcessed % 100 == 0 && env.writeOk(ProgressFileName)
                       then pages[ProgressFileName := ProgressJson(visitedUrls, pagesProcessed)]
                       else pages
      // in sum: at most one attempt is logged, at the counter it was made at and
      // for a URL not visited before, and only its URL, when recorded, becomes
      // visited; the counter rises by at most one and no faster than visited
      ensures old(attempts) <= attempts && |attempts| <= |old(attempts)| + 1
      ensures |attempts| == |old(attempts)| ==> visitedUrls == old(visitedUrls)
      ensures |attempts| > |old(attempts)| ==>
                var a := attempts[|old(attempts)|];
                visitedUrls == old(visitedUrls) + (if a.recorded then {a.url} else {})
      ensures forall i :: |old(attempts)| <= i < |attempts| ==>
                attempts[i].url !in old(visitedUrls) && attempts[i].counter == old(pagesProcessed)
      ensures old(pagesProcessed) <= pagesProcessed <= old(pagesProcessed) + 1
      ensures pagesProcessed - old(pagesProcessed) <= |visitedUrls| - |old(visitedUrls)|
      ensures old(stored) <= stored && |stored| <= |old(stored)| + 1
      ensures DirectoryAfter(env, old(files), stored[|old(stored)|..], files)
      // all of it: the new state is the iteration applied to the old one
      ensures Snapshot() == Next(env, old(Snapshot()))
    {
      var currentUrl := urlQueue[0];
      urlQueue := urlQueue[1..];
      if currentUrl in visitedUrls {
        assert stored[|stored|..] == [];
        DirectoryAfterStep(env, files, [], files, Unreadable);
        return;
      }
      ProcessPage(currentUrl, env);
      DirectoryAfterStep(env, old(files), stored[|old(stored)|..], files, ProgressJson(visitedUrls, pagesProcessed));
    }

    /**
     * The invariants one iteration keeps, as the loop needs them: those of
     * `Step`, plus that the frontier stays inside a closed universe and either
     * a new URL of the universe became visited or the frontier got shorter.
     */
    method Advance(env: Env, ghost universe: set<string>, ghost start: State, ghost n: nat, ghost trace: seq<State>)
      requires Valid() && urlQueue != [] && pagesProcessed < maxPages && !env.interrupted(n)
      requires RanFrom(env, start, n, trace)
      requires LinksStayIn(env, universe)
      requires forall u :: u in urlQueue ==> u in universe
      modifies this`urlQueue, this`visitedUrls, this`pagesProcessed, this`files, this`attempts, this`stored
      ensures Valid()
      ensures forall u :: u in urlQueue ==> u in universe
      ensures old(visitedUrls) <= visitedUrls
      ensures old(pagesProcessed) <= pagesProcessed <= old(pagesProcessed) + 1
      ensures pagesProcessed - old(pagesProcessed) <= |visitedUrls| - |old(visitedUrls)|
      ensures old(attempts) <= attempts && |attempts| <= |old(attempts)| + 1
      ensures old(stored) <= stored && |stored| <= |old(stored)| + 1
      ensures forall i :: |old(attempts)| <= i < |attempts| ==>
                attempts[i].url !in old(visitedUrls) && attempts[i].counter == old(pagesProcessed)
      ensures old(urlQueue[0]) in old(visitedUrls) ==>
                urlQueue == old(urlQueue[1..]) && visitedUrls == old(visitedUrls)
                && pagesProcessed == old(pagesProcessed) && attempts == old(attempts)
      ensures |universe - visitedUrls| < old(|universe - visitedUrls|)
              || (visitedUrls == old(visitedUrls) && |urlQueue| < old(|urlQueue|))
      ensures Snapshot() == Next(env, old(Snapshot()))
      ensures RanFrom(env, start, n + 1, trace + [Snapshot()])
    {
      ghost var head := urlQueue[0];
      if head !in visitedUrls && Recorded(env, head) {
        VisitLinksInUniverse(env, universe, head, visitedUrls);
      }
      Step(env);
      if head !in old(visitedUrls) && Recorded(env, head) {
        assert universe - visitedUrls == (universe - old(visitedUrls)) - {head};
      }
      IsRunExtend(env, maxPages, trace, Snapshot());
    }

    /**
     * The loop of `crawl`: steps until the frontier is empty, the counter reaches
     * `maxPages`, or the user interrupts. Every download is made with the counter
     * below `maxPages`, and the directory holds the pages written in order,
     * except perhaps for the checkpoint file. It terminates because every URL it
     * can reach lies in the finite `universe`.
     */
    method Run(env: Env, ghost universe: set<string>) returns (ghost iterations: nat, ghost trace: seq<State>)
      requires Valid()
      requires LinksStayIn(env, universe)
      requires forall u :: u in urlQueue ==> u in universe
      modifies this`urlQueue, this`visitedUrls, this`pagesProcessed, this`files, this`attempts, this`stored
      ensures Valid()
      ensures urlQueue == [] || pagesProcessed >= maxPages || env.interrupted(iterations)
      ensures pagesProcessed <= old(pagesProcessed) || pagesProcessed <= maxPages
      ensures old(visitedUrls) <= visitedUrls
      ensures old(pagesProcessed) <= pagesProcessed
      ensures pagesProcessed - old(pagesProcessed) <= |visitedUrls| - |old(visitedUrls)|
      ensures old(attempts) <= attempts && old(stored) <= stored
      ensures forall i :: |old(attempts)| <= i < |attempts| ==>
                attempts[i].url !in old(visitedUrls) && attempts[i].counter < maxPages
      ensures old(pagesProcessed) >= maxPages ==>
                urlQueue == old(urlQueue) && attempts == old(attempts) && stored == old(stored)
      ensures (forall u :: u in old(urlQueue) ==> u in old(visitedUrls)) ==>
                attempts == old(attempts) && visitedUrls == old(visitedUrls) && pagesProcessed == old(pagesProcessed)
      ensures GrownFrom(env, old(visitedUrls), |old(attempts)|, old(files), |old(stored)|)
      // the loop ran `iterations` times through the states of `trace`, and stopped at the first failed guard
      ensures |trace| == iterations + 1 && trace[0] == old(Snapshot()) && trace[iterations] == Snapshot()
      ensures IsRun(env, maxPages, trace) && !Continues(env, maxPages, Snapshot(), iterations)
      ensures forall k :: 0 <= k < iterations ==> !env.interrupted(k)
    {
      trace := [Snapshot()];
      var n: nat := 0;
      while urlQueue != [] && pagesProcessed < maxPages && !env.interrupted(n)
        invariant Valid()
        invariant forall u :: u in urlQueue ==> u in universe
        invariant RanFrom(env, old(Snapshot()), n, trace)
        decreases |universe - visitedUrls|, |urlQueue|
      {
        Advance(env, universe, old(Snapshot()), n, trace);
        trace := trace + [Snapshot()];
        n := n + 1;
      }
      iterations := n;
      RunReaches(env, maxPages, trace);
      RunNotInterrupted(env, maxPages, trace);
    }

    /**
     * `crawl`: runs the loop, then always writes a final checkpoint. Every
     * download is made with the counter below `maxPages`; the visited set grows
     * by exactly the URLs whose page gave a record; and the directory ends as
     * the pages written in order, with the final checkpoint on top when the
     * checkpoint file can be written.
     */
    method Crawl(env: Env, ghost universe: set<string>) returns (ghost iterations: nat, ghost trace: seq<State>)
      requires Valid()
      requires LinksStayIn(env, universe)
      requires forall u :: u in urlQueue ==> u in universe
      modifies this`urlQueue, this`visitedUrls, this`pagesProcessed, this`files, this`attempts, this`stored
      ensures Valid()
      ensures urlQueue == [] || pagesProcessed >= maxPages || env.interrupted(iterations)
      ensures pagesProcessed <= old(pagesProcessed) || pagesProcessed <= maxPages
      ensures old(visitedUrls) <= visitedUrls
      ensures old(pagesProcessed) <= pagesProcessed
      ensures pagesProcessed - old(pagesProcessed) <= |visitedUrls| - |old(visitedUrls)|
      ensures old(attempts) <= attempts && old(stored) <= stored
      ensures forall i :: |old(attempts)| <= i < |attempts| ==>
                attempts[i].url !in old(visitedUrls) && attempts[i].counter < maxPages
      ensures old(pagesProcessed) >= maxPages ==>
                urlQueue == old(urlQueue) && attempts == old(attempts) && stored == old(stored)
      ensures visitedUrls == old(visitedUrls) + RecordedUrls(attempts[|old(attempts)|..])
      ensures (forall u :: u in old(urlQueue) ==> u in old(visitedUrls)) ==>
                attempts == old(attempts) && visitedUrls == old(visitedUrls) && pagesProcessed == old(pagesProcessed)
      ensures files == if env.writeOk(ProgressFileName)
                       then WriteAll(old(files), stored[|old(stored)|..])[ProgressFileName := ProgressJson(visitedUrls, pagesProcessed)]
                       else WriteAll(old(files), stored[|old(stored)|..])
      ensures env.writeOk(ProgressFileName) ==>
                ProgressFileName in files && files[ProgressFileName] == ProgressJson(visitedUrls, pagesProcessed)
      // the loop ran through the states of `trace`, then the final checkpoint was saved
      ensures |trace| == iterations + 1 && trace[0] == old(Snapshot())
      ensures IsRun(env, maxPages, trace) && !Continues(env, maxPages, trace[iterations], iterations)
      ensures forall k :: 0 <= k < iterations ==> !env.interrupted(k)
      ensures Snapshot() == Save(env, trace[iterations])
    {
      iterations, trace := Run(env, universe);
      ghost var directory := files;
      SaveProgress(env);
      if env.writeOk(ProgressFileName) {
        SameAfterWriting(directory, WriteAll(old(files), stored[|old(stored)|..]), ProgressFileName,
                         ProgressJson(visitedUrls, pagesProcessed));
      }
    }
  }

  /**
   * A crawl, then a restart on the same directory (the program run again). When
   * the checkpoint can be written, the restarted crawler holds exactly the
   * visited set the first run ended with, its counter is that set's size, and
   * if the start page was among them it downloads nothing: the frontier is
   * not saved, so a restart begins again from the start URL alone.
   */
  method CrawlThenRestart(startUrl: string, maxPages: int, files: map<string, FileContent>,
                          env: Env, ghost universe: set<string>)
    returns (crawled: set<string>, reloaded: set<string>, reloadedCount: nat, resumed: set<string>,
             ghost refetched: seq<Attempt>)
    requires LinksStayIn(env, universe) && startUrl in universe
    ensures env.writeOk(ProgressFileName) ==> reloaded == crawled && reloadedCount == |crawled|
    ensures env.writeOk(ProgressFileName) && startUrl in crawled ==> resumed == crawled && refetched == []
  {
    var first := new WikiCrawler(startUrl, maxPages, files);
    ghost var steps, states := first.Crawl(env, universe);
    crawled := first.visitedUrls;
    if env.writeOk(ProgressFileName) {
      CheckpointRoundTrip(first.files, crawled, first.pagesProcessed, CrawlState({}, 0));
      assert first.files == first.files[ProgressFileName := ProgressJson(crawled, first.pagesProcessed)];
    }
    var second := new WikiCrawler(startUrl, maxPages, first.files);
    reloaded, reloadedCount := second.visitedUrls, second.pagesProcessed;
    steps, states := second.Crawl(env, universe);
    resumed := second.visitedUrls;
    refetched := second.attempts;
  }
}
