/**
 * Which anchors of a page become crawl candidates: the article-path pattern
 * `^/wiki/[^:#]*$` and the order-preserving filter that `extract_links` applies.
 */
module Links {
  import opened Wrappers

  const ArticlePrefix: string := "/wiki/"

  /**
   * An href is an article path when it starts with `/wiki/` and the rest holds
   * no `:` (namespace pages such as `File:` or `Special:`) and no `#` (fragments).
   */
  predicate IsArticleHref(href: string) {
    |href| >= |ArticlePrefix| && href[..|ArticlePrefix|] == ArticlePrefix
    && ':' !in href[|ArticlePrefix|..] && '#' !in href[|ArticlePrefix|..]
  }

  /**
   * The pattern `^/wiki/[^:#]*$` matched with the run of `[^:#]` ending at `k`:
   * the literal prefix, then no `:` or `#` up to `k`, where `$` matches at the
   * end of the string or just before one final newline.
   */
  ghost predicate MatchesWithRunTo(href: string, k: int) {
    |ArticlePrefix| <= k <= |href| && href[..|ArticlePrefix|] == ArticlePrefix
    && (forall i :: |ArticlePrefix| <= i < k ==> href[i] != ':' && href[i] != '#')
    && (k == |href| || (k == |href| - 1 && href[k] == '\n'))
  }

  /** What `re.match(r"^/wiki/[^:#]*$", href)` accepts: some run end `k` makes the match succeed. */
  ghost predicate PatternMatches(href: string) {
    exists k :: MatchesWithRunTo(href, k)
  }

  /**
   * The regular expression and the plain predicate agree on every href: the
   * newline that `$` may leave over is itself in the class `[^:#]`.
   */
  lemma ArticleHrefIsPattern(href: string)
    ensures IsArticleHref(href) <==> PatternMatches(href)
  {
    var n := |ArticlePrefix|;
    if IsArticleHref(href) {
      forall i | n <= i < |href| ensures href[i] != ':' && href[i] != '#' {
        assert href[i] == href[n..][i - n];
      }
      assert MatchesWithRunTo(href, |href|);
    }
    if PatternMatches(href) {
      var k :| MatchesWithRunTo(href, k);
      forall j | 0 <= j < |href[n..]| ensures href[n..][j] != ':' && href[n..][j] != '#' {
        assert href[n..][j] == href[n + j];
      }
    }
  }

  /** Keeps an anchor when it has an article-path href whose resolved URL is not yet visited. */
  predicate Accepted(anchor: Option<string>, base: string, visited: set<string>, join: (string, string) -> string) {
    anchor.Some? && IsArticleHref(anchor.value) && join(base, anchor.value) !in visited
  }

  /**
   * The links `extract_links` returns for the anchors of a page at `base`: each
   * accepted href resolved against `base`, in document order, duplicates kept.
   */
  function FilterLinks(anchors: seq<Option<string>>, base: string, visited: set<string>,
                       join: (string, string) -> string): (links: seq<string>)
    ensures |links| <= |anchors|
    ensures forall j :: 0 <= j < |links| ==> links[j] !in visited
  {
    if anchors == [] then []
    else
      var earlier := FilterLinks(anchors[..|anchors| - 1], base, visited, join);
      var last := anchors[|anchors| - 1];
      if Accepted(last, base, visited, join) then earlier + [join(base, last.value)] else earlier
  }

  /**
   * A URL is returned exactly when it is not visited and some anchor carries an
   * article-path href that resolves to it.
   */
  lemma {:induction false} FilterLinksMembers(anchors: seq<Option<string>>, base: string, visited: set<string>,
                                              join: (string, string) -> string, u: string)
    ensures u in FilterLinks(anchors, base, visited, join) <==>
      u !in visited && (exists i :: 0 <= i < |anchors| && anchors[i].Some?
                                   && IsArticleHref(anchors[i].value) && join(base, anchors[i].value) == u)
  {
    if anchors != [] {
      var init := anchors[..|anchors| - 1];
      FilterLinksMembers(init, base, visited, join, u);
      if u in FilterLinks(anchors, base, visited, join) && u !in FilterLinks(init, base, visited, join) {
        assert anchors[|anchors| - 1].Some?;
      }
      if exists i :: 0 <= i < |anchors| && anchors[i].Some? && IsArticleHref(anchors[i].value)
                     && join(base, anchors[i].value) == u {
        var i :| 0 <= i < |anchors| && anchors[i].Some? && IsArticleHref(anchors[i].value)
                 && join(base, anchors[i].value) == u;
        if i < |anchors| - 1 { assert init[i] == anchors[i]; }
      }
    }
  }

  /**
   * The filter works anchor by anchor: the links of two consecutive runs of
   * anchors are the links of the first followed by those of the second, so the
   * result keeps document order.
   */
  lemma {:induction false} FilterLinksAppend(a: seq<Option<string>>, b: seq<Option<string>>, base: string,
                                             visited: set<string>, join: (string, string) -> string)
    ensures FilterLinks(a + b, base, visited, join) == FilterLinks(a, base, visited, join) + FilterLinks(b, base, visited, join)
  {
    if b == [] {
      assert a + b == a;
    } else {
      var b' := b[..|b| - 1];
      FilterLinksAppend(a, b', base, visited, join);
      assert (a + b)[..|a + b| - 1] == a + b';
    }
  }
}
