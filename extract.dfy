/**
 * What `parse_page` extracts from a document that has a title heading: the
 * paragraphs of the content division under their section headings, and the
 * table of contents; and the page record that carries them.
 */
module Extract {
  import opened Wrappers
  import opened Html
  import Text

  /** One recorded paragraph and the heading of the section it appeared in. */
  datatype Paragraph = Paragraph(section: string, text: string)

  /** The record stored for one page (the keys of the page's JSON file). */
  datatype PageRecord = PageRecord(
    url: string,
    title: string,
    paragraphs: seq<Paragraph>,
    links: seq<string>,
    tableOfContents: seq<string>)

  /** A child that opens a new section. */
  predicate IsSectionHeading(c: Child) {
    c.name == "h2"
  }

  /**
   * A child that is recorded: a `p` element whose stripped text is not empty,
   * that is, whose text is not all whitespace (Text.StripIsTrimmedSlice).
   */
  predicate IsRecordedParagraph(c: Child) {
    c.name == "p" && !Text.IsBlank(c.text)
  }

  /** The section label in force after the children `cs` have been walked. */
  function CurrentSection(cs: seq<Child>): string {
    if cs == [] then ""
    else if IsSectionHeading(cs[|cs| - 1]) then Text.Strip(cs[|cs| - 1].text)
    else CurrentSection(cs[..|cs| - 1])
  }

  /** The paragraphs recorded while walking the children `cs` in order. */
  function ParagraphsOf(cs: seq<Child>): seq<Paragraph> {
    if cs == [] then []
    else
      var earlier, last := cs[..|cs| - 1], cs[|cs| - 1];
      if IsRecordedParagraph(last) then ParagraphsOf(earlier) + [Paragraph(CurrentSection(earlier), Text.Strip(last.text))]
      else ParagraphsOf(earlier)
  }

  /** The positions of the recorded children of `cs`, in increasing order. */
  function RecordedPositions(cs: seq<Child>): (ks: seq<nat>)
    ensures forall j :: 0 <= j < |ks| ==> ks[j] < |cs| && IsRecordedParagraph(cs[ks[j]])
    ensures forall j, j' :: 0 <= j < j' < |ks| ==> ks[j] < ks[j']
    ensures forall k :: 0 <= k < |cs| && IsRecordedParagraph(cs[k]) ==> k in ks
  {
    if cs == [] then []
    else
      var n := |cs| - 1;
      var earlier := RecordedPositions(cs[..n]);
      var ks := if IsRecordedParagraph(cs[n]) then earlier + [n] else earlier;
      RecordedPositionsExtend(cs, earlier, ks);
      ks
  }

  /** The step of `RecordedPositions`: the positions for all but the last child, extended by the last one when it is recorded. */
  lemma RecordedPositionsExtend(cs: seq<Child>, earlier: seq<nat>, ks: seq<nat>)
    requires cs != []
    requires forall j :: 0 <= j < |earlier| ==> earlier[j] < |cs| - 1 && IsRecordedParagraph(cs[..|cs| - 1][earlier[j]])
    requires forall j, j' :: 0 <= j < j' < |earlier| ==> earlier[j] < earlier[j']
    requires forall k :: 0 <= k < |cs| - 1 && IsRecordedParagraph(cs[..|cs| - 1][k]) ==> k in earlier
    requires ks == if IsRecordedParagraph(cs[|cs| - 1]) then earlier + [|cs| - 1] else earlier
    ensures forall j :: 0 <= j < |ks| ==> ks[j] < |cs| && IsRecordedParagraph(cs[ks[j]])
    ensures forall j, j' :: 0 <= j < j' < |ks| ==> ks[j] < ks[j']
    ensures forall k :: 0 <= k < |cs| && IsRecordedParagraph(cs[k]) ==> k in ks
  {
    var n := |cs| - 1;
    forall j | 0 <= j < |earlier|
      ensures earlier[j] < n && IsRecordedParagraph(cs[earlier[j]])
    {
      assert cs[..n][earlier[j]] == cs[earlier[j]];
    }
    forall k | 0 <= k < n && IsRecordedParagraph(cs[k])
      ensures k in earlier
    {
      assert cs[..n][k] == cs[k];
    }
    if IsRecordedParagraph(cs[n]) {
      assert forall j :: 0 <= j < |earlier| ==> ks[j] == earlier[j];
    }
  }

  /**
   * The section in force is the stripped text of the last `h2` child, or the
   * empty string when there has been no `h2` child.
   */
  lemma {:induction false} CurrentSectionIsLatestHeading(cs: seq<Child>)
    ensures (forall k :: 0 <= k < |cs| ==> !IsSectionHeading(cs[k])) ==> CurrentSection(cs) == ""
    ensures forall k :: 0 <= k < |cs| && IsSectionHeading(cs[k])
                        && (forall m :: k < m < |cs| ==> !IsSectionHeading(cs[m]))
                        ==> CurrentSection(cs) == Text.Strip(cs[k].text)
  {
    if cs != [] && !IsSectionHeading(cs[|cs| - 1]) {
      var earlier := cs[..|cs| - 1];
      CurrentSectionIsLatestHeading(earlier);
      assert forall k :: 0 <= k < |earlier| ==> earlier[k] == cs[k];
    }
  }

  /**
   * The j-th recorded paragraph comes from the j-th recorded child, carries its
   * stripped text, and is labelled with the section in force just before it.
   */
  lemma {:induction false} ParagraphsFollowChildren(cs: seq<Child>)
    ensures |ParagraphsOf(cs)| == |RecordedPositions(cs)|
    ensures forall j :: 0 <= j < |ParagraphsOf(cs)| ==>
              var k := RecordedPositions(cs)[j];
              ParagraphsOf(cs)[j] == Paragraph(CurrentSection(cs[..k]), Text.Strip(cs[k].text))
  {
    if cs != [] {
      var earlier := cs[..|cs| - 1];
      ParagraphsFollowChildren(earlier);
      forall k | 0 <= k < |earlier| ensures earlier[..k] == cs[..k] && earlier[k] == cs[k] { }
    }
  }

  /**
   * The fold of `parse_page` over the children of the content division:
   * an `h2` child resets the current section, a `p` child with non-empty
   * stripped text is appended under the current section, anything else is skipped.
   */
  method ContentParagraphs(children: seq<Child>) returns (paragraphs: seq<Paragraph>)
    ensures paragraphs == ParagraphsOf(children)
  {
    var currentSection := "";
    paragraphs := [];
    for i := 0 to |children|
      invariant currentSection == CurrentSection(children[..i])
      invariant paragraphs == ParagraphsOf(children[..i])
    {
      var element := children[i];
      assert children[..i + 1][..i] == children[..i];
      if element.name == "h2" {
        currentSection := Text.Strip(element.text);
      } else if element.name == "p" && (Text.StripIsTrimmedSlice(element.text); Text.Strip(element.text) != "") {
        paragraphs := paragraphs + [Paragraph(currentSection, Text.Strip(element.text))];
      }
    }
    assert children[..|children|] == children;
  }

  /**
   * The outline of a page: one stripped label per `span.toctext` of the TOC
   * element, in order; a page without a TOC element has an empty outline.
   */
  function TableOfContents(toc: Option<seq<string>>): (entries: seq<string>)
    ensures toc.None? ==> entries == []
    ensures toc.Some? ==> |entries| == |toc.value|
                          && forall i :: 0 <= i < |entries| ==> entries[i] == Text.Strip(toc.value[i])
  {
    match toc
    case None => []
    case Some(items) => seq(|items|, i requires 0 <= i < |items| => Text.Strip(items[i]))
  }

  /** The record `parse_page` returns for the page at `url` with title heading and outbound `links`. */
  function RecordOf(url: string, doc: Document, links: seq<string>): PageRecord
    requires doc.firstHeading.Some?
  {
    PageRecord(
      url,
      Text.Strip(doc.firstHeading.value),
      if doc.content.Some? then ParagraphsOf(doc.content.value) else [],
      links,
      TableOfContents(doc.toc))
  }
}
