/** The PDF extractor: per-page link extraction, reading-order sorting of links, reconstruction
    of each page's text with inline `[text](uri)` markers, the flat link list, grouping links by
    page and rendering them as a Markdown list.

    The PDF library is not modelled: a page is given as data (its raw links, what its textbox
    query answers for a rectangle, its full text and its width), and an opened file as the
    document it shows after the optional authentication. */
module PdfExtractor {
  import opened Common
  import opened Text

  datatype Rect = Rect(x0: real, y0: real, x1: real, y1: real)

  const ZeroRect := Rect(0.0, 0.0, 0.0, 0.0)

  /** A link as the library lists it: its `"uri"` and `"from"` rectangle entries, each of which
      may be absent or `None`, and its `"type"` entry, `None` here when the key is absent. */
  datatype RawLink = RawLink(uri: Option<string>, from: Option<Rect>, linkType: Option<string>)

  /** One page: its raw links in listing order, the text inside a rectangle, its full text and
      its width. */
  datatype Page = Page(rawLinks: seq<RawLink>, textbox: Rect -> string, text: string, width: real)

  datatype PdfLink = PdfLink(uri: string, text: string, pageNumber: nat, linkType: string, rect: Rect)

  /** The extraction result: one reconstructed text per page, the flat link list and the
      document metadata. */
  datatype PdfContent = PdfContent(text: seq<string>, links: seq<PdfLink>, metadata: map<string, string>)

  datatype PdfDocument = PdfDocument(pages: seq<Page>, metadata: map<string, string>)

  /** An opened file: whether it needs a password, and what reading it gives after
      `authenticate` was called with the given password (`None`: not called). A document
      that is still locked because no or a wrong password was given is an `Err`. */
  datatype PdfFile = PdfFile(needsPass: bool, afterAuthentication: Option<string> -> Result<PdfDocument>)

  /** The file system as the extractor sees it: whether a path exists and what opening it
      gives (a parse failure is an `Err`). */
  datatype FileSystem = FileSystem(pathExists: string -> bool, open: string -> Result<PdfFile>)

  // ---------------------------------------------------------------------------------------
  // Links of one page

  predicate HasUri(raw: RawLink) {
    raw.uri.Some? && raw.uri.value != ""
  }

  /** A structured link from a raw one; links without a target are dropped. */
  function CreatePdfLink(raw: RawLink, page: Page, pageNum: nat): (r: Option<PdfLink>)
    ensures r.Some? <==> HasUri(raw)
    ensures r.Some? ==> r.value.uri == raw.uri.value && r.value.pageNumber == pageNum
    ensures r.Some? ==> r.value.text == "" || (!IsSpace(r.value.text[0]) && !IsSpace(r.value.text[|r.value.text| - 1]))
    ensures r.Some? && raw.from.Some? ==> r.value.rect == raw.from.value && r.value.text == Strip(page.textbox(raw.from.value))
    ensures r.Some? && raw.from.None? ==> r.value.text == "" && r.value.rect == ZeroRect
    ensures r.Some? && raw.linkType.None? ==> r.value.linkType == "unknown"
    ensures r.Some? && raw.linkType.Some? ==> r.value.linkType == raw.linkType.value
  {
    if !HasUri(raw) then None
    else
      var text := if raw.from.Some? then Strip(page.textbox(raw.from.value)) else "";
      Some(PdfLink(raw.uri.value, text, pageNum, raw.linkType.GetOr("unknown"), raw.from.GetOr(ZeroRect)))
  }

  function UrisOf(links: seq<PdfLink>): seq<string>
    decreases |links|
  {
    if links == [] then [] else UrisOf(links[..|links| - 1]) + [links[|links| - 1].uri]
  }

  /** The non-empty targets among raw links, in listing order. */
  function NonEmptyUris(raws: seq<RawLink>): seq<string>
    decreases |raws|
  {
    if raws == [] then []
    else NonEmptyUris(raws[..|raws| - 1]) + (if HasUri(raws[|raws| - 1]) then [raws[|raws| - 1].uri.value] else [])
  }

  /** The links kept from a list of raw links. */
  function KeptLinks(raws: seq<RawLink>, page: Page, pageNum: nat): (r: seq<PdfLink>)
    ensures UrisOf(r) == NonEmptyUris(raws)
    ensures forall i :: 0 <= i < |r| ==> r[i].uri != "" && r[i].pageNumber == pageNum
    decreases |raws|
  {
    if raws == [] then []
    else
      var prefix := KeptLinks(raws[..|raws| - 1], page, pageNum);
      match CreatePdfLink(raws[|raws| - 1], page, pageNum)
      case Some(l) =>
        assert (prefix + [l])[..|prefix|] == prefix;
        prefix + [l]
      case None => prefix
  }

  /** Keeping the links of one more raw link. */
  lemma KeptLinksSnoc(raws: seq<RawLink>, k: nat, page: Page, pageNum: nat)
    requires k < |raws|
    ensures KeptLinks(raws[..k + 1], page, pageNum)
         == KeptLinks(raws[..k], page, pageNum)
            + (if CreatePdfLink(raws[k], page, pageNum).Some? then [CreatePdfLink(raws[k], page, pageNum).value] else [])
  {
    var prefix := raws[..k + 1];
    assert prefix[..|prefix| - 1] == raws[..k];
    assert prefix[|prefix| - 1] == raws[k];
  }

  /** The links of a page, in listing order. */
  function PageLinks(page: Page, pageNum: nat): (r: seq<PdfLink>)
    ensures UrisOf(r) == NonEmptyUris(page.rawLinks)
    ensures forall i :: 0 <= i < |r| ==> r[i].uri != "" && r[i].pageNumber == pageNum
  {
    KeptLinks(page.rawLinks, page, pageNum)
  }

  method ExtractPageLinks(page: Page, pageNum: nat) returns (links: seq<PdfLink>)
    ensures links == PageLinks(page, pageNum)
  {
    links := [];
    for k := 0 to |page.rawLinks|
      invariant links == KeptLinks(page.rawLinks[..k], page, pageNum)
    {
      KeptLinksSnoc(page.rawLinks, k, page, pageNum);
      var pdfLink := CreatePdfLink(page.rawLinks[k], page, pageNum);
      if pdfLink.Some? {
        links := links + [pdfLink.value];
      }
    }
    assert page.rawLinks[..|page.rawLinks|] == page.rawLinks;
  }

  // ---------------------------------------------------------------------------------------
  // Reading order: a stable sort on (y0, x0)

  /** `(a.rect[1], a.rect[0]) < (b.rect[1], b.rect[0])`. */
  predicate KeyLess(a: PdfLink, b: PdfLink) {
    a.rect.y0 < b.rect.y0 || (a.rect.y0 == b.rect.y0 && a.rect.x0 < b.rect.x0)
  }

  predicate SortedByPosition(s: seq<PdfLink>) {
    forall i, j :: 0 <= i < j < |s| ==> !KeyLess(s[j], s[i])
  }

  /** The links of `s` whose position key is `(y, x)`, in their order in `s`. */
  function WithKey(s: seq<PdfLink>, y: real, x: real): seq<PdfLink>
    decreases |s|
  {
    if s == [] then []
    else (if s[0].rect.y0 == y && s[0].rect.x0 == x then [s[0]] else []) + WithKey(s[1..], y, x)
  }

  /** Inserts `l` before the first element that is not strictly before it. */
  function InsertByPosition(l: PdfLink, s: seq<PdfLink>): (r: seq<PdfLink>)
    ensures multiset(r) == multiset(s) + multiset{l}
    decreases |s|
  {
    if s == [] then [l]
    else if KeyLess(s[0], l) then
      assert s == [s[0]] + s[1..];
      [s[0]] + InsertByPosition(l, s[1..])
    else [l] + s
  }

  lemma {:induction false} InsertKeepsSorted(l: PdfLink, s: seq<PdfLink>)
    requires SortedByPosition(s)
    ensures SortedByPosition(InsertByPosition(l, s))
    decreases |s|
  {
    if s != [] {
      if KeyLess(s[0], l) {
        var rest := InsertByPosition(l, s[1..]);
        InsertKeepsSorted(l, s[1..]);
        var r := [s[0]] + rest;
        forall j | 0 < j < |r| ensures !KeyLess(r[j], s[0]) {
          var e := r[j];
          assert e == rest[j - 1];
          assert e in multiset(rest);
          assert e == l || e in multiset(s[1..]);
        }
      } else {
        var r := [l] + s;
        forall j | 0 < j < |r| ensures !KeyLess(r[j], l) {
          assert r[j] == s[j - 1];
          assert j - 1 == 0 || !KeyLess(s[j - 1], s[0]);
        }
      }
    }
  }

  /** Inserting `l` puts it in front of the elements with its own key and changes nothing
      for the other keys. */
  lemma {:induction false} InsertWithKey(l: PdfLink, s: seq<PdfLink>, y: real, x: real)
    ensures WithKey(InsertByPosition(l, s), y, x)
         == if l.rect.y0 == y && l.rect.x0 == x then [l] + WithKey(s, y, x) else WithKey(s, y, x)
    decreases |s|
  {
    if s == [] {
      assert WithKey([l], y, x) == (if l.rect.y0 == y && l.rect.x0 == x then [l] else []) + WithKey([], y, x);
    } else if KeyLess(s[0], l) {
      var rest := InsertByPosition(l, s[1..]);
      var r := [s[0]] + rest;
      assert r[0] == s[0] && r[1..] == rest;
      var head := if s[0].rect.y0 == y && s[0].rect.x0 == x then [s[0]] else [];
      assert WithKey(r, y, x) == head + WithKey(rest, y, x);
      assert WithKey(s, y, x) == head + WithKey(s[1..], y, x);
      InsertWithKey(l, s[1..], y, x);
      // `s[0]` is strictly before `l`, so at most one of them has the key `(y, x)`.
      assert head != [] ==> !(l.rect.y0 == y && l.rect.x0 == x);
    } else {
      var r := [l] + s;
      assert r[0] == l && r[1..] == s;
    }
  }

  /** `sorted(links, key=lambda x: (x.rect[1], x.rect[0]))`: in reading order, and a
      permutation of its input. */
  function SortByPosition(s: seq<PdfLink>): (r: seq<PdfLink>)
    ensures SortedByPosition(r)
    ensures multiset(r) == multiset(s)
    decreases |s|
  {
    if s == [] then []
    else
      assert s == [s[0]] + s[1..];
      InsertKeepsSorted(s[0], SortByPosition(s[1..]));
      InsertByPosition(s[0], SortByPosition(s[1..]))
  }

  /** The sort is stable: links with equal keys keep their relative order. */
  lemma {:induction false} SortWithKey(s: seq<PdfLink>, y: real, x: real)
    ensures WithKey(SortByPosition(s), y, x) == WithKey(s, y, x)
    decreases |s|
  {
    if s != [] {
      SortWithKey(s[1..], y, x);
      InsertWithKey(s[0], SortByPosition(s[1..]), y, x);
    }
  }

  lemma SortIsStable(s: seq<PdfLink>)
    ensures forall y, x :: WithKey(SortByPosition(s), y, x) == WithKey(s, y, x)
  {
    forall y, x ensures WithKey(SortByPosition(s), y, x) == WithKey(s, y, x) {
      SortWithKey(s, y, x);
    }
  }

  // ---------------------------------------------------------------------------------------
  // Page text reconstruction

  /** A piece of a reconstructed page: text taken from the page, or a link marker. */
  datatype Piece = PageTextPiece(s: string) | LinkMarker(text: string, uri: string)

  function MarkerText(text: string, uri: string): string {
    "[" + text + "](" + uri + ")"
  }

  function Show(p: Piece): string {
    match p
    case PageTextPiece(s) => s
    case LinkMarker(text, uri) => MarkerText(text, uri)
  }

  function Shows(ps: seq<Piece>): (r: seq<string>)
    ensures |r| == |ps|
  {
    seq(|ps|, i requires 0 <= i < |ps| => Show(ps[i]))
  }

  lemma ShowsAppend(a: seq<Piece>, b: seq<Piece>)
    ensures Shows(a + b) == Shows(a) + Shows(b)
  {
    assert forall i :: 0 <= i < |a + b| ==> Shows(a + b)[i] == (Shows(a) + Shows(b))[i];
  }

  /** The text the page holds above a link: the textbox from the top of the page to the
      link's top edge. */
  function TextAbove(page: Page, l: PdfLink): string {
    page.textbox(Rect(0.0, 0.0, page.width, l.rect.y0))
  }

  /** The pieces written for the links `links`, in order, with the cursor at `lastPos`: the
      text above each link from the cursor on (when that text is non-empty), the link's marker,
      the cursor moved to the length of that text; at the end the rest of the page text from
      the cursor on, when non-empty. */
  function Pieces(page: Page, links: seq<PdfLink>, lastPos: nat): (r: seq<Piece>)
    ensures |links| <= |r| <= 2 * |links| + 1
    decreases |links|
  {
    if links == [] then
      var rest := Drop(page.text, lastPos);
      if rest != "" then [PageTextPiece(rest)] else []
    else
      var above := TextAbove(page, links[0]);
      (if above != "" then [PageTextPiece(Drop(above, lastPos))] else [])
      + [LinkMarker(links[0].text, links[0].uri)]
      + Pieces(page, links[1..], |above|)
  }

  /** The pieces of page number `pageNum`: its links in reading order, cursor at 0. */
  function PagePieces(page: Page, pageNum: nat): seq<Piece> {
    Pieces(page, SortByPosition(PageLinks(page, pageNum)), 0)
  }

  function PageText(page: Page, pageNum: nat): string {
    Concat(Shows(PagePieces(page, pageNum)))
  }

  /** One reconstructed text per page, pages numbered from 1. */
  function PagesText(pages: seq<Page>): (r: seq<string>)
    ensures |r| == |pages|
  {
    seq(|pages|, i requires 0 <= i < |pages| => PageText(pages[i], i + 1))
  }

  /** The strings written for the text above a link, from the cursor on: none when that
      text is empty. */
  function TextBefore(above: string, lastPos: nat): seq<string> {
    if above != "" then [Drop(above, lastPos)] else []
  }

  /** The strings written after the last link: the rest of the page text, when non-empty. */
  function TextAfter(text: string, lastPos: nat): seq<string> {
    if Drop(text, lastPos) != "" then [Drop(text, lastPos)] else []
  }

  /** The body of the per-page loop of `_extract_all_pages_text`: walks the page's links in
      reading order with the cursor `lastPos`, collecting the strings to be joined. */
  method FormatPageText(page: Page, links: seq<PdfLink>) returns (text: string)
    ensures text == Concat(Shows(Pieces(page, links, 0)))
  {
    var formattedText: seq<string> := [];
    var lastPos: nat := 0;
    assert links[0..] == links;
    for k := 0 to |links|
      invariant formattedText + Shows(Pieces(page, links[k..], lastPos)) == Shows(Pieces(page, links, 0))
    {
      var link := links[k];
      var textBefore := page.textbox(Rect(0.0, 0.0, page.width, link.rect.y0));
      ghost var before := formattedText;
      if textBefore != "" {
        formattedText := formattedText + [Drop(textBefore, lastPos)];
      }
      assert formattedText == before + TextBefore(textBefore, lastPos);
      formattedText := formattedText + [MarkerText(link.text, link.uri)];
      WalkStep(page, links, k, lastPos, before);
      lastPos := |textBefore|;
    }
    ghost var walked := formattedText;
    var finalText := page.text;
    if Drop(finalText, lastPos) != "" {
      formattedText := formattedText + [Drop(finalText, lastPos)];
    }
    assert formattedText == walked + TextAfter(page.text, lastPos);
    WalkEnd(page, links, lastPos, walked);
    text := Concat(formattedText);
  }

  /** One step of the walk: the strings from link `k` on are those for the text above it,
      its marker, and the strings from link `k + 1` on with the cursor moved to the length of
      that text. */
  lemma PiecesStep(page: Page, links: seq<PdfLink>, k: nat, lastPos: nat)
    requires k < |links|
    ensures Shows(Pieces(page, links[k..], lastPos))
         == TextBefore(TextAbove(page, links[k]), lastPos)
            + [MarkerText(links[k].text, links[k].uri)]
            + Shows(Pieces(page, links[k + 1..], |TextAbove(page, links[k])|))
  {
    var l := links[k];
    var above := TextAbove(page, l);
    assert links[k..][0] == l;
    assert links[k..][1..] == links[k + 1..];
    var before := if above != "" then [PageTextPiece(Drop(above, lastPos))] else [];
    var tail := Pieces(page, links[k + 1..], |above|);
    assert Pieces(page, links[k..], lastPos) == before + [LinkMarker(l.text, l.uri)] + tail;
    ShowsAppend(before + [LinkMarker(l.text, l.uri)], tail);
    ShowsAppend(before, [LinkMarker(l.text, l.uri)]);
    assert Shows(before) == TextBefore(above, lastPos);
  }

  /** The loop invariant of the walk survives one link. */
  lemma WalkStep(page: Page, links: seq<PdfLink>, k: nat, lastPos: nat, done: seq<string>)
    requires k < |links|
    requires done + Shows(Pieces(page, links[k..], lastPos)) == Shows(Pieces(page, links, 0))
    ensures done + TextBefore(TextAbove(page, links[k]), lastPos) + [MarkerText(links[k].text, links[k].uri)]
            + Shows(Pieces(page, links[k + 1..], |TextAbove(page, links[k])|))
         == Shows(Pieces(page, links, 0))
  {
    PiecesStep(page, links, k, lastPos);
  }

  /** After the last link the walk has written everything but the text after it. */
  lemma WalkEnd(page: Page, links: seq<PdfLink>, lastPos: nat, done: seq<string>)
    requires done + Shows(Pieces(page, links[|links|..], lastPos)) == Shows(Pieces(page, links, 0))
    ensures done + TextAfter(page.text, lastPos) == Shows(Pieces(page, links, 0))
  {
    PiecesEnd(page, links, lastPos);
  }

  lemma PiecesEnd(page: Page, links: seq<PdfLink>, lastPos: nat)
    ensures Shows(Pieces(page, links[|links|..], lastPos)) == TextAfter(page.text, lastPos)
  {
    assert links[|links|..] == [];
  }

  lemma PagesTextSnoc(pages: seq<Page>, i: nat)
    requires i < |pages|
    ensures PagesText(pages[..i + 1]) == PagesText(pages[..i]) + [PageText(pages[i], i + 1)]
  {
    var a := PagesText(pages[..i + 1]);
    var b := PagesText(pages[..i]) + [PageText(pages[i], i + 1)];
    assert |a| == |b|;
    forall j | 0 <= j < |a| ensures a[j] == b[j] {
      assert pages[..i + 1][j] == pages[j];
    }
  }

  /** One page of `_extract_all_pages_text`: its links, sorted into reading order, then the
      walk over them. */
  method ExtractPageText(page: Page, pageNum: nat) returns (text: string)
    ensures text == PageText(page, pageNum)
  {
    var pageLinks := ExtractPageLinks(page, pageNum);
    var links := SortByPosition(pageLinks);
    text := FormatPageText(page, links);
  }

  method ExtractAllPagesText(pages: seq<Page>) returns (formattedPages: seq<string>)
    ensures formattedPages == PagesText(pages)
  {
    formattedPages := [];
    for i := 0 to |pages|
      invariant formattedPages == PagesText(pages[..i])
    {
      var text := ExtractPageText(pages[i], i + 1);
      PagesTextSnoc(pages, i);
      formattedPages := formattedPages + [text];
    }
    assert pages[..|pages|] == pages;
  }

  /** The text pieces of a reconstruction, concatenated: the page text with the markers taken
      out. */
  function TextWithoutMarkers(ps: seq<Piece>): string
    decreases |ps|
  {
    if ps == [] then ""
    else (if ps[0].PageTextPiece? then ps[0].s else "") + TextWithoutMarkers(ps[1..])
  }

  /** The markers of a reconstruction, as (display text, target) pairs in order. */
  function MarkersOf(ps: seq<Piece>): seq<(string, string)>
    decreases |ps|
  {
    if ps == [] then []
    else (if ps[0].LinkMarker? then [(ps[0].text, ps[0].uri)] else []) + MarkersOf(ps[1..])
  }

  function LinkTargets(links: seq<PdfLink>): (r: seq<(string, string)>)
    ensures |r| == |links|
  {
    seq(|links|, i requires 0 <= i < |links| => (links[i].text, links[i].uri))
  }

  lemma {:induction false} TextWithoutMarkersAppend(a: seq<Piece>, b: seq<Piece>)
    ensures TextWithoutMarkers(a + b) == TextWithoutMarkers(a) + TextWithoutMarkers(b)
    decreases |a|
  {
    if a == [] {
      assert a + b == b;
    } else {
      assert (a + b)[0] == a[0];
      assert (a + b)[1..] == a[1..] + b;
      TextWithoutMarkersAppend(a[1..], b);
    }
  }

  lemma {:induction false} MarkersOfAppend(a: seq<Piece>, b: seq<Piece>)
    ensures MarkersOf(a + b) == MarkersOf(a) + MarkersOf(b)
    decreases |a|
  {
    if a == [] {
      assert a + b == b;
    } else {
      assert (a + b)[0] == a[0];
      assert (a + b)[1..] == a[1..] + b;
      MarkersOfAppend(a[1..], b);
    }
  }

  /** Every link gets exactly one marker, in the order the links are walked. */
  lemma {:induction false} OneMarkerPerLink(page: Page, links: seq<PdfLink>, lastPos: nat)
    ensures MarkersOf(Pieces(page, links, lastPos)) == LinkTargets(links)
    decreases |links|
  {
    if links != [] {
      var above := TextAbove(page, links[0]);
      var first := if above != "" then [PageTextPiece(Drop(above, lastPos))] else [];
      var tail := Pieces(page, links[1..], |above|);
      MarkersOfAppend(first + [LinkMarker(links[0].text, links[0].uri)], tail);
      MarkersOfAppend(first, [LinkMarker(links[0].text, links[0].uri)]);
      OneMarkerPerLink(page, links[1..], |above|);
      assert LinkTargets(links) == [(links[0].text, links[0].uri)] + LinkTargets(links[1..]);
    }
  }

  /** The texts above the links are prefixes of the page text whose lengths never decrease
      along the walk: the situation the cursor is designed for. */
  predicate AboveTextsChain(page: Page, links: seq<PdfLink>) {
    && (forall i :: 0 <= i < |links| ==> TextAbove(page, links[i]) <= page.text)
    && (forall i, j :: 0 <= i <= j < |links| ==> |TextAbove(page, links[i])| <= |TextAbove(page, links[j])|)
  }

  lemma ChainTail(page: Page, links: seq<PdfLink>)
    requires links != [] && AboveTextsChain(page, links)
    ensures AboveTextsChain(page, links[1..])
    ensures forall i :: 0 <= i < |links[1..]| ==> |TextAbove(page, links[0])| <= |TextAbove(page, links[1..][i])|
  {
    forall i | 0 <= i < |links[1..]|
      ensures TextAbove(page, links[1..][i]) <= page.text
      ensures |TextAbove(page, links[0])| <= |TextAbove(page, links[1..][i])|
    {
      assert links[1..][i] == links[i + 1];
    }
    forall i, j | 0 <= i <= j < |links[1..]|
      ensures |TextAbove(page, links[1..][i])| <= |TextAbove(page, links[1..][j])|
    {
      assert links[1..][i] == links[i + 1] && links[1..][j] == links[j + 1];
    }
  }

  /** Under that assumption no character of the page text is lost or repeated: taking the
      markers out of the reconstruction leaves the page text from the cursor on. */
  lemma {:induction false} ReconstructionKeepsText(page: Page, links: seq<PdfLink>, lastPos: nat)
    requires AboveTextsChain(page, links)
    requires lastPos <= |page.text|
    requires forall i :: 0 <= i < |links| ==> lastPos <= |TextAbove(page, links[i])|
    ensures TextWithoutMarkers(Pieces(page, links, lastPos)) == page.text[lastPos..]
    decreases |links|
  {
    if links != [] {
      var above := TextAbove(page, links[0]);
      assert above <= page.text && lastPos <= |above|;
      ChainTail(page, links);
      ReconstructionKeepsText(page, links[1..], |above|);
      FirstLinkKeepsText(page, links, lastPos);
    }
  }

  /** One step of the walk: the text taken before the first link is the page text from the
      cursor up to the end of the text above that link. */
  lemma FirstLinkKeepsText(page: Page, links: seq<PdfLink>, lastPos: nat)
    requires links != []
    requires TextAbove(page, links[0]) <= page.text && lastPos <= |TextAbove(page, links[0])|
    ensures var above := TextAbove(page, links[0]);
            TextWithoutMarkers(Pieces(page, links, lastPos))
              == page.text[lastPos..|above|] + TextWithoutMarkers(Pieces(page, links[1..], |above|))
  {
    var above := TextAbove(page, links[0]);
    var first := if above != "" then [PageTextPiece(Drop(above, lastPos))] else [];
    var marker := [LinkMarker(links[0].text, links[0].uri)];
    var tail := Pieces(page, links[1..], |above|);
    assert Pieces(page, links, lastPos) == first + marker + tail;
    TextWithoutMarkersAppend(first + marker, tail);
    TextWithoutMarkersAppend(first, marker);
    assert TextWithoutMarkers(marker) == "" by {
      assert marker[1..] == [];
    }
    if above != "" {
      assert TextWithoutMarkers(first) == Drop(above, lastPos) by {
        assert first[1..] == [];
      }
      assert Drop(above, lastPos) == page.text[lastPos..|above|];
    }
  }

  /** For a whole page: when the texts above its links form such a chain in reading order,
      removing the markers gives back the page text, and there is one marker per link, in
      reading order. */
  lemma PageReconstruction(page: Page, pageNum: nat)
    requires AboveTextsChain(page, SortByPosition(PageLinks(page, pageNum)))
    ensures TextWithoutMarkers(PagePieces(page, pageNum)) == page.text
    ensures MarkersOf(PagePieces(page, pageNum)) == LinkTargets(SortByPosition(PageLinks(page, pageNum)))
  {
    ReconstructionKeepsText(page, SortByPosition(PageLinks(page, pageNum)), 0);
    OneMarkerPerLink(page, SortByPosition(PageLinks(page, pageNum)), 0);
  }

  /** A page without kept links comes out as its full text, unchanged. */
  lemma PageWithoutLinks(page: Page, pageNum: nat)
    requires PageLinks(page, pageNum) == []
    ensures PageText(page, pageNum) == page.text
  {
    assert multiset(SortByPosition(PageLinks(page, pageNum))) == multiset{};
    assert SortByPosition(PageLinks(page, pageNum)) == [];
    if page.text != "" {
      assert Shows(PagePieces(page, pageNum)) == [page.text];
      assert Concat([page.text]) == page.text + Concat([]);
    }
  }

  // ---------------------------------------------------------------------------------------
  // The flat link list and grouping by page

  /** The links of the first `k` pages, page after page, each page's in listing order. */
  function AllLinksUpTo(pages: seq<Page>, k: nat): seq<PdfLink>
    requires k <= |pages|
    decreases k
  {
    if k == 0 then [] else AllLinksUpTo(pages, k - 1) + PageLinks(pages[k - 1], k)
  }

  /** Every link of the first `k` pages carries the number of one of them. */
  lemma {:induction false} AllLinksPageRange(pages: seq<Page>, k: nat)
    requires k <= |pages|
    ensures forall i :: 0 <= i < |AllLinksUpTo(pages, k)| ==> 1 <= AllLinksUpTo(pages, k)[i].pageNumber <= k
    decreases k
  {
    if k > 0 {
      AllLinksPageRange(pages, k - 1);
      var prefix := AllLinksUpTo(pages, k - 1);
      var here := PageLinks(pages[k - 1], k);
      var r := prefix + here;
      assert AllLinksUpTo(pages, k) == r;
      forall i | 0 <= i < |r| ensures 1 <= r[i].pageNumber <= k {
        if i < |prefix| {
          assert r[i] == prefix[i];
        } else {
          assert r[i] == here[i - |prefix|];
        }
      }
    }
  }

  predicate InPageOrder(links: seq<PdfLink>) {
    forall i, j :: 0 <= i < j < |links| ==> links[i].pageNumber <= links[j].pageNumber
  }

  /** Appending the links of a page numbered beyond all of `a` keeps the page order. */
  lemma InPageOrderAppend(a: seq<PdfLink>, b: seq<PdfLink>, n: nat)
    requires InPageOrder(a)
    requires forall i :: 0 <= i < |a| ==> a[i].pageNumber <= n
    requires forall i :: 0 <= i < |b| ==> b[i].pageNumber == n
    ensures InPageOrder(a + b)
  {
    var r := a + b;
    forall i, j | 0 <= i < j < |r| ensures r[i].pageNumber <= r[j].pageNumber {
      if j >= |a| {
        assert r[j] == b[j - |a|];
        if i < |a| {
          assert r[i] == a[i];
        } else {
          assert r[i] == b[i - |a|];
        }
      } else {
        assert r[i] == a[i] && r[j] == a[j];
      }
    }
  }

  /** Pages follow each other in the flat list: page numbers never decrease along it. */
  lemma {:induction false} AllLinksInPageOrder(pages: seq<Page>, k: nat)
    requires k <= |pages|
    ensures InPageOrder(AllLinksUpTo(pages, k))
    decreases k
  {
    if k > 0 {
      AllLinksInPageOrder(pages, k - 1);
      AllLinksPageRange(pages, k - 1);
      InPageOrderAppend(AllLinksUpTo(pages, k - 1), PageLinks(pages[k - 1], k), k);
    }
  }

  function AllLinks(pages: seq<Page>): seq<PdfLink> {
    AllLinksUpTo(pages, |pages|)
  }

  method ExtractAllPagesLinks(pages: seq<Page>) returns (links: seq<PdfLink>)
    ensures links == AllLinks(pages)
  {
    links := [];
    for i := 0 to |pages|
      invariant links == AllLinksUpTo(pages, i)
    {
      var pageLinks := ExtractPageLinks(pages[i], i + 1);
      links := links + pageLinks;
    }
  }

  /** The links of `links` on page `p`, in their order in `links`. */
  function OnPage(links: seq<PdfLink>, p: nat): (r: seq<PdfLink>)
    ensures |r| <= |links|
    decreases |links|
  {
    if links == [] then []
    else OnPage(links[..|links| - 1], p) + (if links[|links| - 1].pageNumber == p then [links[|links| - 1]] else [])
  }

  /** The links selected for page `p` are the links of `links` that are on page `p`. */
  lemma {:induction false} OnPageSelects(links: seq<PdfLink>, p: nat)
    ensures forall l :: l in OnPage(links, p) ==> l in links && l.pageNumber == p
    ensures forall i :: 0 <= i < |links| && links[i].pageNumber == p ==> links[i] in OnPage(links, p)
    decreases |links|
  {
    if links != [] {
      var prefix := links[..|links| - 1];
      OnPageSelects(prefix, p);
      forall i | 0 <= i < |links| - 1 && links[i].pageNumber == p ensures links[i] in OnPage(links, p) {
        assert links[i] == prefix[i];
      }
    }
  }

  lemma {:induction false} OnPageAppend(a: seq<PdfLink>, b: seq<PdfLink>, p: nat)
    ensures OnPage(a + b, p) == OnPage(a, p) + OnPage(b, p)
    decreases |b|
  {
    if b == [] {
      assert a + b == a;
    } else {
      assert (a + b)[..|a + b| - 1] == a + b[..|b| - 1];
      OnPageAppend(a, b[..|b| - 1], p);
    }
  }

  /** A list whose links all lie on page `n` has all of them on page `n` and none elsewhere. */
  lemma {:induction false} OnPageOfOnePage(links: seq<PdfLink>, n: nat, p: nat)
    requires forall i :: 0 <= i < |links| ==> links[i].pageNumber == n
    ensures OnPage(links, p) == if p == n then links else []
    decreases |links|
  {
    if links != [] {
      OnPageOfOnePage(links[..|links| - 1], n, p);
    }
  }

  lemma AllLinksStep(pages: seq<Page>, k: nat, p: nat)
    requires 0 < k <= |pages|
    ensures OnPage(AllLinksUpTo(pages, k), p)
         == OnPage(AllLinksUpTo(pages, k - 1), p) + (if p == k then PageLinks(pages[k - 1], k) else [])
  {
    var prefix := AllLinksUpTo(pages, k - 1);
    var here := PageLinks(pages[k - 1], k);
    assert AllLinksUpTo(pages, k) == prefix + here;
    OnPageAppend(prefix, here, p);
    OnPageOfOnePage(here, k, p);
  }

  /** A list without links on page `p` has none there. */
  lemma {:induction false} OnPageOfOtherPages(links: seq<PdfLink>, p: nat)
    requires forall i :: 0 <= i < |links| ==> links[i].pageNumber != p
    ensures OnPage(links, p) == []
    decreases |links|
  {
    if links != [] {
      OnPageOfOtherPages(links[..|links| - 1], p);
    }
  }

  /** The flat list keeps every page's links together and in listing order: its links on page
      `p` are exactly page `p`'s links. */
  lemma AllLinksOnPage(pages: seq<Page>, k: nat, p: nat)
    requires k <= |pages|
    ensures OnPage(AllLinksUpTo(pages, k), p) == if 1 <= p <= k then PageLinks(pages[p - 1], p) else []
  {
    if 1 <= p <= k {
      AllLinksOnListedPage(pages, k, p);
      AllLinksOnLastPage(pages, p);
    } else {
      AllLinksBeyond(pages, k, p);
    }
  }

  lemma {:induction false} AllLinksOnListedPage(pages: seq<Page>, k: nat, p: nat)
    requires k <= |pages| && 1 <= p <= k
    ensures OnPage(AllLinksUpTo(pages, k), p) == OnPage(AllLinksUpTo(pages, p), p)
    decreases k
  {
    if p < k {
      AllLinksEarlierPage(pages, k, p);
      AllLinksOnListedPage(pages, k - 1, p);
    }
  }

  lemma AllLinksEarlierPage(pages: seq<Page>, k: nat, p: nat)
    requires 0 < k <= |pages| && p != k
    ensures OnPage(AllLinksUpTo(pages, k), p) == OnPage(AllLinksUpTo(pages, k - 1), p)
  {
    AllLinksStep(pages, k, p);
  }

  lemma AllLinksBeyond(pages: seq<Page>, k: nat, p: nat)
    requires k <= |pages| && !(1 <= p <= k)
    ensures OnPage(AllLinksUpTo(pages, k), p) == []
  {
    AllLinksPageRange(pages, k);
    OnPageOfOtherPages(AllLinksUpTo(pages, k), p);
  }

  lemma AllLinksOnLastPage(pages: seq<Page>, k: nat)
    requires 0 < k <= |pages|
    ensures OnPage(AllLinksUpTo(pages, k), k) == PageLinks(pages[k - 1], k)
  {
    AllLinksStep(pages, k, k);
    AllLinksBeyond(pages, k - 1, k);
  }

  /** The distinct page numbers of `links`, in order of first appearance. */
  function PagesInOrder(links: seq<PdfLink>): (r: seq<nat>)
    ensures forall p :: p in r <==> OnPage(links, p) != []
    ensures forall i, j :: 0 <= i < j < |r| ==> r[i] != r[j]
    decreases |links|
  {
    if links == [] then []
    else
      var prefix := PagesInOrder(links[..|links| - 1]);
      var p := links[|links| - 1].pageNumber;
      if p in prefix then prefix else prefix + [p]
  }

  /** Along a list in page order, the pages first appear in increasing order. */
  lemma {:induction false} PagesInOrderIncreasing(links: seq<PdfLink>)
    requires InPageOrder(links)
    ensures forall i, j :: 0 <= i < j < |PagesInOrder(links)| ==> PagesInOrder(links)[i] < PagesInOrder(links)[j]
    decreases |links|
  {
    if links != [] {
      var prefix := links[..|links| - 1];
      var last := links[|links| - 1];
      assert InPageOrder(prefix) by {
        forall i, j | 0 <= i < j < |prefix| ensures prefix[i].pageNumber <= prefix[j].pageNumber {
          assert prefix[i] == links[i] && prefix[j] == links[j];
        }
      }
      PagesInOrderIncreasing(prefix);
      var r' := PagesInOrder(prefix);
      if last.pageNumber !in r' {
        forall i | 0 <= i < |r'| ensures r'[i] < last.pageNumber {
          var l := OnPage(prefix, r'[i])[0];
          OnPageSelects(prefix, r'[i]);
          assert l in OnPage(prefix, r'[i]);
          var k :| 0 <= k < |prefix| && prefix[k] == l;
          assert links[k] == l;
        }
        var r := r' + [last.pageNumber];
        assert PagesInOrder(links) == r;
        forall i, j | 0 <= i < j < |r| ensures r[i] < r[j] {
          if j < |r'| {
            assert r[i] == r'[i] && r[j] == r'[j];
          } else {
            assert r[i] == r'[i];
          }
        }
      }
    }
  }

  /** `Dict[int, List[PDFLink]]`: a map plus the order in which its keys were inserted. */
  datatype LinkGroups = LinkGroups(pageOrder: seq<nat>, byPage: map<nat, seq<PdfLink>>)

  method GroupLinksByPage(links: seq<PdfLink>) returns (groups: LinkGroups)
    ensures groups.pageOrder == PagesInOrder(links)
    ensures forall p :: p in groups.byPage <==> OnPage(links, p) != []
    ensures forall p :: p in groups.byPage ==> groups.byPage[p] == OnPage(links, p)
  {
    var pageOrder: seq<nat> := [];
    var byPage: map<nat, seq<PdfLink>> := map[];
    for k := 0 to |links|
      invariant pageOrder == PagesInOrder(links[..k])
      invariant forall p :: p in byPage <==> OnPage(links[..k], p) != []
      invariant forall p :: p in byPage ==> byPage[p] == OnPage(links[..k], p)
    {
      assert links[..k + 1][..k] == links[..k];
      var link := links[k];
      if link.pageNumber !in byPage {
        byPage := byPage[link.pageNumber := []];
        pageOrder := pageOrder + [link.pageNumber];
      }
      byPage := byPage[link.pageNumber := byPage[link.pageNumber] + [link]];
    }
    assert links[..|links|] == links;
    groups := LinkGroups(pageOrder, byPage);
  }

  // ---------------------------------------------------------------------------------------
  // Markdown listing

  function MarkdownLines(links: seq<PdfLink>): (r: seq<string>)
    ensures |r| == |links|
  {
    seq(|links|, i requires 0 <= i < |links| => "- " + MarkerText(links[i].text, links[i].uri))
  }

  /** One line `- [text](uri)` per link, joined by newlines. */
  function FormatLinksAsMarkdown(links: seq<PdfLink>): (r: string)
    ensures r == "" <==> links == []
    ensures |links| == 1 ==> r == "- " + MarkerText(links[0].text, links[0].uri)
  {
    Join("\n", MarkdownLines(links))
  }

  /** Formatting two lists one after the other is formatting each, one newline between. */
  lemma FormatLinksAppend(a: seq<PdfLink>, b: seq<PdfLink>)
    requires a != [] && b != []
    ensures FormatLinksAsMarkdown(a + b) == FormatLinksAsMarkdown(a) + "\n" + FormatLinksAsMarkdown(b)
  {
    assert MarkdownLines(a + b) == MarkdownLines(a) + MarkdownLines(b);
    JoinAppend("\n", MarkdownLines(a), MarkdownLines(b));
  }

  // ---------------------------------------------------------------------------------------
  // Opening and the whole extraction

  /** The password `authenticate` is called with: only when the document needs one and a
      non-empty password was given. */
  function AuthenticationPassword(needsPass: bool, password: Option<string>): (r: Option<string>)
    ensures r.Some? <==> needsPass && Truthy(password)
    ensures r.Some? ==> r == password
  {
    if needsPass && Truthy(password) then password else None
  }

  /** `_open_secured_document`: a missing path fails before the file is parsed. */
  function OpenSecuredDocument(path: string, password: Option<string>, fs: FileSystem): (r: Result<PdfDocument>)
    ensures !fs.pathExists(path) ==> r == Err(FileNotFoundError("PDF file not found: " + path))
    ensures fs.pathExists(path) && fs.open(path).Err? ==> r == Err(fs.open(path).error)
    ensures fs.pathExists(path) && fs.open(path).Ok?
            ==> var file := fs.open(path).value;
                r == file.afterAuthentication(AuthenticationPassword(file.needsPass, password))
    ensures r.Ok? ==> fs.pathExists(path) && fs.open(path).Ok?
  {
    if !fs.pathExists(path) then Err(FileNotFoundError("PDF file not found: " + path))
    else
      match fs.open(path)
      case Err(e) => Err(e)
      case Ok(file) => file.afterAuthentication(AuthenticationPassword(file.needsPass, password))
  }

  /** What `extract_content` yields for a path. */
  function ContentOf(path: string, password: Option<string>, fs: FileSystem): (r: Result<PdfContent>)
    ensures r.Ok? <==> OpenSecuredDocument(path, password, fs).Ok?
    ensures r.Err? ==> r.error == OpenSecuredDocument(path, password, fs).error
    ensures r.Ok? ==> var doc := OpenSecuredDocument(path, password, fs).value;
                      && |r.value.text| == |doc.pages|
                      && (forall i :: 0 <= i < |doc.pages| ==> r.value.text[i] == PageText(doc.pages[i], i + 1))
                      && r.value.links == AllLinks(doc.pages)
                      && r.value.metadata == doc.metadata
  {
    var doc :- OpenSecuredDocument(path, password, fs);
    Ok(PdfContent(PagesText(doc.pages), AllLinks(doc.pages), doc.metadata))
  }

  method ExtractContent(path: string, password: Option<string>, fs: FileSystem) returns (r: Result<PdfContent>)
    ensures r == ContentOf(path, password, fs)
  {
    var secured := OpenSecuredDocument(path, password, fs);
    if secured.Err? {
      return Err(secured.error);
    }
    var doc := secured.value;
    var text := ExtractAllPagesText(doc.pages);
    var links := ExtractAllPagesLinks(doc.pages);
    r := Ok(PdfContent(text, links, doc.metadata));
  }
}
