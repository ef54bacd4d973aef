/** The HTML side of page extraction, over an abstract document: the elements of the page in
    document order, each with its tag, attributes, text and whether it lies inside a `<main>`. */
module Html {
  import opened Wrappers
  import opened Urls

  /** One element of the parsed page. `text` is the element's text content (the text of all its
      descendants); `inMain` holds when some ancestor is a `main` element. */
  datatype Element = Element(tag: string, attrs: map<string, string>, text: string, inMain: bool)

  /** A parsed page: its elements in document (pre-)order. */
  type Document = seq<Element>

  /** The HTML library's document builder (goquery's `NewDocumentFromReader`); `None` is a
      parse error. */
  type HtmlParser = string -> Option<Document>

  /** The element is picked by the selector `tag` (restricted to `main`'s descendants when
      `mainOnly`). */
  predicate Selected(e: Element, tag: string, mainOnly: bool)
  {
    e.tag == tag && (mainOnly ==> e.inMain)
  }

  /** Element `i` is the first selected element in document order. */
  predicate IsFirstSelected(doc: Document, i: int, tag: string, mainOnly: bool)
  {
    && 0 <= i < |doc|
    && Selected(doc[i], tag, mainOnly)
    && forall j :: 0 <= j < i ==> !Selected(doc[j], tag, mainOnly)
  }

  /** No element of the page is selected. */
  predicate NoneSelected(doc: Document, tag: string, mainOnly: bool)
  {
    forall i :: 0 <= i < |doc| ==> !Selected(doc[i], tag, mainOnly)
  }

  /** Position of the first selected element in document order, or `None`. */
  function FirstIndex(doc: Document, tag: string, mainOnly: bool): (r: Option<nat>)
    ensures r.Some? ==> IsFirstSelected(doc, r.value, tag, mainOnly)
    ensures r.None? <==> NoneSelected(doc, tag, mainOnly)
  {
    if doc == [] then None
    else if Selected(doc[0], tag, mainOnly) then Some(0)
    else
      match FirstIndex(doc[1..], tag, mainOnly)
      case None => None
      case Some(i) => Some(i + 1)
  }

  /** `Find(tag).First().Text()`: the text of the first selected element, `""` when none. */
  function FirstText(doc: Document, tag: string, mainOnly: bool): string
  {
    match FirstIndex(doc, tag, mainOnly)
    case None => ""
    case Some(i) => doc[i].text
  }

  /** Some element of the page is a `main`. */
  predicate HasMain(doc: Document)
  {
    exists i :: 0 <= i < |doc| && doc[i].tag == "main"
  }

  /** `getH1FromHTML` (crawler.go:45-52): `""` when the page does not parse; otherwise the text
      of the first `h1` in document order, or `""` when there is no `h1`. */
  function GetH1(parseHtml: HtmlParser, html: string): (r: string)
    ensures parseHtml(html).None? ==> r == ""
    ensures parseHtml(html).Some? ==>
      var doc := parseHtml(html).value;
      && (NoneSelected(doc, "h1", false) ==> r == "")
      && (forall i :: IsFirstSelected(doc, i, "h1", false) ==> r == doc[i].text)
  {
    match parseHtml(html)
    case None => ""
    case Some(doc) => FirstText(doc, "h1", false)
  }

  /** `getFirstParagraphFromHTML` (crawler.go:54-65): `""` when the page does not parse. Once any
      `main` element exists the answer is the first `p` inside a `main`, or `""` when no `p` lies
      inside one, even if a `p` exists elsewhere. With no `main`, it is the first `p` of the page,
      or `""`. */
  function GetFirstParagraph(parseHtml: HtmlParser, html: string): (r: string)
    ensures parseHtml(html).None? ==> r == ""
    ensures parseHtml(html).Some? && HasMain(parseHtml(html).value) ==>
      var doc := parseHtml(html).value;
      && (NoneSelected(doc, "p", true) ==> r == "")
      && (forall i :: IsFirstSelected(doc, i, "p", true) ==> r == doc[i].text)
    ensures parseHtml(html).Some? && !HasMain(parseHtml(html).value) ==>
      var doc := parseHtml(html).value;
      && (NoneSelected(doc, "p", false) ==> r == "")
      && (forall i :: IsFirstSelected(doc, i, "p", false) ==> r == doc[i].text)
  {
    match parseHtml(html)
    case None => ""
    case Some(doc) =>
      var res := FirstText(doc, "p", false);
      if HasMain(doc) then FirstText(doc, "p", true) else res
  }

  /** What one element contributes to the reference list: the rewritten value of its `attr`
      attribute when it is a `tag` element carrying `attr` and the value parses; nothing
      otherwise. */
  function RefOf(parse: Parser, e: Element, tag: string, attr: string, base: Url): (r: seq<string>)
    ensures |r| <= 1
    ensures |r| == 1 <==> e.tag == tag && attr in e.attrs && parse(e.attrs[attr]).Some?
    ensures |r| == 1 ==> Some(r[0]) == RewriteRef(parse, e.attrs[attr], base)
  {
    if e.tag == tag && attr in e.attrs then
      match RewriteRef(parse, e.attrs[attr], base)
      case None => []
      case Some(s) => [s]
    else []
  }

  /** The references of a document, element by element, in document order. */
  function Refs(parse: Parser, doc: Document, tag: string, attr: string, base: Url): (r: seq<string>)
    ensures |r| <= |doc|
  {
    if doc == [] then [] else RefOf(parse, doc[0], tag, attr, base) + Refs(parse, doc[1..], tag, attr, base)
  }

  /** The reference list of two pieces of a document is the two lists joined: order is kept,
      every element contributes on its own, and duplicates stay. */
  lemma {:induction false} RefsAppend(parse: Parser, d1: Document, d2: Document, tag: string, attr: string, base: Url)
    ensures Refs(parse, d1 + d2, tag, attr, base) == Refs(parse, d1, tag, attr, base) + Refs(parse, d2, tag, attr, base)
  {
    if d1 == [] {
      assert d1 + d2 == d2;
    } else {
      assert (d1 + d2)[1..] == d1[1..] + d2;
      RefsAppend(parse, d1[1..], d2, tag, attr, base);
    }
  }

  /** Elements of other tags contribute nothing. */
  lemma {:induction false} RefsIgnoreOtherTags(parse: Parser, doc: Document, tag: string, attr: string, base: Url)
    requires forall i :: 0 <= i < |doc| ==> doc[i].tag != tag
    ensures Refs(parse, doc, tag, attr, base) == []
  {
    if doc != [] {
      RefsIgnoreOtherTags(parse, doc[1..], tag, attr, base);
    }
  }

  /** `s` is what some element of the page contributes. */
  predicate ContributedBy(parse: Parser, doc: Document, tag: string, attr: string, base: Url, s: string)
  {
    exists i :: 0 <= i < |doc| && RefOf(parse, doc[i], tag, attr, base) == [s]
  }

  /** Every reference in the list is the rewrite of some element's attribute. */
  lemma {:induction false} RefsComeFromElements(parse: Parser, doc: Document, tag: string, attr: string, base: Url)
    ensures forall s :: s in Refs(parse, doc, tag, attr, base) ==> ContributedBy(parse, doc, tag, attr, base, s)
  {
    if doc != [] {
      var head := RefOf(parse, doc[0], tag, attr, base);
      var rest := Refs(parse, doc[1..], tag, attr, base);
      RefsComeFromElements(parse, doc[1..], tag, attr, base);
      forall s | s in Refs(parse, doc, tag, attr, base)
        ensures ContributedBy(parse, doc, tag, attr, base, s)
      {
        if s in head {
          assert RefOf(parse, doc[0], tag, attr, base) == [s];
        } else {
          assert s in rest;
          var i :| 0 <= i < |doc[1..]| && RefOf(parse, doc[1..][i], tag, attr, base) == [s];
          assert RefOf(parse, doc[i + 1], tag, attr, base) == [s];
        }
      }
    }
  }

  /** Every `tag` element whose `attr` parses contributes its rewrite to the list. */
  lemma {:induction false} RefsIncludeElements(parse: Parser, doc: Document, tag: string, attr: string, base: Url)
    ensures forall i :: 0 <= i < |doc| && doc[i].tag == tag && attr in doc[i].attrs && parse(doc[i].attrs[attr]).Some? ==>
      RewriteRef(parse, doc[i].attrs[attr], base).value in Refs(parse, doc, tag, attr, base)
  {
    forall i | 0 <= i < |doc| && doc[i].tag == tag && attr in doc[i].attrs && parse(doc[i].attrs[attr]).Some?
      ensures RewriteRef(parse, doc[i].attrs[attr], base).value in Refs(parse, doc, tag, attr, base)
    {
      assert doc == doc[..i] + [doc[i]] + doc[i + 1..];
      RefsAppend(parse, doc[..i] + [doc[i]], doc[i + 1..], tag, attr, base);
      RefsAppend(parse, doc[..i], [doc[i]], tag, attr, base);
      assert Refs(parse, [doc[i]], tag, attr, base) == RefOf(parse, doc[i], tag, attr, base);
    }
  }

  /** The `Each` loop of `getURLsFromHTML`/`getImagesFromHTML` (crawler.go:73-87,
      crawler.go:97-111): it visits the `tag` elements in order and appends one rewritten URL
      per element whose `attr` is present and parses. */
  method CollectRefs(parse: Parser, doc: Document, tag: string, attr: string, base: Url) returns (res: seq<string>)
    ensures res == Refs(parse, doc, tag, attr, base)
    ensures |res| <= |doc|
  {
    res := [];
    var i := 0;
    while i < |doc|
      invariant 0 <= i <= |doc|
      invariant res == Refs(parse, doc[..i], tag, attr, base)
    {
      var e := doc[i];
      if e.tag == tag && attr in e.attrs {
        var u := parse(e.attrs[attr]);
        if u.Some? {
          var filled := FillFromBase(u.value, base);
          res := res + [filled.scheme + "://" + filled.host + filled.path];
        }
      }
      assert Refs(parse, [e], tag, attr, base) == RefOf(parse, e, tag, attr, base);
      assert doc[..i + 1] == doc[..i] + [e];
      RefsAppend(parse, doc[..i], [e], tag, attr, base);
      i := i + 1;
    }
    assert doc[..|doc|] == doc;
  }

  /** `getURLsFromHTML` (crawler.go:67-89, `tag` = `a`, `attr` = `href`) and
      `getImagesFromHTML` (crawler.go:91-113, `img`, `src`), the same function twice: no list
      when the page does not parse; otherwise the element-by-element list `Refs`, in document
      order with duplicates kept (`RefsAppend`), so that each entry is the rewrite of some `tag` element's
      `attr`, each such element whose value parses has its rewrite in the list, and no element
      contributes more than one. */
  function ExtractRefs(parse: Parser, parseHtml: HtmlParser, html: string, base: Url, tag: string, attr: string)
    : (r: Option<seq<string>>)
    ensures r.None? <==> parseHtml(html).None?
    ensures r.Some? ==> r.value == Refs(parse, parseHtml(html).value, tag, attr, base)
    ensures r.Some? ==>
      var doc := parseHtml(html).value;
      && |r.value| <= |doc|
      && (forall s :: s in r.value ==> ContributedBy(parse, doc, tag, attr, base, s))
      && (forall i :: 0 <= i < |doc| && doc[i].tag == tag && attr in doc[i].attrs && parse(doc[i].attrs[attr]).Some? ==>
            RewriteRef(parse, doc[i].attrs[attr], base).value in r.value)
  {
    match parseHtml(html)
    case None => None
    case Some(doc) =>
      RefsComeFromElements(parse, doc, tag, attr, base);
      RefsIncludeElements(parse, doc, tag, attr, base);
      Some(Refs(parse, doc, tag, attr, base))
  }
}
