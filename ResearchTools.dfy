/**
 * How the research agent's search tools (src/research_tools.py) shape what
 * they return: the record built for each arXiv feed entry with its PDF link
 * and text excerpt, the projection of a Tavily response, and the one-record
 * answer of the Wikipedia tool. The HTTP requests, the XML parsing, the PDF
 * download and the PDF text extraction are inputs: the parsed feed, and
 * functions that give the download and the extracted text.
 */
module ResearchTools {
  import opened Strings
  import opened TextUtils

  /** The dictionaries the tools return, one constructor per key set */
  datatype Record =
    | Paper(title: string, authors: seq<string>, published: string, url: string, summary: string,
            linkPdf: Option<string>, pdfError: Option<string>, excerpt: Option<string>,
            warning: Option<string>, textError: Option<string>)
    | Hit(title: string, content: string, url: string)
    | Image(imageUrl: string)
    | Article(title: string, summary: string, url: string)
    | ErrorRecord(error: string)

  // ----- arXiv -----

  /** An `atom:link` element: its `title` and `href` attributes, when present */
  datatype Link = Link(title: Option<string>, href: Option<string>)

  /** An `atom:entry` element, its texts read with `findtext(..., default="")` */
  datatype Entry = Entry(title: string, published: string, id: string, summary: string,
                         authorNames: seq<string>, links: seq<Link>)

  /** The outcome of the arXiv API request and of parsing its XML */
  datatype Feed = RequestFailed(reason: string) | Unparsable(reason: string) | Entries(entries: seq<Entry>)

  /** `fetch_pdf_bytes`: the bytes of the PDF, or the message of the exception it raised */
  datatype Download = Downloaded(bytes: seq<bv8>) | DownloadFailed(reason: string)

  /** `pdf_bytes_to_text`: the text, or the message of the exception it raised */
  datatype Extraction = Extracted(text: string) | ExtractionFailed(reason: string)

  const PublishedChars: nat := 10
  const TextChars: nat := 5000
  const UnreadableWarning := "Extracted PDF text looked unreadable; using abstract."

  /** The author loop keeps the non-empty names, in order. */
  function NonEmptyNames(names: seq<string>): (authors: seq<string>)
    ensures |authors| <= |names|
    ensures forall n :: n in authors <==> n in names && n != ""
  {
    if names == [] then []
    else (if names[0] != "" then [names[0]] else []) + NonEmptyNames(names[1..])
  }

  /** Keeping names distributes over concatenation, so their order is kept. */
  lemma {:induction false} NonEmptyNamesAppend(a: seq<string>, b: seq<string>)
    ensures NonEmptyNames(a + b) == NonEmptyNames(a) + NonEmptyNames(b)
  {
    if a == [] {
      assert a + b == b;
    } else {
      assert (a + b)[0] == a[0] && (a + b)[1..] == a[1..] + b;
      NonEmptyNamesAppend(a[1..], b);
    }
  }

  /** The loop at the author elements */
  method CollectAuthors(names: seq<string>) returns (authors: seq<string>)
    ensures authors == NonEmptyNames(names)
  {
    authors := [];
    for i := 0 to |names|
      invariant authors == NonEmptyNames(names[..i])
    {
      assert names[..i + 1] == names[..i] + [names[i]];
      NonEmptyNamesAppend(names[..i], [names[i]]);
      if names[i] != "" {
        authors := authors + [names[i]];
      }
    }
    assert names[..|names|] == names;
  }

  /** The index of the first link titled "pdf", or the number of links when there is none */
  function FirstPdfLink(links: seq<Link>): (k: nat)
    ensures k <= |links|
    ensures forall j :: 0 <= j < k ==> links[j].title != Some("pdf")
    ensures k < |links| ==> links[k].title == Some("pdf")
  {
    if links == [] || links[0].title == Some("pdf") then 0
    else 1 + FirstPdfLink(links[1..])
  }

  /** The `href` of the first link titled "pdf": None when there is none or it has no `href` */
  function PdfHref(links: seq<Link>): Option<string> {
    var k := FirstPdfLink(links);
    if k < |links| then links[k].href else None
  }

  /** The loop over the link elements, which stops at the first one titled "pdf" */
  method FindPdfLink(links: seq<Link>) returns (link: Option<string>)
    ensures link == PdfHref(links)
  {
    link := None;
    var i := 0;
    while i < |links|
      invariant 0 <= i <= |links|
      invariant forall j :: 0 <= j < i ==> links[j].title != Some("pdf")
      invariant link == None
    {
      if links[i].title == Some("pdf") {
        link := links[i].href;
        break;
      }
      i := i + 1;
    }
  }

  /** A link the source treats as missing (`not link_pdf`) */
  predicate Missing(link: Option<string>) {
    link == None || link == Some("")
  }

  /** `link_pdf` of an entry */
  function LinkPdf(e: Entry): Option<string> {
    var href := PdfHref(e.links);
    if Missing(href) && e.id != "" then Some(EnsurePdfUrl(e.id)) else href
  }

  /**
   * The PDF link is the first link titled "pdf" when it has an address;
   * otherwise it is derived from a non-empty entry id and ends in `.pdf`;
   * it is missing only when the entry has neither.
   */
  lemma LinkPdfChoice(e: Entry)
    ensures var k := FirstPdfLink(e.links);
      k < |e.links| && !Missing(e.links[k].href) ==> LinkPdf(e) == e.links[k].href
    ensures Missing(PdfHref(e.links)) && e.id != "" ==>
      LinkPdf(e) == Some(EnsurePdfUrl(e.id)) && EndsWith(LinkPdf(e).value, ".pdf")
    ensures Missing(LinkPdf(e)) <==> Missing(PdfHref(e.links)) && e.id == ""
  {
  }

  /** The number of characters of `s` that `p` selects */
  function CountWhere(s: string, p: char -> bool): (n: nat)
    ensures n <= |s|
  {
    if s == [] then 0 else (if p(s[0]) then 1 else 0) + CountWhere(s[1..], p)
  }

  /** `s.count(c)` for a one-character `c` */
  function CountChar(s: string, c: char): (n: nat)
    ensures n <= |s|
  {
    if s == [] then 0 else (if s[0] == c then 1 else 0) + CountChar(s[1..], c)
  }

  /** The number of characters `s` starts with that are not whitespace */
  function WordLength(s: string): (n: nat)
    ensures n <= |s|
    ensures forall i :: 0 <= i < n ==> !IsSpace(s[i])
    ensures n < |s| ==> IsSpace(s[n])
  {
    if s == [] || IsSpace(s[0]) then 0 else 1 + WordLength(s[1..])
  }

  /** `s.split()`: the maximal runs of non-whitespace characters, in order */
  function Tokens(s: string): (tokens: seq<string>)
    ensures forall k :: 0 <= k < |tokens| ==> tokens[k] != []
    ensures forall k, i :: 0 <= k < |tokens| && 0 <= i < |tokens[k]| ==> !IsSpace(tokens[k][i])
    decreases |s|
  {
    if s == [] then []
    else if IsSpace(s[0]) then Tokens(s[1..])
    else
      var n := WordLength(s);
      [s[..n]] + Tokens(s[n..])
  }

  /** `max((len(tok) for tok in tokens), default=0)` */
  function MaxLength(tokens: seq<string>): (m: nat)
    ensures forall k :: 0 <= k < |tokens| ==> |tokens[k]| <= m
    ensures tokens == [] ==> m == 0
    ensures tokens != [] ==> exists k :: 0 <= k < |tokens| && |tokens[k]| == m
  {
    if tokens == [] then 0
    else
      var rest := MaxLength(tokens[1..]);
      if |tokens[0]| >= rest then |tokens[0]| else rest
  }

  function LongestToken(s: string): nat {
    MaxLength(Tokens(s))
  }

  /** `max(1, letters)` */
  function AtLeastOne(n: nat): (d: nat)
    ensures d >= 1 && (n >= 1 ==> d == n)
  {
    if n > 1 then n else 1
  }

  /** The ratio test `spaces / max(1, letters) < 0.03` */
  predicate SparseSpaces(spaces: nat, letters: nat) {
    (spaces as real) / (AtLeastOne(letters) as real) < 0.03
  }

  /** The ratio test is the integer test `100 * spaces < 3 * max(1, letters)`. */
  lemma SparseSpacesInIntegers(spaces: nat, letters: nat)
    ensures SparseSpaces(spaces, letters) <==> 100 * spaces < 3 * AtLeastOne(letters)
  {
    var l := AtLeastOne(letters) as real;
    var s := spaces as real;
    var q := s / l;
    assert l >= 1.0;
    assert q * l == s;
    if q < 0.03 {
      assert q * l < 0.03 * l;
      assert 100.0 * s < 3.0 * l;
    } else {
      assert q * l >= 0.03 * l;
      assert 100.0 * s >= 3.0 * l;
    }
    assert 100.0 * s < 3.0 * l <==> 100 * spaces < 3 * AtLeastOne(letters);
  }

  /**
   * The text heuristic for PDFs whose extraction ran all their words
   * together; SparseSpacesInIntegers shows that its middle test is the ratio
   * test of the source.
   */
  predicate LooksUnreadable(snippet: string, isAlpha: char -> bool) {
    var letters := CountWhere(snippet, isAlpha);
    var spaces := CountChar(snippet, ' ');
    && letters > 120
    && 100 * spaces < 3 * AtLeastOne(letters)
    && LongestToken(snippet) > 80
  }

  /** The heuristic is exactly the source's three-part condition. */
  lemma LooksUnreadableIsRatioTest(snippet: string, isAlpha: char -> bool)
    ensures var letters := CountWhere(snippet, isAlpha);
      var spaces := CountChar(snippet, ' ');
      LooksUnreadable(snippet, isAlpha) <==>
        letters > 120 && SparseSpaces(spaces, letters) && LongestToken(snippet) > 80
  {
    SparseSpacesInIntegers(CountChar(snippet, ' '), CountWhere(snippet, isAlpha));
  }

  /** `text[:5000].strip()` */
  function Snippet(text: string): (snippet: string)
    ensures |snippet| <= TextChars
    ensures snippet != [] ==> !IsSpace(snippet[0]) && !IsSpace(snippet[|snippet| - 1])
  {
    var head := Take(text, TextChars);
    SnippetBounds(head);
    Strip(head)
  }

  lemma SnippetBounds(head: string)
    ensures |Strip(head)| <= |head|
    ensures Strip(head) != [] ==> !IsSpace(Strip(head)[0]) && !IsSpace(Strip(head)[|Strip(head)| - 1])
  {
    var a, b := StripBySlice(head, IsSpace);
  }

  /** What the PDF adds to a paper record: its four optional keys */
  datatype PdfFields = PdfFields(pdfError: Option<string>, excerpt: Option<string>,
                                 warning: Option<string>, textError: Option<string>)

  const NoPdfFields := PdfFields(None, None, None, None)

  /**
   * The keys set from the extracted text: nothing when the cleaned text is
   * empty, otherwise the snippet as the excerpt, or the abstract with a
   * warning when the snippet looks unreadable.
   */
  function TextFields(raw: string, abstractText: string, isAlpha: char -> bool): PdfFields {
    var text := if raw != "" then CleanText(raw) else "";
    if text == "" then NoPdfFields
    else
      var snippet := Snippet(text);
      if LooksUnreadable(snippet, isAlpha) then PdfFields(None, Some(abstractText), Some(UnreadableWarning), None)
      else PdfFields(None, Some(snippet), None, None)
  }

  /** The keys set by fetching the PDF at `link` and extracting its text */
  function PdfOutcome(link: Option<string>, abstractText: string, download: string -> Download,
                      extract: seq<bv8> -> Extraction, isAlpha: char -> bool): PdfFields
  {
    if Missing(link) then NoPdfFields
    else match download(link.value)
      case DownloadFailed(reason) => PdfFields(Some("PDF fetch failed: " + reason), None, None, None)
      case Downloaded(bytes) =>
        if bytes == [] then NoPdfFields
        else match extract(bytes)
          case ExtractionFailed(reason) => PdfFields(None, None, None, Some("Text extraction failed: " + reason))
          case Extracted(raw) => TextFields(raw, abstractText, isAlpha)
  }

  /** The item built for one feed entry */
  function PaperRecord(e: Entry, download: string -> Download, extract: seq<bv8> -> Extraction,
                       isAlpha: char -> bool): Record
  {
    var link := LinkPdf(e);
    var abstractText := Strip(e.summary);
    var header := Paper(Strip(e.title), NonEmptyNames(e.authorNames), Take(e.published, PublishedChars),
                        e.id, abstractText, link, None, None, None, None);
    WithPdf(header, PdfOutcome(link, abstractText, download, extract, isAlpha))
  }

  /**
   * The fields every paper record has: the stripped title and abstract, at
   * most ten characters of the publication date, the non-empty author names
   * in order, the entry id and the PDF link.
   */
  lemma PaperFields(e: Entry, download: string -> Download, extract: seq<bv8> -> Extraction,
                    isAlpha: char -> bool)
    ensures var r := PaperRecord(e, download, extract, isAlpha);
      && r.Paper?
      && r.title == Strip(e.title) && r.summary == Strip(e.summary)
      && r.published <= e.published && |r.published| == (if |e.published| < 10 then |e.published| else 10)
      && r.authors == NonEmptyNames(e.authorNames)
      && r.url == e.id
      && r.linkPdf == LinkPdf(e)
      && PdfFields(r.pdfError, r.excerpt, r.warning, r.textError)
         == PdfOutcome(LinkPdf(e), r.summary, download, extract, isAlpha)
  {
  }

  /** A cleaned text starts with a non-space, so its snippet is never empty. */
  lemma SnippetNonEmpty(text: string)
    requires text != [] && !IsSpace(text[0])
    ensures Snippet(text) != []
  {
    var head := Take(text, TextChars);
    assert head[0] == text[0];
    var a, b := StripBySlice(head, IsSpace);
    assert !IsSpace(head[0]);
  }

  /**
   * The excerpt rule: an excerpt is set exactly when the cleaned text is not
   * empty; it is the abstract, and the warning is set, exactly when the
   * snippet looks unreadable; otherwise it is the snippet, which is not
   * empty, has at most 5000 characters and no whitespace at either end.
   */
  lemma TextFieldsExcerpt(raw: string, abstractText: string, isAlpha: char -> bool)
    ensures var o := TextFields(raw, abstractText, isAlpha);
      && o.pdfError == None && o.textError == None
      && (o.excerpt == None <==> raw == "" || CleanText(raw) == "")
      && (o.warning != None <==> o.excerpt != None && LooksUnreadable(Snippet(CleanText(raw)), isAlpha))
      && (o.warning != None ==> o.warning == Some(UnreadableWarning) && o.excerpt == Some(abstractText))
  {
  }

  lemma TextFieldsSnippet(raw: string, abstractText: string, isAlpha: char -> bool)
    ensures var o := TextFields(raw, abstractText, isAlpha);
      o.excerpt != None && o.warning == None ==>
        var x := o.excerpt.value;
        && x == Snippet(CleanText(raw)) && !LooksUnreadable(x, isAlpha)
        && 0 < |x| <= TextChars && !IsSpace(x[0]) && !IsSpace(x[|x| - 1])
  {
    if raw != "" && CleanText(raw) != "" {
      SnippetNonEmpty(CleanText(raw));
    }
  }

  /**
   * Which keys the PDF sets: none without a link; only the fetch error when
   * the download raised; nothing more for empty bytes; only the extraction
   * error when extraction raised; otherwise the excerpt rule on its text.
   */
  lemma PdfOutcomeCases(link: Option<string>, abstractText: string, download: string -> Download,
                        extract: seq<bv8> -> Extraction, isAlpha: char -> bool)
    ensures var o := PdfOutcome(link, abstractText, download, extract, isAlpha);
      && (Missing(link) ==> o == NoPdfFields)
      && (!Missing(link) && download(link.value).DownloadFailed? ==>
            o == PdfFields(Some("PDF fetch failed: " + download(link.value).reason), None, None, None))
      && (!Missing(link) && download(link.value) == Downloaded([]) ==> o == NoPdfFields)
      && (!Missing(link) && download(link.value).Downloaded? && download(link.value).bytes != [] ==>
            var x := extract(download(link.value).bytes);
            && (x.ExtractionFailed? ==> o == PdfFields(None, None, None, Some("Text extraction failed: " + x.reason)))
            && (x.Extracted? ==> o == TextFields(x.text, abstractText, isAlpha)))
  {
  }

  /** At most one of the fetch error, the extraction error and the excerpt is set. */
  lemma PdfOutcomeExclusive(link: Option<string>, abstractText: string, download: string -> Download,
                            extract: seq<bv8> -> Extraction, isAlpha: char -> bool)
    ensures var o := PdfOutcome(link, abstractText, download, extract, isAlpha);
      && (o.pdfError != None ==> o.textError == None && o.excerpt == None && o.warning == None)
      && (o.textError != None ==> o.excerpt == None && o.warning == None)
      && (o.warning != None ==> o.excerpt == Some(abstractText))
      && (o != NoPdfFields ==> !Missing(link))
  {
    if !Missing(link) && download(link.value).Downloaded? && download(link.value).bytes != [] {
      var x := extract(download(link.value).bytes);
      if x.Extracted? {
        TextFieldsExcerpt(x.text, abstractText, isAlpha);
      }
    }
  }

  /** The record with the keys the PDF sets */
  function WithPdf(item: Record, pdf: PdfFields): (r: Record)
    requires item.Paper?
    ensures r.Paper? && r.title == item.title && r.summary == item.summary && r.linkPdf == item.linkPdf
  {
    item.(pdfError := pdf.pdfError, excerpt := pdf.excerpt, warning := pdf.warning, textError := pdf.textError)
  }

  /** The text branch of the entries loop: clean the text and set the excerpt from it */
  method SetExcerpt(item: Record, raw: string, isAlpha: char -> bool) returns (result: Record)
    requires item.Paper? && item.pdfError == item.excerpt == item.warning == item.textError == None
    ensures result == WithPdf(item, TextFields(raw, item.summary, isAlpha))
  {
    result := item;
    var text := if raw != "" then CleanText(raw) else "";
    if text != "" {
      var snippet := Snippet(text);
      if LooksUnreadable(snippet, isAlpha) {
        result := result.(excerpt := Some(item.summary));
        result := result.(warning := Some(UnreadableWarning));
      } else {
        result := result.(excerpt := Some(snippet));
      }
    }
  }

  /**
   * The second half of the entries loop: fetch the PDF at the item's link,
   * extract its text and set the keys of the outcome on the item.
   */
  method AttachPdf(item: Record, download: string -> Download, extract: seq<bv8> -> Extraction,
                   isAlpha: char -> bool) returns (result: Record)
    requires item.Paper? && item.pdfError == item.excerpt == item.warning == item.textError == None
    ensures result == WithPdf(item, PdfOutcome(item.linkPdf, item.summary, download, extract, isAlpha))
  {
    result := item;
    var link := item.linkPdf;
    var pdfBytes: seq<bv8> := [];
    if !Missing(link) {
      match download(link.value) {
        case Downloaded(bytes) =>
          pdfBytes := bytes;
        case DownloadFailed(reason) =>
          result := result.(pdfError := Some("PDF fetch failed: " + reason));
      }
    }
    if pdfBytes != [] {
      match extract(pdfBytes) {
        case Extracted(raw) =>
          result := SetExcerpt(result, raw, isAlpha);
        case ExtractionFailed(reason) =>
          result := result.(textError := Some("Text extraction failed: " + reason));
      }
    }
  }

  /** The body of the entries loop: one item per entry */
  method BuildPaper(e: Entry, download: string -> Download, extract: seq<bv8> -> Extraction,
                    isAlpha: char -> bool) returns (item: Record)
    ensures item == PaperRecord(e, download, extract, isAlpha)
  {
    var title := Strip(e.title);
    var published := Take(e.published, PublishedChars);
    var abstractSummary := Strip(e.summary);
    var authors := CollectAuthors(e.authorNames);
    var link := FindPdfLink(e.links);
    if Missing(link) && e.id != "" {
      link := Some(EnsurePdfUrl(e.id));
    }
    item := Paper(title, authors, published, e.id, abstractSummary, link, None, None, None, None);
    item := AttachPdf(item, download, extract, isAlpha);
  }

  /**
   * `arxiv_search_tool`: one record per feed entry, in entry order, or a
   * single error record when the request or the XML parsing failed.
   */
  method ArxivSearch(feed: Feed, download: string -> Download, extract: seq<bv8> -> Extraction,
                     isAlpha: char -> bool) returns (out: seq<Record>)
    ensures feed.RequestFailed? ==> out == [ErrorRecord("arXiv API request failed: " + feed.reason)]
    ensures feed.Unparsable? ==> out == [ErrorRecord("arXiv API XML parse failed: " + feed.reason)]
    ensures feed.Entries? ==> |out| == |feed.entries|
    ensures feed.Entries? ==>
      forall i :: 0 <= i < |out| ==> out[i] == PaperRecord(feed.entries[i], download, extract, isAlpha)
  {
    match feed {
      case RequestFailed(reason) =>
        out := [ErrorRecord("arXiv API request failed: " + reason)];
      case Unparsable(reason) =>
        out := [ErrorRecord("arXiv API XML parse failed: " + reason)];
      case Entries(entries) =>
        out := BuildPapers(entries, download, extract, isAlpha);
    }
  }

  /** The `for entry in root.findall(...)` loop: one item per entry, in order */
  method BuildPapers(entries: seq<Entry>, download: string -> Download, extract: seq<bv8> -> Extraction,
                     isAlpha: char -> bool) returns (out: seq<Record>)
    ensures |out| == |entries|
    ensures forall i :: 0 <= i < |out| ==> out[i] == PaperRecord(entries[i], download, extract, isAlpha)
  {
    ghost var papers := seq(|entries|, j requires 0 <= j < |entries| => PaperRecord(entries[j], download, extract, isAlpha));
    out := [];
    for i := 0 to |entries|
      invariant out == papers[..i]
    {
      var item := BuildPaper(entries[i], download, extract, isAlpha);
      SliceSnoc(papers, i);
      out := out + [item];
    }
    SliceAll(papers);
  }

  // ----- Tavily -----

  /** One element of the response's "results" list */
  type Fields = map<string, string>

  /** `r.get(key, "")` */
  function Get(d: Fields, key: string): string {
    if key in d then d[key] else ""
  }

  /** The search response: its "results" and "images" lists, when present */
  datatype TavilyResponse = TavilyResponse(results: Option<seq<Fields>>, images: Option<seq<string>>)

  /** `client.search(...)`: the response, or the text of the exception it raised */
  datatype SearchCall = Responded(response: TavilyResponse) | SearchRaised(error: string)

  /** A value the tool returns, or the exception it lets escape to its caller */
  datatype Outcome<T> = Returned(value: T) | Raised(error: string)

  const MissingKeyMessage := "TAVILY_API_KEY not found in environment variables."

  /** `response.get(key, [])` */
  function OrEmpty<T>(list: Option<seq<T>>): seq<T> {
    if list.Some? then list.value else []
  }

  /** The hit a result element is mapped to */
  function HitOf(r: Fields): Record {
    Hit(Get(r, "title"), Get(r, "content"), Get(r, "url"))
  }

  /**
   * The records of a Tavily response: one hit per result, in order, with
   * missing fields read as "", followed by the images only when they were
   * asked for.
   */
  function TavilyRecords(response: TavilyResponse, includeImages: bool): (records: seq<Record>)
    ensures var results := OrEmpty(response.results);
      var images := if includeImages then OrEmpty(response.images) else [];
      && |records| == |results| + |images|
      && (forall i :: 0 <= i < |results| ==> records[i] == HitOf(results[i]))
      && (forall i :: 0 <= i < |images| ==> records[|results| + i] == Image(images[i]))
  {
    var results := OrEmpty(response.results);
    var images := OrEmpty(response.images);
    seq(|results|, i requires 0 <= i < |results| => HitOf(results[i]))
    + (if includeImages then seq(|images|, i requires 0 <= i < |images| => Image(images[i])) else [])
  }

  /** `tavily_search_tool` */
  method TavilySearch(apiKey: Option<string>, call: SearchCall, includeImages: bool)
    returns (outcome: Outcome<seq<Record>>)
    ensures Missing(apiKey) ==> outcome == Raised(MissingKeyMessage)
    ensures !Missing(apiKey) && call.SearchRaised? ==> outcome == Returned([ErrorRecord(call.error)])
    ensures !Missing(apiKey) && call.Responded? ==>
      outcome == Returned(TavilyRecords(call.response, includeImages))
  {
    if Missing(apiKey) {
      return Raised(MissingKeyMessage);
    }
    match call {
      case SearchRaised(error) =>
        outcome := Returned([ErrorRecord(error)]);
      case Responded(response) =>
        var listed := OrEmpty(response.results);
        var results: seq<Record> := [];
        for i := 0 to |listed|
          invariant |results| == i
          invariant forall j :: 0 <= j < i ==> results[j] == HitOf(listed[j])
        {
          results := results + [HitOf(listed[i])];
        }
        if includeImages {
          var images := OrEmpty(response.images);
          for i := 0 to |images|
            invariant |results| == |listed| + i
            invariant forall j :: 0 <= j < |listed| ==> results[j] == HitOf(listed[j])
            invariant forall j :: 0 <= j < i ==> results[|listed| + j] == Image(images[j])
          {
            results := results + [Image(images[i])];
          }
        }
        outcome := Returned(results);
        assert results == TavilyRecords(response, includeImages);
    }
  }

  // ----- Wikipedia -----

  /** `wikipedia.page(title)`: the page's title and URL, or the text of the exception */
  datatype PageLookup = PageFound(title: string, url: string) | PageRaised(error: string)

  /** `wikipedia.summary(title, sentences=...)`: the summary, or the text of the exception */
  datatype SummaryLookup = Summarized(text: string) | SummaryRaised(error: string)

  /** `str` of the IndexError that `[0]` raises on an empty list of search hits */
  const NoHitMessage := "list index out of range"

  /**
   * `wikipedia_search_tool`: always exactly one record, an article for the
   * first search hit when the search found one and both the page and its
   * summary could be fetched, and otherwise the error of the first step that
   * failed.
   */
  function WikipediaSearch(search: Outcome<seq<string>>, page: string -> PageLookup,
                           summary: string -> SummaryLookup): (records: seq<Record>)
    ensures |records| == 1
    ensures records[0].Article? <==>
      search.Returned? && search.value != [] && page(search.value[0]).PageFound?
      && summary(search.value[0]).Summarized?
    ensures records[0].Article? ==>
      var hit := search.value[0];
      records[0] == Article(page(hit).title, summary(hit).text, page(hit).url)
    ensures !records[0].Article? ==> records[0].ErrorRecord?
    ensures search.Raised? ==> records == [ErrorRecord(search.error)]
    ensures search == Returned([]) ==> records == [ErrorRecord(NoHitMessage)]
    ensures search.Returned? && search.value != [] && page(search.value[0]).PageRaised? ==>
      records == [ErrorRecord(page(search.value[0]).error)]
  {
    match search
    case Raised(error) => [ErrorRecord(error)]
    case Returned(hits) =>
      if hits == [] then [ErrorRecord(NoHitMessage)]
      else
        var title := hits[0];
        match page(title)
        case PageRaised(error) => [ErrorRecord(error)]
        case PageFound(pageTitle, url) =>
          match summary(title)
          case SummaryRaised(error) => [ErrorRecord(error)]
          case Summarized(text) => [Article(pageTitle, text, url)]
  }
}
