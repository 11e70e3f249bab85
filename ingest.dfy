/**
 * Documents and the two source passes of a build: the PDF uploads, loaded
 * one after another, and the URLs, each scraped into at most one document.
 * The PDF reader and the HTTP fetch are not modelled; their outcomes are
 * inputs (`Upload.load`, `UrlRequest.response`).
 */
module Ingest {
  import opened Wrappers
  import opened Text

  /** A LangChain document: page text plus string metadata. */
  datatype Document = Document(content: string, metadata: map<string, string>)

  const UnknownSource: string := "Unknown source"

  /** `doc.metadata.get('source', 'Unknown source')`. */
  function SourceOf(doc: Document): (name: string)
    ensures "source" in doc.metadata ==> name == doc.metadata["source"]
    ensures "source" !in doc.metadata ==> name == UnknownSource
  {
    if "source" in doc.metadata then doc.metadata["source"] else UnknownSource
  }

  /** What the PDF reader makes of a saved upload: its pages, or an exception. */
  datatype PdfRead = Pages(pages: seq<Document>) | Unreadable

  /** One entry of the `files` form list; an empty filename is a falsy upload. */
  datatype Upload = Upload(filename: string, load: PdfRead)

  /** The response to `requests.get(url, timeout=15)` followed by `raise_for_status()`. */
  datatype Response =
    | Ok(text: string)    // a 2xx page, already reduced to its visible text
    | RequestFailed       // any `RequestException`: network error, timeout, non-2xx

  /** One entry of the `urls` form list with the outcome of fetching it. */
  datatype UrlRequest = UrlRequest(url: string, response: Response)

  /** Something a build does to the outside world, in the order it does it. */
  datatype Effect =
    | LoadPdf(filename: string)      // save the upload and run the PDF reader on it
    | FetchUrl(url: string)          // one HTTP GET
    | BuildIndex(docs: seq<Document>) // split, embed, store, and wrap in a QA chain

  /** `file and file.filename.endswith('.pdf')`. */
  predicate IsPdfUpload(f: Upload)
  {
    f.filename != [] && EndsWith(f.filename, ".pdf")
  }

  /** The state of the PDF loop after some prefix of the uploads. */
  datatype PdfPass = PdfPass(docs: seq<Document>, effects: seq<Effect>, raised: bool)

  /**
   * The PDF loop over `files`: every PDF upload is loaded in turn and its
   * pages appended; other uploads are passed over; the first unreadable PDF
   * raises and ends the loop.
   */
  function LoadPdfs(files: seq<Upload>): (p: PdfPass)
    ensures |p.effects| <= |files|
    ensures forall k :: 0 <= k < |p.effects| ==>
              p.effects[k].LoadPdf? && EndsWith(p.effects[k].filename, ".pdf")
    ensures !p.raised ==> p.effects == LoadEffects(PdfUploads(files))
  {
    if files == [] then PdfPass([], [], false)
    else
      var prior := LoadPdfs(files[..|files| - 1]);
      var f := files[|files| - 1];
      var accepted := PdfUploads(files[..|files| - 1]) + [f];
      assert IsPdfUpload(f) ==> accepted[..|accepted| - 1] == PdfUploads(files[..|files| - 1]);
      if prior.raised || !IsPdfUpload(f) then prior
      else match f.load
        case Unreadable => PdfPass(prior.docs, prior.effects + [LoadPdf(f.filename)], true)
        case Pages(pages) => PdfPass(prior.docs + pages, prior.effects + [LoadPdf(f.filename)], false)
  }

  /** The uploads the PDF loop accepts, in order. */
  function PdfUploads(files: seq<Upload>): (r: seq<Upload>)
    ensures |r| <= |files|
  {
    if files == [] then []
    else
      var f := files[|files| - 1];
      if IsPdfUpload(f) then PdfUploads(files[..|files| - 1]) + [f] else PdfUploads(files[..|files| - 1])
  }

  /** Without a PDF upload, nothing is accepted. */
  lemma {:induction false} NoPdfUploads(files: seq<Upload>)
    requires forall k :: 0 <= k < |files| ==> !IsPdfUpload(files[k])
    ensures PdfUploads(files) == []
  {
    if files != [] {
      NoPdfUploads(files[..|files| - 1]);
    }
  }

  /** The load effects of the given uploads, one per upload. */
  function LoadEffects(files: seq<Upload>): (r: seq<Effect>)
  {
    if files == [] then []
    else LoadEffects(files[..|files| - 1]) + [LoadPdf(files[|files| - 1].filename)]
  }

  /** Once the loop has raised, later uploads are never touched. */
  lemma {:induction false} RaisedIsFinal(files: seq<Upload>, i: nat)
    requires i <= |files|
    requires LoadPdfs(files[..i]).raised
    ensures LoadPdfs(files) == LoadPdfs(files[..i])
    decreases |files| - i
  {
    if i < |files| {
      var longer := files[..i + 1];
      assert longer[..i] == files[..i];
      RaisedIsFinal(files, i + 1);
    } else {
      assert files[..i] == files;
    }
  }

  /**
   * Uploads that are not PDFs are skipped silently: the loop gives the same
   * documents, effects and outcome over the PDF uploads alone.
   */
  lemma {:induction false} NonPdfUploadsIgnored(files: seq<Upload>)
    ensures LoadPdfs(files) == LoadPdfs(PdfUploads(files))
  {
    if files != [] {
      var init, f := files[..|files| - 1], files[|files| - 1];
      NonPdfUploadsIgnored(init);
      if IsPdfUpload(f) {
        var accepted := PdfUploads(init) + [f];
        assert accepted[..|accepted| - 1] == PdfUploads(init);
      }
    }
  }

  /** With no unreadable PDF, the loop yields every PDF's pages in upload order. */
  lemma {:induction false} LoadPdfsPages(files: seq<Upload>)
    requires Readable(files)
    ensures !LoadPdfs(files).raised
    ensures LoadPdfs(files).docs == PdfPages(files)
  {
    if files != [] {
      var init := files[..|files| - 1];
      ReadablePrefix(files);
      LoadPdfsPages(init);
    }
  }

  /**
   * When the first unreadable PDF is upload `i`, the loop raises having
   * loaded every PDF upload up to and including that one, and no other.
   */
  lemma {:induction false} LoadPdfsRaisesAt(files: seq<Upload>, i: nat)
    requires i < |files| && Readable(files[..i])
    requires IsPdfUpload(files[i]) && files[i].load.Unreadable?
    ensures LoadPdfs(files).raised
    ensures LoadPdfs(files).effects == LoadEffects(PdfUploads(files[..i + 1]))
  {
    var init, upto := files[..i], files[..i + 1];
    LoadPdfsPages(init);
    assert upto[..i] == init && upto[i] == files[i];
    var accepted := PdfUploads(init) + [files[i]];
    assert accepted[..|accepted| - 1] == PdfUploads(init);
    assert LoadPdfs(upto).raised;
    RaisedIsFinal(files, i + 1);
  }

  /** Every PDF upload among `files` can be read. */
  predicate Readable(files: seq<Upload>)
  {
    forall k :: 0 <= k < |files| && IsPdfUpload(files[k]) ==> files[k].load.Pages?
  }

  /** The pages of the PDF uploads among `files`, concatenated in order. */
  function PdfPages(files: seq<Upload>): seq<Document>
    requires Readable(files)
  {
    if files == [] then []
    else
      var f := files[|files| - 1];
      ReadablePrefix(files);
      if IsPdfUpload(f) then PdfPages(files[..|files| - 1]) + f.load.pages else PdfPages(files[..|files| - 1])
  }

  lemma ReadablePrefix(files: seq<Upload>)
    requires files != [] && Readable(files)
    ensures Readable(files[..|files| - 1])
  {
    assert forall k :: 0 <= k < |files| - 1 ==> files[..|files| - 1][k] == files[k];
  }

  /**
   * `scrape_url(url)`: a document whose source is the URL when the fetch
   * succeeds, `None` when it raises a `RequestException`.
   */
  function ScrapeUrl(u: UrlRequest): (r: Option<Document>)
    ensures r.Some? <==> u.response.Ok?
    ensures r.Some? ==> SourceOf(r.value) == u.url && r.value.content == u.response.text
  {
    match u.response
    case Ok(text) => Some(Document(text, map["source" := u.url]))
    case RequestFailed => None
  }

  /** `[doc for doc in (scrape_url(url) for url in urls) if doc is not None]`. */
  function WebDocs(urls: seq<UrlRequest>): (docs: seq<Document>)
    ensures |docs| <= |urls|
  {
    if urls == [] then []
    else
      var d := ScrapeUrl(urls[0]);
      if d.Some? then [d.value] + WebDocs(urls[1..]) else WebDocs(urls[1..])
  }

  /**
   * One URL gives the fetched page's text as a document named after the
   * URL, or nothing; with `WebDocsAppend` this fixes `WebDocs` on every list.
   */
  lemma WebDocsSingle(u: UrlRequest)
    ensures WebDocs([u]) ==
      if u.response.Ok? then [Document(u.response.text, map["source" := u.url])] else []
  {
    assert [u][1..] == [];
  }

  /** The URLs whose fetch succeeds, in request order. */
  function FetchedUrls(urls: seq<UrlRequest>): seq<string>
  {
    if urls == [] then []
    else if urls[0].response.Ok? then [urls[0].url] + FetchedUrls(urls[1..])
    else FetchedUrls(urls[1..])
  }

  /** Every URL is fetched once, in order, whatever the others' outcomes. */
  function FetchEffects(urls: seq<UrlRequest>): (r: seq<Effect>)
    ensures |r| == |urls|
    ensures forall k :: 0 <= k < |urls| ==> r[k] == FetchUrl(urls[k].url)
  {
    if urls == [] then [] else [FetchUrl(urls[0].url)] + FetchEffects(urls[1..])
  }

  function SourceNames(docs: seq<Document>): (names: seq<string>)
    ensures |names| == |docs|
    ensures forall k :: 0 <= k < |docs| ==> names[k] == SourceOf(docs[k])
  {
    if docs == [] then [] else [SourceOf(docs[0])] + SourceNames(docs[1..])
  }

  /**
   * The web documents are exactly one per successful fetch, named after its
   * URL, in the order of `urls`; failed fetches leave no trace.
   */
  lemma {:induction false} WebDocsSources(urls: seq<UrlRequest>)
    ensures SourceNames(WebDocs(urls)) == FetchedUrls(urls)
  {
    if urls != [] {
      WebDocsSources(urls[1..]);
      var rest := WebDocs(urls[1..]);
      var d := ScrapeUrl(urls[0]);
      if d.Some? {
        assert ([d.value] + rest)[1..] == rest;
      }
    }
  }

  /** A failing URL never affects what the other URLs contribute. */
  lemma {:induction false} WebDocsAppend(a: seq<UrlRequest>, b: seq<UrlRequest>)
    ensures WebDocs(a + b) == WebDocs(a) + WebDocs(b)
  {
    if a == [] {
      assert a + b == b;
    } else {
      var ab := a + b;
      assert ab[0] == a[0] && ab[1..] == a[1..] + b;
      WebDocsAppend(a[1..], b);
      if ScrapeUrl(a[0]).Some? {
        var d := ScrapeUrl(a[0]).value;
        assert WebDocs(ab) == [d] + WebDocs(a[1..] + b);
        assert [d] + (WebDocs(a[1..]) + WebDocs(b)) == ([d] + WebDocs(a[1..])) + WebDocs(b);
      }
    }
  }

}
