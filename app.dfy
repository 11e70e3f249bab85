/**
 * The request handlers of the research assistant: `/process` builds the one
 * knowledge base of the process into the slot `rag_chain`, `/query` answers
 * a question from it. The splitter, embeddings, vector store, QA chain and
 * language model are not modelled; their outcomes are inputs, and what the
 * handlers do to them is recorded as a trace of effects and calls.
 */
module App {
  import opened Wrappers
  import opened Text
  import opened Ingest
  import opened Answer

  /** Parameters the handler passes to the text splitter. */
  const ChunkSize: nat := 1500
  const ChunkOverlap: nat := 200

  /** A built retrieval QA chain: the documents it indexes and the splitter settings. */
  datatype Chain = Chain(docs: seq<Document>, chunkSize: nat, chunkOverlap: nat)

  /** The outcome of a `/process` request. */
  datatype BuildResponse =
    | Built               // 200, knowledge base ready
    | NoSources           // 400, neither files nor URLs
    | NoUsableDocuments   // 400, no source produced a document
    | BuildFailed         // 500, an exception escaped
  {
    function Status(): (code: int)
      ensures code == 200 <==> Built?
      ensures code == 400 <==> NoSources? || NoUsableDocuments?
      ensures code == 500 <==> BuildFailed?
    {
      match this
      case Built => 200
      case NoSources => 400
      case NoUsableDocuments => 400
      case BuildFailed => 500
    }
  }

  /** Response, new content of the slot, and effects of one `/process` request. */
  datatype BuildResult = BuildResult(response: BuildResponse, slot: Option<Chain>, effects: seq<Effect>)

  /**
   * `process_sources`: the slot is emptied first and refilled only when every
   * step succeeds, so the previous knowledge base never survives a request.
   * `indexBuilds` says whether splitting, embedding, storing and chain
   * construction all return without raising.
   */
  function Build(files: seq<Upload>, urls: seq<UrlRequest>, indexBuilds: bool): (r: BuildResult)
    ensures r.slot.Some? <==> r.response == Built
    ensures r.response == NoSources <==> files == [] && urls == []
    ensures r.response == NoSources ==> r.effects == []
    ensures r.response == Built ==>
              r.slot.value.docs != [] && r.slot.value.chunkSize == ChunkSize
              && r.slot.value.chunkOverlap == ChunkOverlap
    ensures r.response == Built ==>
              r.slot.value.docs == LoadPdfs(files).docs + WebDocs(urls)
              && |r.effects| > 0 && r.effects[|r.effects| - 1] == BuildIndex(r.slot.value.docs)
    ensures r.response == NoUsableDocuments <==>
              (files != [] || urls != []) && !LoadPdfs(files).raised
              && LoadPdfs(files).docs + WebDocs(urls) == []
    ensures (files != [] || urls != []) && LoadPdfs(files).raised ==>
              r.response == BuildFailed && r.effects == LoadPdfs(files).effects
  {
    if files == [] && urls == [] then BuildResult(NoSources, None, [])
    else
      var pdf := LoadPdfs(files);
      if pdf.raised then BuildResult(BuildFailed, None, pdf.effects)
      else
        var all := pdf.docs + WebDocs(urls);
        var fetched := pdf.effects + FetchEffects(urls);
        if all == [] then BuildResult(NoUsableDocuments, None, fetched)
        else if !indexBuilds then BuildResult(BuildFailed, None, fetched + [BuildIndex(all)])
        else BuildResult(Built, Some(Chain(all, ChunkSize, ChunkOverlap)), fetched + [BuildIndex(all)])
  }

  /**
   * Unless a PDF raises, a build with input loads the PDFs and then fetches
   * every URL, once and in request order, whatever each fetch returns; only
   * then may it build the index.
   */
  lemma BuildFetchesEveryUrl(files: seq<Upload>, urls: seq<UrlRequest>, indexBuilds: bool)
    requires files != [] || urls != []
    requires !LoadPdfs(files).raised
    ensures var r := Build(files, urls, indexBuilds);
      var fetched := LoadPdfs(files).effects + FetchEffects(urls);
      |fetched| <= |r.effects| && r.effects[..|fetched|] == fetched
      && |r.effects| <= |fetched| + 1
  {
    var r := Build(files, urls, indexBuilds);
    var fetched := LoadPdfs(files).effects + FetchEffects(urls);
    if |r.effects| > |fetched| {
      assert r.effects == fetched + [BuildIndex(LoadPdfs(files).docs + WebDocs(urls))];
      assert r.effects[..|fetched|] == fetched;
    } else {
      assert r.effects == fetched;
    }
  }

  /** The loop raises exactly when some PDF upload cannot be read. */
  lemma {:induction false} LoadPdfsRaisedIff(files: seq<Upload>)
    ensures LoadPdfs(files).raised <==> !Readable(files)
  {
    if files != [] {
      var init, f := files[..|files| - 1], files[|files| - 1];
      LoadPdfsRaisedIff(init);
      assert forall k :: 0 <= k < |init| ==> init[k] == files[k];
      if !Readable(init) {
        var k :| 0 <= k < |init| && IsPdfUpload(init[k]) && !init[k].load.Pages?;
        assert files[k] == init[k];
      }
    }
  }

  /**
   * A build succeeds exactly when there is some input, every PDF upload is
   * readable, the PDF pages and scraped pages are not all empty, and the
   * index builds; the chain then holds the PDF pages followed by the web
   * pages.
   */
  lemma BuildSucceedsIff(files: seq<Upload>, urls: seq<UrlRequest>, indexBuilds: bool)
    ensures Build(files, urls, indexBuilds).response == Built <==>
              (files != [] || urls != []) && Readable(files)
              && PdfPages(files) + WebDocs(urls) != [] && indexBuilds
    ensures Build(files, urls, indexBuilds).response == Built ==>
              Build(files, urls, indexBuilds).slot.value.docs == PdfPages(files) + WebDocs(urls)
  {
    LoadPdfsRaisedIff(files);
    if Readable(files) {
      LoadPdfsPages(files);
    }
  }

  /**
   * The two ways a build with input fails before indexing: an unreadable PDF
   * gives 500 having loaded only PDFs, never fetching a URL; otherwise, when
   * neither the PDFs nor the URLs yield a document, the answer is 400 after
   * every URL was fetched.
   */
  lemma BuildFailsIff(files: seq<Upload>, urls: seq<UrlRequest>, indexBuilds: bool)
    requires files != [] || urls != []
    ensures var r := Build(files, urls, indexBuilds);
      !Readable(files) ==>
        r.response == BuildFailed && forall k :: 0 <= k < |r.effects| ==> r.effects[k].LoadPdf?
    ensures var r := Build(files, urls, indexBuilds);
      r.response == NoUsableDocuments <==> Readable(files) && PdfPages(files) + WebDocs(urls) == []
    ensures var r := Build(files, urls, indexBuilds);
      r.response == NoUsableDocuments ==> r.effects == LoadEffects(PdfUploads(files)) + FetchEffects(urls)
  {
    LoadPdfsRaisedIff(files);
    if Readable(files) {
      LoadPdfsPages(files);
    }
  }

  /**
   * Every failed build leaves the slot empty and answers with 400 or 500,
   * whatever the slot held before (the previous chain is not an input).
   */
  lemma FailedBuildEmptiesSlot(files: seq<Upload>, urls: seq<UrlRequest>, indexBuilds: bool)
    requires Build(files, urls, indexBuilds).response != Built
    ensures Build(files, urls, indexBuilds).slot == None
    ensures Build(files, urls, indexBuilds).response.Status() in {400, 500}
  {
  }

  /** A build whose only uploads are not PDFs and has no URLs answers 400, touching nothing. */
  lemma NonPdfUploadsOnly(files: seq<Upload>, indexBuilds: bool)
    requires files != []
    requires forall k :: 0 <= k < |files| ==> !IsPdfUpload(files[k])
    ensures Build(files, [], indexBuilds) == BuildResult(NoUsableDocuments, None, [])
  {
    NonPdfUploadsIgnored(files);
    NoPdfUploads(files);
  }

  /**
   * A readable three-page PDF and a URL whose fetch times out build a
   * knowledge base from the three pages alone, after fetching the URL.
   */
  lemma PdfWithDeadUrl(p1: Document, p2: Document, p3: Document, url: string, indexBuilds: bool)
    requires indexBuilds
    ensures var r := Build([Upload("paper.pdf", Pages([p1, p2, p3]))], [UrlRequest(url, RequestFailed)], indexBuilds);
      r.response == Built && r.slot.value.docs == [p1, p2, p3]
      && r.effects == [LoadPdf("paper.pdf"), FetchUrl(url), BuildIndex([p1, p2, p3])]
  {
    var files := [Upload("paper.pdf", Pages([p1, p2, p3]))];
    var urls := [UrlRequest(url, RequestFailed)];
    assert files[..0] == [];
    assert EndsWith("paper.pdf", ".pdf");
    assert LoadPdfs(files).docs == [p1, p2, p3];
    assert WebDocs(urls) == [] + WebDocs(urls[1..]);
  }

  /**
   * An unreadable PDF makes the whole build fail with 500 before any URL is
   * fetched, even when a URL would have produced a document.
   */
  lemma UnreadablePdfFailsBuild(url: string, page: string, indexBuilds: bool)
    ensures var r := Build([Upload("scan.pdf", Unreadable)], [UrlRequest(url, Ok(page))], indexBuilds);
      r.response == BuildFailed && r.response.Status() == 500 && r.slot == None
      && r.effects == [LoadPdf("scan.pdf")]
  {
    var files := [Upload("scan.pdf", Unreadable)];
    assert files[..0] == [];
    assert EndsWith("scan.pdf", ".pdf");
  }

  /** The PDF test is case-sensitive: `REPORT.PDF` is passed over. */
  lemma UpperCaseExtensionSkipped(pages: seq<Document>)
    ensures !IsPdfUpload(Upload("REPORT.PDF", Pages(pages)))
  {
    assert "REPORT.PDF"[6..] == ".PDF";
  }

  /** What the QA chain returns for a question. */
  datatype ChainReply = ChainReply(result: Option<string>, sourceDocuments: Option<seq<Document>>)

  /** Invoking the chain: a reply dictionary, or an exception. */
  datatype ChainOutcome = Returned(reply: ChainReply) | ChainRaised

  /** Invoking the recommendation model: the reply's text, or an exception. */
  datatype LlmOutcome = Replied(content: string) | LlmRaised

  /** An external call made while answering a query. */
  datatype Call = InvokeChain(query: string) | InvokeLlm(prompt: string)

  const NoAnswer: string := "No answer found."

  /** The fixed text of the recommendation prompt around the question and the answer. */
  const PromptOpening: string := "Based on the following question: '"
  const PromptMiddle: string := "' and answer: '"
  const PromptClosing: string :=
    "', suggest three related but broader topics for further research. "
    + "Provide only the three topic names, separated by commas."

  /** The prompt asking the model for broader topics. */
  function RecommendationPrompt(query: string, answer: string): string
  {
    PromptOpening + query + PromptMiddle + answer + PromptClosing
  }

  /** The prompt quotes the question and the answer verbatim, at fixed places. */
  lemma PromptQuotes(query: string, answer: string)
    ensures var prompt := RecommendationPrompt(query, answer);
      var start := |PromptOpening| + |query| + |PromptMiddle|;
      |prompt| == start + |answer| + |PromptClosing|
      && prompt[|PromptOpening|..|PromptOpening| + |query|] == query
      && prompt[start..start + |answer|] == answer
  {
  }

  /** The outcome of a `/query` request. */
  datatype QueryResponse =
    | Answered(answer: string, sources: seq<string>, recommendations: seq<string>)  // 200
    | NoKnowledgeBase  // 400
    | NoQuery          // 400
    | QueryFailed      // 500
  {
    function Status(): (code: int)
      ensures code == 200 <==> Answered?
      ensures code == 400 <==> NoKnowledgeBase? || NoQuery?
      ensures code == 500 <==> QueryFailed?
    {
      match this
      case Answered(_, _, _) => 200
      case NoKnowledgeBase => 400
      case NoQuery => 400
      case QueryFailed => 500
    }
  }

  datatype QueryResult = QueryResult(response: QueryResponse, calls: seq<Call>)

  /** `not query`: a missing, null or empty query; whitespace counts as a query. */
  predicate MissingQuery(query: Option<string>)
  {
    query.None? || query.value == []
  }

  /** The sources named by a chain reply; a reply without the list names none. */
  function RetrievedDocs(reply: ChainReply): seq<Document>
  {
    if reply.sourceDocuments.Some? then reply.sourceDocuments.value else []
  }

  /**
   * `handle_query`: refuse without a knowledge base or a query, touching
   * nothing; otherwise invoke the chain, then the recommendation model, and
   * assemble the answer, its distinct sources and the topics.
   */
  function Query(slot: Option<Chain>, query: Option<string>, chain: ChainOutcome, llm: LlmOutcome): (r: QueryResult)
    ensures r.response == NoKnowledgeBase <==> slot.None?
    ensures r.response == NoQuery <==> slot.Some? && MissingQuery(query)
    ensures r.calls == [] <==> slot.None? || MissingQuery(query)
    ensures r.calls != [] ==> r.calls[0] == InvokeChain(query.value)
    ensures r.response.Answered? <==> slot.Some? && !MissingQuery(query) && chain.Returned? && llm.Replied?
    ensures r.response.Answered? ==> r.calls == [InvokeChain(query.value), InvokeLlm(RecommendationPrompt(query.value, r.response.answer))]
  {
    if slot.None? then QueryResult(NoKnowledgeBase, [])
    else if MissingQuery(query) then QueryResult(NoQuery, [])
    else
      var q := query.value;
      match chain
      case ChainRaised => QueryResult(QueryFailed, [InvokeChain(q)])
      case Returned(reply) =>
        var answer := if reply.result.Some? then reply.result.value else NoAnswer;
        var sources := UniqueSources(RetrievedDocs(reply));
        var prompt := RecommendationPrompt(q, answer);
        match llm
        case LlmRaised => QueryResult(QueryFailed, [InvokeChain(q), InvokeLlm(prompt)])
        case Replied(text) =>
          QueryResult(Answered(answer, sources, Recommendations(text)), [InvokeChain(q), InvokeLlm(prompt)])
  }

  /**
   * A query that passes both checks fails with 500 when a call raises: a
   * raising chain stops the request before the model is called, and a
   * raising model comes after the chain call, with the recommendation prompt.
   */
  lemma QueryFailsOnRaise(slot: Option<Chain>, query: Option<string>, chain: ChainOutcome, llm: LlmOutcome)
    requires slot.Some? && !MissingQuery(query)
    ensures chain.ChainRaised? ==>
              Query(slot, query, chain, llm) == QueryResult(QueryFailed, [InvokeChain(query.value)])
    ensures chain.Returned? && llm.LlmRaised? ==>
              var r := Query(slot, query, chain, llm);
              r.response == QueryFailed && |r.calls| == 2 && r.calls[0] == InvokeChain(query.value)
              && r.calls[1].InvokeLlm?
  {
  }

  /**
   * An answer's sources are distinct and are exactly the source names of the
   * documents the chain retrieved; its recommendations are the pieces of the
   * model's reply, none empty or padded with whitespace.
   */
  lemma AnswerContents(c: Chain, query: string, reply: ChainReply, text: string)
    requires query != []
    ensures var r := Query(Some(c), Some(query), Returned(reply), Replied(text)).response;
      r.Answered?
      && (r.answer == if reply.result.Some? then reply.result.value else NoAnswer)
      && r.sources == UniqueSources(RetrievedDocs(reply))
      && NoDuplicates(r.sources)
      && (forall x :: x in r.sources <==>
            exists k :: 0 <= k < |RetrievedDocs(reply)| && SourceOf(RetrievedDocs(reply)[k]) == x)
      && r.recommendations == Recommendations(text)
      && (forall k :: 0 <= k < |r.recommendations| ==> r.recommendations[k] != [] && Trimmed(r.recommendations[k]))
  {
  }

  /** After any failed build, every query is refused with 400 and calls nothing. */
  lemma QueryAfterFailedBuild(files: seq<Upload>, urls: seq<UrlRequest>, indexBuilds: bool,
                              query: Option<string>, chain: ChainOutcome, llm: LlmOutcome)
    requires Build(files, urls, indexBuilds).response != Built
    ensures Query(Build(files, urls, indexBuilds).slot, query, chain, llm) == QueryResult(NoKnowledgeBase, [])
  {
  }

  /** A whitespace-only query is not refused: the chain is invoked with it. */
  lemma BlankQueryAccepted(c: Chain, chain: ChainOutcome, llm: LlmOutcome)
    ensures Query(Some(c), Some(" "), chain, llm).calls[0] == InvokeChain(" ")
    ensures Query(Some(c), Some(" "), chain, llm).response != NoQuery
  {
  }

  /**
   * The process-wide state: the slot `rag_chain`, empty at start-up, emptied
   * by every build request and filled by a successful one.
   */
  class Server {
    var ragChain: Option<Chain>

    constructor ()
      ensures ragChain == None
    {
      ragChain := None;
    }

    /** `POST /process`. */
    method ProcessSources(files: seq<Upload>, urls: seq<UrlRequest>, indexBuilds: bool)
      returns (response: BuildResponse, effects: seq<Effect>)
      modifies this
      ensures BuildResult(response, ragChain, effects) == Build(files, urls, indexBuilds)
    {
      ragChain := None;
      if files == [] && urls == [] {
        return NoSources, [];
      }
      var pdfDocs: seq<Document> := [];
      effects := [];
      var i := 0;
      while i < |files|
        invariant 0 <= i <= |files|
        invariant LoadPdfs(files[..i]) == PdfPass(pdfDocs, effects, false)
        invariant ragChain == None
      {
        var f := files[i];
        assert files[..i + 1] == files[..i] + [f];
        if f.filename != [] && EndsWith(f.filename, ".pdf") {
          effects := effects + [LoadPdf(f.filename)];
          match f.load {
            case Unreadable =>
              RaisedIsFinal(files, i + 1);
              return BuildFailed, effects;
            case Pages(pages) =>
              pdfDocs := pdfDocs + pages;
          }
        }
        i := i + 1;
      }
      assert files[..i] == files;
      var allDocs := pdfDocs + WebDocs(urls);
      effects := effects + FetchEffects(urls);
      if allDocs == [] {
        return NoUsableDocuments, effects;
      }
      effects := effects + [BuildIndex(allDocs)];
      if !indexBuilds {
        return BuildFailed, effects;
      }
      ragChain := Some(Chain(allDocs, ChunkSize, ChunkOverlap));
      response := Built;
    }

    /** `POST /query`; reads the slot and leaves it alone. */
    method HandleQuery(query: Option<string>, chain: ChainOutcome, llm: LlmOutcome)
      returns (response: QueryResponse, calls: seq<Call>)
      ensures QueryResult(response, calls) == Query(ragChain, query, chain, llm)
    {
      if ragChain.None? {
        return NoKnowledgeBase, [];
      }
      if query.None? || query.value == [] {
        return NoQuery, [];
      }
      var q := query.value;
      calls := [InvokeChain(q)];
      if chain.ChainRaised? {
        return QueryFailed, calls;
      }
      var reply := chain.reply;
      var answer := if reply.result.Some? then reply.result.value else NoAnswer;
      var sources := UniqueSources(RetrievedDocs(reply));
      var prompt := RecommendationPrompt(q, answer);
      calls := calls + [InvokeLlm(prompt)];
      if llm.LlmRaised? {
        return QueryFailed, calls;
      }
      response := Answered(answer, sources, Recommendations(llm.content));
    }
  }

  /**
   * A successful build followed by a failed one leaves no knowledge base:
   * the next query is refused although the first build had succeeded.
   */
  method FailedRebuildDropsKnowledgeBase(server: Server, good: seq<Upload>, query: string,
                                         chain: ChainOutcome, llm: LlmOutcome)
      returns (first: BuildResponse, second: BuildResponse, answer: QueryResponse)
    requires Readable(good) && PdfPages(good) != []
    modifies server
    ensures first == Built && second == NoSources && answer == NoKnowledgeBase
  {
    BuildSucceedsIff(good, [], true);
    var effects, calls;
    first, effects := server.ProcessSources(good, [], true);
    second, effects := server.ProcessSources([], [], true);
    answer, calls := server.HandleQuery(Some(query), chain, llm);
  }
}
