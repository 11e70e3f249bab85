# Universal research assistant: request handling, modelled in Dafny

The research assistant builds one knowledge base at a time from uploaded
PDFs and scraped web pages. It then answers questions against it with
retrieval-augmented generation. The Flask handlers in `app.py` do little
themselves; the libraries they call do most of the work. This project models
what the handlers decide:

- **The single slot `rag_chain`.** `App.Server` holds it as `ragChain: Option<Chain>`.
  - `ProcessSources` (`POST /process`) empties the slot first.
  - It refuses a request with neither files nor URLs (400).
  - It loads the PDF uploads in a loop. An unreadable PDF raises (500).
  - It scrapes every URL. A `RequestException` is swallowed and the URL is dropped.
  - It refuses a build with no documents at all (400).
  - It fills the slot only when the index and the chain are built. Any failure there is a 500.
  - `Build` is the pure specification of the handler. It returns the response, the new slot and the trace of effects.
- **`HandleQuery`** (`POST /query`). `Query` is its specification.
  - It refuses the query with 400, without calling anything, when the slot is empty.
  - It does the same when the query is missing or empty.
  - Otherwise it calls the chain and then the recommendation model.
  - It returns the answer, the distinct source names and the parsed recommendations.
- **The list transformations on the query path.**
  - `Answer.UniqueSources`: `dict.fromkeys` de-duplication of the source names, with `Unknown source` for a missing one.
  - `Answer.Recommendations`: `split(',')`, `strip()`, drop empty pieces.
  - `Text` holds Python's `strip`, `split` and `endswith` as used there.

External calls are inputs:
- the PDF reader's outcome per upload (`PdfRead`);
- the HTTP fetch outcome per URL (`Response`);
- whether indexing succeeds (`indexBuilds`);
- the chain's reply dictionary (`ChainOutcome`);
- the model's reply text (`LlmOutcome`).

The handlers' effects on those services are returned as traces:
- for a build: `Effect` — load a PDF, fetch a URL, build the index;
- for a query: `Call` — invoke the chain, invoke the model.

Two statements can therefore be proved directly: "nothing was touched" and
"the chain was never invoked".

Four behaviours of the code a reader might not expect:
- the slot is cleared eagerly, so a failed rebuild discards a working knowledge base (`FailedRebuildDropsKnowledgeBase`);
- an unreadable PDF aborts the whole build with 500, and the other sources are not used (`UnreadablePdfFailsBuild`, `BuildFailsIff`);
- recommendations are not capped at three, although the prompt asks for three (`RecommendationsRoundTrip`);
- a whitespace-only query is accepted (`BlankQueryAccepted`).

## Model

| member | source | states |
|---|---|---|
| `Text.Strip` | app.py:106 | the result is the slice of the input left after removing leading and trailing whitespace only, and it neither starts nor ends with whitespace |
| `Text.StripEmptyIff` | app.py:106 | a piece strips to the empty string exactly when it is all whitespace, which is the filter `if rec.strip()` |
| `Text.StripTrimmed` | app.py:106 | text with no surrounding whitespace is unchanged by `strip` |
| `Text.StripIdempotent` | app.py:106 | stripping twice is stripping once |
| `Text.Split` | app.py:106 | `split(',')` yields at least one piece, no piece holds the separator, and joining the pieces with it gives the input back |
| `Text.SplitJoin` | app.py:106 | splitting the join of separator-free pieces gives those pieces back, so `Split` is the inverse of `Join` |
| `Text.SplitPlain` | app.py:106 | a string without the separator splits into itself alone |
| `Text.SplitPrefix` | app.py:106 | a separator-free prefix becomes the first piece of the split |
| `Ingest.LoadPdfs` | app.py:41-48 | the PDF loop loads only uploads whose name ends in `.pdf`; without an exception its load effects are exactly one per PDF upload, in order |
| `Ingest.NoPdfUploads` | app.py:42-43 | with no PDF upload, nothing is accepted |
| `Ingest.LoadPdfsRaisesAt` | app.py:41-48 | when upload `i` is the first unreadable PDF, the loop raises having loaded exactly the PDF uploads up to and including it, in order |
| `Ingest.RaisedIsFinal` | app.py:41-48 | once an unreadable PDF raises, later uploads change nothing: the loop's outcome is fixed |
| `Ingest.NonPdfUploadsIgnored` | app.py:42-43 | non-PDF uploads are skipped silently: the loop over all uploads equals the loop over the PDF uploads alone |
| `Ingest.LoadPdfsPages` | app.py:41-48 | when every PDF upload is readable, the loop does not raise and yields every PDF's pages in upload order |
| `Ingest.ScrapeUrl` | app.py:50-57 | scraping gives a document exactly when the fetch succeeds; its source is the URL and its content the page text; a `RequestException` gives `None` |
| `Ingest.WebDocs` | app.py:59 | the web documents are no more than the URLs (contents: `Ingest.WebDocsSingle` with `Ingest.WebDocsAppend`) |
| `Ingest.WebDocsSingle` | app.py:50-59 | one URL gives the fetched page's text as a document whose source is the URL when the fetch succeeds, and nothing when it raises |
| `Ingest.FetchEffects` | app.py:59 | every URL is fetched, once and in order, whatever the other fetches do |
| `Ingest.SourceNames` | app.py:99 | one source name per document, in order |
| `Ingest.WebDocsSources` | app.py:50-59 | the web documents' sources are exactly the URLs whose fetch succeeds, in request order |
| `Ingest.WebDocsAppend` | app.py:59 | a URL's failure never affects what the other URLs contribute |
| `Answer.Dedup` | app.py:100 | `dict.fromkeys` keeps no duplicates, drops no value and invents none |
| `Answer.DedupFirstSeenOrder` | app.py:100 | names come out in order of their first occurrence |
| `Answer.DedupDistinct` | app.py:100 | a list without repeats is returned unchanged |
| `Answer.DedupIdempotent` | app.py:100 | de-duplicating twice equals de-duplicating once |
| `Answer.UniqueSources` | app.py:99-100 | the reported sources have no duplicates and are exactly the source names of the retrieved documents |
| `Answer.UniqueSourcesFirstSeenOrder` | app.py:99-100 | the reported sources are the de-duplicated source names, ordered by where each name first appears among the retrieved documents |
| `Answer.DedupExample` | app.py:100 | `dict.fromkeys` of B, A, B, C gives B, A, C |
| `Answer.UniqueSourcesExample` | app.py:99-100 | retrieved sources B, A, B, C are reported as B, A, C |
| `Answer.MissingSourceReported` | app.py:99 | a retrieved document without a `source` entry makes `Unknown source` appear among the sources |
| `Answer.StripNonEmpty` | app.py:106 | every kept recommendation is non-empty and has no surrounding whitespace, and there are no more than the pieces |
| `Answer.StripNonEmptyAppend` | app.py:106 | the pieces are filtered one at a time: the result for a concatenation of pieces is the concatenation of the results, so kept pieces keep their order and count |
| `Answer.StripNonEmptySingle` | app.py:106 | one piece gives its strip, or nothing when it is all whitespace |
| `Answer.StripNonEmptyMembers` | app.py:106 | a value is kept exactly when it is the strip of a piece that is not all whitespace |
| `Answer.StripNonEmptyAvoids` | app.py:106 | stripping never brings in a character that no piece held |
| `Answer.Recommendations` | app.py:105-106 | every recommendation is non-empty and trimmed, and there are at most as many as comma-separated pieces (order: `Answer.RecommendationsOfPieces`) |
| `Answer.RecommendationsArePieces` | app.py:106 | the recommendations are exactly the stripped comma-separated pieces that are not all whitespace |
| `Answer.RecommendationsCommaFree` | app.py:106 | no recommendation contains a comma |
| `Answer.RecommendationsOfPieces` | app.py:105-106 | parsing the comma-join of any comma-free pieces, padded or not, gives the strips of the pieces that are not all whitespace, in the pieces' order |
| `Answer.TypicalReply` | app.py:105-106 | a reply of the shape `a, b, c` gives the topics a, b and c, in that order |
| `Answer.RecommendationsRoundTrip` | app.py:106 | parsing the comma-join of any list of clean topics gives that list back: order is kept and the count is not capped |
| `Answer.StripNonEmptyClean` | app.py:106 | pieces that are already clean and non-empty all pass through unchanged |
| `Answer.NoTopicsInBlankReply` | app.py:106 | a reply of only commas and spaces gives no recommendation |
| `App.Build` | app.py:29-83 | the slot is filled exactly on success; there are no sources exactly when both lists are empty, and then nothing is touched; a success holds the PDF documents followed by the web documents, built with chunk size 1500 and overlap 200, and building the index is its last effect; with input and no raising PDF, 400 for no usable documents comes exactly when the PDFs and the web pages give no document; with input, a raising PDF gives 500 with the PDF loads as the only effects |
| `App.LoadPdfsRaisedIff` | app.py:41-48 | the PDF loop raises exactly when some PDF upload is unreadable |
| `App.BuildSucceedsIff` | app.py:37-79 | a build succeeds exactly when there is input, every PDF is readable, some document results and the index builds; the chain then holds the PDF pages before the web pages |
| `App.BuildFailsIff` | app.py:37-83 | with input, an unreadable PDF gives 500 having only loaded PDFs and fetched no URL; 400 for no usable documents comes exactly when every PDF is readable and neither the PDFs nor the URLs give a document, after every PDF load and every URL fetch |
| `App.BuildFetchesEveryUrl` | app.py:41-69 | unless a PDF raises, a build with input loads the PDFs, then fetches every URL once and in request order whatever each returns, and at most then builds the index |
| `App.FailedBuildEmptiesSlot` | app.py:30-83 | every failed build answers 400 or 500 and leaves the slot empty, whatever it held before |
| `App.NonPdfUploadsOnly` | app.py:42-63 | uploads that are all non-PDF, with no URLs, give 400 for no documents and touch nothing |
| `App.PdfWithDeadUrl` | app.py:40-79 | a readable three-page PDF and a URL that times out build a knowledge base from the three pages, after fetching the URL |
| `App.UnreadablePdfFailsBuild` | app.py:42-48 | an unreadable PDF gives 500 with an empty slot before any URL is fetched |
| `App.UpperCaseExtensionSkipped` | app.py:43 | the extension test is case-sensitive: `REPORT.PDF` is not loaded |
| `App.BuildResponse.Status` | app.py:37-83 | a build answers 200 only on success, 400 exactly for the two input errors, and 500 exactly for a build that raised |
| `App.PromptQuotes` | app.py:103 | the recommendation prompt quotes the question and the answer verbatim, at fixed places between the fixed text |
| `App.QueryResponse.Status` | app.py:86-116 | a query answers 200 only with an answer, 400 exactly for a missing knowledge base or query, and 500 exactly when the chain or the model raised |
| `App.Query` | app.py:86-116 | 400 and no call at all exactly when the slot is empty or the query is missing or empty; otherwise the chain is called first, with the query; an answer comes exactly when both the chain and the model return, after exactly the chain call and then the model call with the recommendation prompt |
| `App.QueryFailsOnRaise` | app.py:95-116 | once both checks pass, a raising chain gives 500 after the chain call alone, so the model is never called; a raising model gives 500 after the chain call and the model call |
| `App.AnswerContents` | app.py:97-112 | an answered query returns the chain's `result` or `No answer found.`, the de-duplicated source names of the retrieved documents in first-seen order (`UniqueSources`), distinct and exactly those names, and the parsed recommendations, none empty or padded |
| `App.QueryAfterFailedBuild` | app.py:30-88 | after any failed build, every query is refused with no knowledge base and calls nothing |
| `App.BlankQueryAccepted` | app.py:91-93 | a whitespace-only query is not refused; the chain is invoked with it |
| `App.Server.constructor` | app.py:22 | the slot starts empty |
| `App.Server.ProcessSources` | app.py:29-83 | the response, the new slot and the effects are those of `Build`, whatever the slot held before |
| `App.Server.HandleQuery` | app.py:85-116 | the response and the calls are those of `Query` on the current slot, and the slot is not changed |
| `App.FailedRebuildDropsKnowledgeBase` | app.py:30-88 | a successful build followed by a build without sources leaves no knowledge base, and the next query is refused |

## Left out

- Flask routing, CORS, serving `index.html` and JSON encoding are HTTP plumbing. Only the status and the branch taken are modelled.
- The text of error messages and the `print` logging are not modelled. They are diagnostic only.
- Reading the request body is reduced to the optional `query` string. A body that is not a JSON object, or a `query` that is not a string, is not modelled.
- `requests.get` and BeautifulSoup are replaced by a per-URL `Response`: either the page's visible text or a `RequestException`.
- An exception inside `scrape_url` that is not a `RequestException`, such as a parser failure, is not modelled. It would reach the handler's 500 path.
- Saving the upload, `secure_filename`, the temporary directory and `PyPDFLoader` are replaced by a per-upload `PdfRead`. That is the page list or an exception. The temporary directory's clean-up is not modelled.
- Splitting, embeddings, the Chroma store and the `RetrievalQA` chain are replaced by the `indexBuilds` flag and the `BuildIndex` effect. Chunking, vector search and ranking are library code. Only the constants 1500 and 200 handed to the splitter are recorded.
- The chain's reply and the recommendation model's text are inputs. Answer generation, retrieval order and the model's wording are not modelled.
- `App.Server.HandleQuery` does not model the slot being replaced by a concurrent build while a query is running. Flask's request concurrency is not modelled.
- `Ingest.WebDocs`: its own contract states only the size bound. The documents themselves are fixed by `Ingest.WebDocsSingle` for one URL and `Ingest.WebDocsAppend` for a concatenation; `Ingest.WebDocsSources` states their sources in order.
