# Financial RAG assistant: a Dafny model of its deterministic core

The assistant answers questions about a company's financial reports. It
does so by retrieval-augmented generation: PDF reports are loaded, chunked,
embedded and stored in a Chroma collection named "financials". A question
retrieves its nearest chunks, and a language model answers from a fixed
prompt built around them. This project models what that code decides
around its external collaborators, and proves what those decisions
guarantee:

- **Answering** (`query.dfy`, module `Query`) models `query_financials`:
  - the no-evidence fallback;
  - the context block joined by a blank line;
  - the prompt template;
  - one model call, the response record and the stripped answer.
- **Ingestion** (`ingest.dfy`, module `Ingest`) models `embed_and_store` and
  `load_and_chunk_reports`:
  - document i is stored under the id `doc_i`;
  - each document is embedded as a one-text batch, then added;
  - the loop stops at the first failure.
- **PDF loading** (`file_loader.dfy`, module `FileLoader`) models
  `load_pdf_from_folder`: it loads the first `.pdf` name of the listing
  and tags every resulting document with `source`.
- **Repository tree** (`repo_tree.dfy`, module `RepoTree`) models
  `build_tree` and its recursive `_walk`: entries sorted directories first,
  box connectors, prefix extension, the `venv` skip set and the depth
  bound. It also models `main`'s plain or Markdown file content and its
  50-line preview.
- **Evaluation** (`evaluate.dfy`, module `Evaluate`) models the scoring
  loop of `evaluate_retrieval_and_generation`:
  - keyword checks ignoring case;
  - the two hit counters and one log row per question;
  - the 120-character previews.
- `strings.dfy` (module `TextOps`) gives the Python string operations
  the core uses (`strip`, `lower`, `join`, `endswith`, `in`, slicing,
  decimal rendering), with the laws the proofs need.
- `documents.dfy` and `wrappers.dfy` hold the document record and `Option`.

The external collaborators are parameters:

- the vector store's ranking for a question (`string -> seq<string>`);
- the language model (`string -> Option<string>`, None when the call raises);
- the embedding model (`seq<string> -> Option<seq<Vector>>`);
- the store's own rejections of an entry (`Entry -> bool`);
- the directory listing and the PDF parser;
- the unseen splitter `split_documents`;
- the file system as a tree value (`RepoTree.Node`).

State that the source changes in place is held in classes:

- the query pipeline's log of prompts sent and response files written (`Query.Assistant`);
- the Chroma client's collections (`Ingest.Client`);
- the embedder's log of batches (`Ingest.Embedder`);
- the tree builder's shared `lines` list (`RepoTree.TreeBuilder`).

The model follows the code as written:

- Ingestion stops at the first failing document after printing the error:
  later documents are not tried, and the caller gets no result.
- Entries are inserted with `add`.
- Only the first PDF of the folder is loaded.
- The answer is a plain string.
- A failure while writing the response file is not caught.

## Model

| member | source | states |
|---|---|---|
| Query.Assistant.QueryFinancials | src/query.py:25-64 | An empty or all-blank top-4 retrieval returns exactly "Information not available." with no model call and no record. Otherwise it sends exactly one prompt, the template filled with the context and the question. A failed call raises with no record written. A reply is stripped, recorded as question and answer, and returned. |
| Query.TopK | src/query.py:27 | The retrieval result has at most k documents. It is a prefix of the store's ranking: all of it when shorter than k. |
| Query.NoEvidenceIffAllWhitespace | src/query.py:31 | The fallback guard holds exactly when every retrieved document is whitespace only, vacuously so for none. |
| Query.NoEvidence | src/query.py:31 | The fallback guard: nothing was retrieved, or every retrieved document strips to "". |
| Query.BuildContext | src/query.py:34 | The context block: the retrieved documents joined by "\n\n". |
| Query.BuildPrompt | src/query.py:36-53 | The filled template: the fixed text before the context (a leading newline, the role, the rules and the quoted fallback), the context, "\n\nQuestion:\n", the question, and "\n\nAnswer:\n". |
| Query.ResponseRecord | src/query.py:60-62 | The response file's text: "Question:\n", the question, "\n\n", "Answer:\n", the answer. |
| Query.ContextHoldsDocsInOrder | src/query.py:34 | Each retrieved document sits in the context block at the offset after the documents before it and their "\n\n" separators, so the block holds them all, in retrieval order. |
| Query.PromptEmbedsContextAndQuestion | src/query.py:36-53 | The prompt is the fixed head, then the context block verbatim, the fixed middle, the verbatim question and the fixed tail. |
| Query.HeadCarriesFallback | src/query.py:43 | The prompt's instructions quote the fallback text "Information not available.". |
| Query.StripPrompt | src/query.py:36-53 | Stripping a filled prompt removes exactly its leading and its trailing newline. |
| Query.EvidenceInsidePrompt | src/query.py:34-53 | Every retrieved document occurs in the prompt's inner part, the text strictly between its outer newlines. |
| Query.EchoedAnswerQuotesEvidence | src/query.py:55-64 | With a model that echoes its prompt, the stripped answer contains every retrieved document. |
| Query.RecordHoldsQuestionAndAnswer | src/query.py:60-62 | The response record holds the question verbatim after "Question:\n" and ends with the answer; its length is the two lengths plus 20. |
| Ingest.DocId | src/ingest.py:37 | The id of document i starts with "doc_" and has more after it. |
| Ingest.DocIdsDistinct | src/ingest.py:34-37 | Different positions get different ids. |
| Ingest.StoredIdsDistinct | src/ingest.py:34-46 | The ids stored by one run are pairwise distinct. |
| Ingest.StepOk | src/ingest.py:39-46 | One try block succeeds: the one-text batch embeds to exactly one vector, and the store accepts the entry with id doc_i, the text, that vector and the metadata. |
| Ingest.FirstFailureFrom | src/ingest.py:34-49 | The first failing position: every document before it embeds to one vector and is accepted, and the one at it, if any, is not. |
| Ingest.StoredIsPrefix | src/ingest.py:34-49 | A run stores documents 0..n-1, where n is the first failure (or all). Entry j has id doc_j and carries document j's text and metadata. |
| Ingest.NoFailureStoresAll | src/ingest.py:34-46 | When no document fails, every document is stored and every one is tried. |
| Ingest.Embedder.EmbedDocuments | src/ingest.py:40 | The call returns the model's vectors for the batch and logs the batch. |
| Ingest.Client.GetOrCreateCollection | src/ingest.py:32 | An existing collection is kept as it is; a missing one is created empty. Nothing else changes. |
| Ingest.Client.Add | src/ingest.py:41-46 | The add succeeds exactly when the parallel lists agree in length and the store accepts every entry. Success appends the batch to that collection alone; failure changes nothing. |
| Ingest.TryStore | src/ingest.py:35-49 | One try block: it embeds the document's text as a one-element batch, then adds it as entry doc_i. Success appends that entry; failure stores nothing. |
| Ingest.StoreAll | src/ingest.py:34-49 | The loop appends exactly the entries of the stored prefix to "financials". The embedder is called once per attempted document with its single text, in order, and the failing document is the last one tried. |
| Ingest.EmbedAndStore | src/ingest.py:24-49 | The flag selects the persistent or the in-memory client, and only that client changes. Its "financials" collection ends as what it held before plus the stored prefix. |
| Ingest.LoadAndChunkReports | src/ingest.py:20-22 | The result is the splitter applied to the folder loader's documents. |
| FileLoader.PathJoin | src/utils/file_loader.py:7 | The POSIX join of the folder and the name: an absolute name replaces the folder, and "/" is inserted unless the folder is empty or already ends in one. |
| FileLoader.PathJoinShape | src/utils/file_loader.py:7 | The joined path ends with the name. An absolute name is the whole path. Otherwise the path starts with the folder, is at most one character longer than folder and name together, and has a "/" just before the name when the folder is not empty. |
| FileLoader.PathJoinKeepsPdf | src/utils/file_loader.py:6-9 | The parser is handed a path ending in ".pdf" whenever the chosen name ends in ".pdf". |
| FileLoader.FirstPdfFrom | src/utils/file_loader.py:5-6 | Finds the first name ending in ".pdf"; None exactly when no name does. |
| FileLoader.LoadedDocs | src/utils/file_loader.py:4-17 | The loader's result: the parser's documents for the first ".pdf" name, each tagged with that name, or [] when there is none. |
| FileLoader.TaggedKeepsDocs | src/utils/file_loader.py:10-14 | The returned documents are the parser's, in the same number and order with the same text. Each has "source" set to the file name, and every other key is unchanged. |
| FileLoader.NoPdfNoDocs | src/utils/file_loader.py:16-17 | Without a ".pdf" name the result is the empty list. |
| FileLoader.LaterEntriesIgnored | src/utils/file_loader.py:5-14 | Names after the first ".pdf" one, later PDFs included, do not change the result. |
| FileLoader.LoadPdfFromFolder | src/utils/file_loader.py:4-17 | The loop loads the first ".pdf" name of the listing and tags every document in place. With no such name it returns []. |
| RepoTree.KeyLeTotal | generate_repo_tree.py:12 | The sort key order is total. |
| RepoTree.KeyLeTransitive | generate_repo_tree.py:12 | The sort key order is transitive. |
| RepoTree.SortEntries | generate_repo_tree.py:12 | The listing in sort-key order: directories before files, then by lower-cased name. It has as many entries as the input, all from the input. |
| RepoTree.SortEntriesPermutes | generate_repo_tree.py:12 | Sorting keeps exactly the entries, as a multiset. |
| RepoTree.SortEntriesSorted | generate_repo_tree.py:12 | Sorted entries are ordered by (not a directory, lower-cased name). |
| RepoTree.DirectoriesFirst | generate_repo_tree.py:12 | After sorting, no directory follows a file. |
| RepoTree.ChildLines | generate_repo_tree.py:10-19 | The lines a walk of a directory emits: none when the listing is refused, else the lines of each sorted entry in turn, the last of them drawn with "└── ". |
| RepoTree.EntryLines | generate_repo_tree.py:17-28 | One entry's lines: prefix, connector and name; then, for a directory not in the skip set when there is no bound or depth + 1 is below it, the walk of its contents under the prefix extended by "    " (last) or "│   " (otherwise). |
| RepoTree.SkippedDirShowsOnlyItsName | generate_repo_tree.py:21-24 | A "venv" directory gets its own line and none of its contents. |
| RepoTree.ChildLinesHavePrefix | generate_repo_tree.py:16-28 | Every line a walk emits starts with the prefix it was given, so children carry their parent's prefix. |
| RepoTree.AtBoundOneLinePerEntry | generate_repo_tree.py:16-28 | At the depth bound a readable directory yields one line per sorted entry and nothing below. The line is prefix + connector + name, with "└── " for the last entry and "├── " otherwise. |
| RepoTree.BoundedWalkIsPrunedWalk | generate_repo_tree.py:27-28 | A walk bounded by max_depth m emits the same lines as an unbounded walk of the tree cut m - depth - 1 levels below each entry. So an entry d levels below the listed ones appears exactly when depth + d < m. |
| RepoTree.TreeBuilder.Walk | generate_repo_tree.py:10-28 | `_walk` appends to `lines` exactly the lines of the directory's sorted entries, and nothing for an unreadable directory. |
| RepoTree.TreeBuilder.WalkEntry | generate_repo_tree.py:17-28 | One loop pass appends the entry's line. A directory that is neither skipped nor at the bound is then followed by the walk below it, under the extended prefix. |
| RepoTree.BuildTree | generate_repo_tree.py:6-33 | The result is the root's name with "/", then the root's walk; a file root raises (None). |
| RepoTree.BuildTreeShape | generate_repo_tree.py:30-32 | The first line is the root name with "/", and every later line starts with a connector or a prefix extension. |
| RepoTree.TopEntriesStartWithConnector | generate_repo_tree.py:16-28 | Every line of the root's walk starts with "├── ", "└── ", "│   " or four spaces. |
| RepoTree.PlainContent | generate_repo_tree.py:53-54 | The plain file content: the lines joined by "\n", then a final "\n". |
| RepoTree.MarkdownContent | generate_repo_tree.py:51-52 | The Markdown file content: "```\n", the lines joined by "\n", then "\n```\n". |
| RepoTree.Content | generate_repo_tree.py:51-54 | The Markdown content when the flag is set, the plain content otherwise. |
| RepoTree.ContentForms | generate_repo_tree.py:51-54 | The Markdown content is the plain content between "```\n" and "```\n". Each line sits in the plain content at its offset, and the content ends with a newline. |
| RepoTree.Preview | generate_repo_tree.py:60 | The preview: the first 50 lines joined by "\n", followed by "\n... (truncated)" when there are more than 50. |
| RepoTree.PreviewShape | generate_repo_tree.py:60 | Up to 50 lines are previewed whole: the preview is the plain content less its final newline. Beyond that the preview is the first 50 lines, which open the content, then "\n... (truncated)". |
| RepoTree.Run | generate_repo_tree.py:43-60 | A missing root writes nothing; a file root fails in `build_tree`; otherwise the content of the tree lines is written to the file, and their preview is printed. |
| RepoTree.RunWritesTree | generate_repo_tree.py:48-56 | For a directory root the file content starts with the root's line, after the fence in Markdown, and ends with a newline. |
| Evaluate.AllKeywordsInIff | test/evaluate_retrieval.py:75-82 | The keyword check holds exactly when every lower-cased keyword is a substring of the text. |
| Evaluate.RowFor | test/evaluate_retrieval.py:88-95 | The logged row: the question, the keywords joined by ", ", the retrieved preview, the retrieval status, the preview of the lower-cased answer, and the generation status, each status "PASS" or "FAIL". |
| Evaluate.RetrievedPreview | test/evaluate_retrieval.py:91 | The retrieved preview is "None" without chunks. Otherwise it is the first 120 characters of the first chunk, or all of a shorter chunk. |
| Evaluate.ResponsePreview | test/evaluate_retrieval.py:93 | The first 120 characters of the response, then "..." when it is longer than 120. |
| Evaluate.ResponsePreviewShape | test/evaluate_retrieval.py:93 | A response of up to 120 characters is logged whole. A longer one is logged as its first 120 characters plus "...", 123 characters in all. |
| Evaluate.HitsBounds | test/evaluate_retrieval.py:57-85 | A hit count is at most the number of questions. It equals that number exactly when all pass, and is 0 exactly when none does. |
| Evaluate.NoKeywordsAlwaysPass | test/evaluate_retrieval.py:75-82 | With no expected keywords both checks pass. |
| Evaluate.MoreResultsKeepRetrievalPass | test/evaluate_retrieval.py:67-75 | A retrieval pass at k stays a pass at any larger k. |
| Evaluate.Judge | test/evaluate_retrieval.py:62-95 | One question's verdict: None when the answer raises. Otherwise the retrieval check on the top k chunks, the generation check on the lower-cased answer, and the row. |
| Evaluate.Tally | test/evaluate_retrieval.py:57-95 | The verdicts folded in order from zero counts and an empty log: each adds 1 to a counter per passed check and appends its row; a failure ends the fold. |
| Evaluate.TallyFailsIff | test/evaluate_retrieval.py:61-95 | Folding the verdicts fails exactly when one of them is a failure. |
| Evaluate.TallyLog | test/evaluate_retrieval.py:88-95 | A completed fold holds every verdict's row, in order. |
| Evaluate.TallyCounts | test/evaluate_retrieval.py:76-85 | A completed fold counts the retrieval and the generation passes. |
| Evaluate.EvaluationFailsIff | test/evaluate_retrieval.py:61-85 | The run raises exactly when some question's call to `query_financials` raises. |
| Evaluate.EvaluationLog | test/evaluate_retrieval.py:61-95 | A completed run logs one row per question, in question order. Each row holds that question's previews and statuses. |
| Evaluate.EvaluationCounts | test/evaluate_retrieval.py:57-85 | A completed run's counters equal the number of retrieval passes and of generation passes. A retrieval pass means every lower-cased keyword occurs in the lower-cased chunks joined by spaces; a generation pass means the same for the lower-cased answer. |
| Evaluate.RunSummary | test/evaluate_retrieval.py:56-95 | A run completes exactly when every answer comes back. A completed run logs one row per question in order, keeps both counters within the number of questions, and has a full retrieval count exactly when every question's retrieval passes. |
| Evaluate.ScriptRun | test/evaluate_retrieval.py:35-126 | The script's run over its four questions with k = 3 completes exactly when all four answers come back, and then logs four rows with both counters at most 4. |
| Evaluate.EvaluateQuestion | test/evaluate_retrieval.py:62-95 | One loop pass computes that question's verdict: both checks and its row, or a failure when the answer raises. |
| Evaluate.EvaluateRetrievalAndGeneration | test/evaluate_retrieval.py:56-95 | The loop's counters and log are the fold of the questions' verdicts in order. The four lemmas above give its result's meaning. |
| TextOps.IsSpace | src/query.py:31 | The characters str.isspace accepts: ASCII tab to carriage return, the space, U+001C-U+001F, U+0085, U+00A0, U+1680, U+2000-U+200A, U+2028, U+2029, U+202F, U+205F and U+3000. |
| TextOps.Strip | src/query.py:62-64 | str.strip with no argument: the text between the leading and the trailing whitespace runs. |
| TextOps.StripShape | src/query.py:62-64 | Strip keeps a slice, removes whitespace only around it, and leaves ends that are not whitespace. |
| TextOps.StripEmptyIffAllSpace | src/query.py:31 | A string strips to "" exactly when it is whitespace only. |
| TextOps.Join | src/query.py:34 | str.join: nothing for no parts, the part itself for one, else the first part, the separator and the join of the rest. |
| TextOps.JoinPartAt | src/query.py:34 | Each part occurs in the joined string at its offset. The joined string's length is the parts' lengths plus one separator between neighbours. |
| TextOps.Lower | test/evaluate_retrieval.py:73 | str.lower for ASCII letters: A-Z mapped to a-z, every other character kept, the length unchanged. |
| TextOps.Contains | test/evaluate_retrieval.py:75 | The substring test: the keyword is a prefix of the text or of one of its suffixes. |
| TextOps.Take | test/evaluate_retrieval.py:91 | The slice of the first n characters: a prefix of length n, or all of a shorter text. |
| TextOps.ContainsIff | test/evaluate_retrieval.py:75 | The substring test holds exactly when the keyword occurs at some position. |
| TextOps.Decimal | src/ingest.py:37 | The decimal text of a natural number: one digit below 10, else the text of n / 10 followed by the digit n % 10. |
| TextOps.DecimalInjective | src/ingest.py:37 | Different numbers render as different decimal texts. |

## Left out

- The embedding model, the language model and the PDF parser are oracles.
  Nothing about vectors or answer content is modelled.
- `Query.TopK`: the store query is an exact nearest-neighbour search. Each
  question has one fixed ranking, and `n_results = k` returns its first k
  documents. Chroma's HNSW index is approximate, and its search breadth grows
  with `n_results`, so the results for a larger k need not extend those for
  a smaller one.
- `Evaluate.MoreResultsKeepRetrievalPass` holds only under that
  exact-prefix model of the store query.
- `split_documents` is not part of this model: it is taken as a given
  function, with no chunk size or overlap assumed.
- Response-file paths and timestamps, `os.makedirs`, the evaluation CSV
  file, `dotenv` and environment variables, `argparse`, and every `print`
  are left out. The response record and the tree file content are modelled
  as values.
- The `__main__` loops of `src/query.py` and `src/ingest.py` are left out.
  So are the Streamlit UI, `generate_architecture.py`, `setup.py` and
  `test/test_query.py`, which asserts on live model output.
- The hit rates and their `.2f` formatting in the evaluation summary are
  float arithmetic; only the integer counters are modelled.
- `Evaluate.EvaluateRetrievalAndGeneration` takes `query_financials` as the
  outcome oracle `answer`. It does not call `Query.Assistant.QueryFinancials`,
  so the model does not connect their states.
- The `log_to_csv` flag and the CSV header are left out.
- `TextOps.Lower` lower-cases ASCII letters only; Python's full Unicode case
  mapping is left out.
- Exceptions from the question's `embed_query` call and the store query
  (src/query.py:26-27, test/evaluate_retrieval.py:66-71) and from the PDF
  parser are not modelled: those calls are total.
- `FileLoader.LoadPdfFromFolder`: the folder listing is a given sequence and
  cannot fail. A missing folder, a path that is not a directory and an
  unreadable folder make `os.listdir` raise, and the error propagates out of
  `load_and_chunk_reports`. Those cases are not modelled, and neither is the
  order `os.listdir` returns names in.
- The tree walker's file system is a finite tree value. Symbolic links,
  `Path.resolve` and file-name encodings are left out. The only listing
  error it models is the PermissionError `_walk` catches, through the
  `readable` flag.
- `Evaluate.RunSummary`: the evaluation is stated over any list of
  questions. For an empty list the source's summary divides by zero when it
  prints the hit rates, while the model's run completes. The script's four
  questions never reach that case.
- `Documents.Doc`: metadata values are modelled as strings. The PDF parser
  also stores integers such as the page number, but the core only passes
  values through and writes the string "source".
- `Ingest.Client.Add`: Chroma's handling of an id already in the collection
  is not modelled. The collection is an append-only sequence, and an
  insertion fails only through the lengths check or the `rejects` oracle.
- `RepoTree.SortEntries`: Python's `sorted` is stable. The model's insertion
  sort keeps equal keys in input order too, but stability is not proved. The
  contract leaves open the order of names that are equal after lower-casing.
- Lower-casing in the sort key is ASCII-only too.
- Failures while writing the response file or the tree file are not
  modelled; the writes always succeed.
