# Contract analyser core, modelled in Dafny

The system is a small legal-contract analyser. The backend extracts a
contract's text and cuts it into numbered clauses ("c1", "c2", ...). It
flags risky wording in each clause with three fixed rules, retrieves the
clauses closest to a question, and builds the evidence block and the
chat-completion request that answer the question. The backend exists twice:
a one-file server (`run_app.py`) and the `backend/services` package. A
Next.js client drives it: the demo page `Home`, and the `UploadBox` and
`ChatBox` components.

The model covers:

- **Segmentation** (`segmentation.dfy`):
  - both `parse_document_simple` functions, from the extracted text on;
  - the two ways of splitting: `text.split("\n\n")` and
    `re.split(r"\n{2,}|\r\n{2,}", text)`;
  - stripping and dropping blank parts;
  - cutting long parts into windows of `max_clause_chars`;
  - numbering the clauses.
- **Risk scan** (`risk_scan.dfy`): `scan_clauses` in both variants. The
  backend's flags carry a `match` text and `run_app.py`'s do not.
- **Retrieval and prompts** (`retrieval.dfy`):
  - zipping a vector-store query result into hits;
  - evidence lines, with their 400- and 1000-character snippets;
  - the stub answer;
  - the chat-completion payload of both `generate_with_groq` functions.
- **Client** (`replies.dfy`, `homepage.dfy`, `upload_box.dfy`, `chat_box.dfy`):
  - what a reply looks like to the browser;
  - JavaScript's `||` fallbacks for error texts;
  - `encodeURIComponent` and report links;
  - the three components as classes whose methods update their state
    fields the way the handlers do.

Shared string helpers live in `text.dfy`: Python's `strip`, `lower`,
substring search, slicing, `join` and decimal rendering.

Each client handler is a method that runs to completion. The server's
replies are its inputs. It returns the requests it sent, the alert it
showed and, for `UploadBox`, the value passed to `onAnalyzed`. A step
function states the same run on values, and lemmas about the step functions
state what the handler guarantees.

The model follows the code as written; in particular:

- `ChatBox` keeps its history whatever `docId` it is given, so analysing
  another document leaves earlier turns in place.
- `ChatBox` has no `catch`: a failed request propagates and leaves the
  history unchanged. Any reply that arrives, even a non-ok one, adds a
  question turn and an answer turn.
- No handler checks `loading` before it starts. The buttons are disabled
  while `loading` is true; `Home`'s upload request runs with `loading`
  false, so nothing is disabled until its analysis starts
  (`HomePage.UploadLoading`).
- Both evidence lists show every item: `Home` cuts texts at 200 characters
  and `ChatBox` at 150.
- `run_app.py`'s pattern `\r\n{2,}` needs one carriage return followed by
  two or more line feeds, so a Windows blank line `"\r\n\r\n"` does not
  separate parts (`Segmentation.WindowsBlankLineNotSplit`). A `.txt` or
  `.md` file never reaches the split with such line ends: `Path.read_text`
  reads in universal-newline mode and turns `"\r\n"` into `"\n"`. That
  extraction step is not part of this model.
- `UploadBox` takes the document id from the analysis reply's `doc_id`, else
  the file name. `Home`'s sample flow stores the reply's `doc_id` as it is,
  even when it is missing.
- `UploadBox` calls `onAnalyzed` inside its `try`, so an exception thrown by
  the parent's callback is alerted like any other failure. Whether the
  callback throws is an input of the model.

## Model

| member | source | states |
|---|---|---|
| `Optional.OrElse` | frontend/pages/index.js:38 | `a \|\| b` on optional strings is truthy iff either is; it is `a` when `a` is truthy, else `b` |
| `Text.Strip` | backend/services/parser.py:23 | a non-empty result of `strip()` starts and ends with a non-whitespace character |
| `Text.StripEmptyIffAllSpace` | backend/services/parser.py:23-24 | a stripped part is empty (dropped by `if part:`) exactly when the part is all whitespace |
| `Text.StripCutsOnlySpace` | run_app.py:119 | `strip()` keeps one contiguous slice of the text, with only whitespace before and after it |
| `Text.Lower` | backend/services/risk_analysis.py:11 | `lower()` keeps the length and maps every character through the ASCII lower-casing |
| `Text.LowerIdempotent` | run_app.py:235 | lower-casing twice is lower-casing once |
| `Text.ContainsIff` | backend/services/risk_analysis.py:12 | searching for a literal succeeds exactly when it occurs at some index |
| `Text.Take` | run_app.py:130 | `s[:n]` is the prefix of length min(n, len(s)) |
| `Text.NewlinesToSpaces` | backend/services/retriever.py:59 | `replace("\n", " ")` keeps the length, leaves no line feed, turns each line feed into a space and keeps every other character |
| `Text.Decimal` | backend/services/parser.py:32 | the decimal text of an index is non-empty, all digits, with no leading zero |
| `Text.DecimalRoundTrip` | backend/services/parser.py:32 | reading back the decimal text of `idx` gives `idx` |
| `Text.DecimalInjective` | backend/services/parser.py:32 | different indices have different decimal texts |
| `Segmentation.ClauseIdFacts` | backend/services/parser.py:32-33 | `f"c{idx}"` ids are equal iff the indices are, and hold no line break |
| `Segmentation.NewlineRunFacts` | run_app.py:119 | the measured run at the front is all line feeds and ends before a non-line-feed |
| `Segmentation.MatchLenFacts` | run_app.py:119 | a match is a separator; no match means no blank line (nor `"\r\n\n"`) starts there; a run of line feeds is matched whole (greedy) |
| `Segmentation.SplitFrom` | backend/services/parser.py:22 | splitting always yields at least one piece |
| `Segmentation.SplitFromWeave` | backend/services/parser.py:22 | putting the cut separators back between the pieces gives the text again |
| `Segmentation.GapsAreSeparators` | run_app.py:119 | every gap cut out is a separator of the pattern |
| `Segmentation.PiecesNoBlankLine` | run_app.py:119 | no piece contains two consecutive line feeds: the leftmost match cuts there |
| `Segmentation.SplitWeave` | run_app.py:119 | for a whole text: pieces and separators weave back to the text, gaps are separators, pieces have no blank line |
| `Segmentation.JoinSplitRoundTrip` | backend/services/parser.py:22 | `"\n\n".join(text.split("\n\n")) == text` |
| `Segmentation.SplitJoinRoundTrip` | backend/services/parser.py:22 | `"\n\n".join(lines).split("\n\n") == lines` when no line holds a line feed |
| `Segmentation.NoSeparatorNoSplit` | run_app.py:119 | a text in which no separator starts is one piece |
| `Segmentation.WindowsBlankLineNotSplit` | run_app.py:119 | `"a\r\n\r\nb"` is not split by `\n{2,}\|\r\n{2,}` |
| `Segmentation.StripNonBlank` | run_app.py:119 | the comprehension keeps at most as many parts as there are pieces |
| `Segmentation.Kept` | backend/services/parser.py:23-25 | a piece contributes at most one part, and none exactly when it strips to empty |
| `Segmentation.StripNonBlankStripped` | run_app.py:119 | every kept part is non-empty and neither starts nor ends with whitespace |
| `Segmentation.StripNonBlankAppend` | backend/services/parser.py:22-25 | one more piece adds at most its stripped self at the end of the parts |
| `Segmentation.CollectParts` | backend/services/parser.py:20-25 | the stripping loop returns exactly the stripped, non-blank pieces in order |
| `Segmentation.ChunksFromConcat` | backend/services/parser.py:36-41 | the windows of a part, glued together, give the part back |
| `Segmentation.ChunksFromBounds` | run_app.py:129-133 | every window is non-empty and at most `max_clause_chars` long |
| `Segmentation.ChunksFromCount` | backend/services/parser.py:37-41 | a part of n characters yields ceil(n / max) windows |
| `Segmentation.DefaultChunks` | backend/services/parser.py:8 | at the default `max_clause_chars=2000`, a part of up to 2000 characters is one clause, one of up to 4000 is cut once after its 2000th character |
| `Segmentation.ChunksFacts` | backend/services/parser.py:31-41 | one part's clause texts: glued together they give the part; bounded length; 1 or ceil(n / max) of them |
| `Segmentation.ChunkTextsFacts` | run_app.py:122-133 | all clause texts glued together give all parts glued together; bounded length; Σ(1 or ceil(len/max)) of them |
| `Segmentation.NumberedAppend` | backend/services/parser.py:32-33 | appending a clause gives it the next id |
| `Segmentation.ChunkWindows` | backend/services/parser.py:36-41 | the `while` loop appends the part's windows, numbered from `idx` on, and `idx` ends one past the last clause |
| `Segmentation.ChunkPart` | run_app.py:123-133 | one iteration of the part loop appends the part's clause texts, numbered on |
| `Segmentation.ChunkParts` | backend/services/parser.py:27-42 | the numbering loop returns the clause texts of all parts numbered c1, c2, ... |
| `Segmentation.SegmentFacts` | run_app.py:120-134 | clause k is c(k+1); texts glued together give the parts; the count is Σ(1 or ceil(len/max)); with non-empty parts, every text is non-empty and at most max long |
| `Segmentation.ParseBackend` | backend/services/parser.py:19-42 | result = segmentation of the stripped `"\n\n"` pieces: ids c1.., texts of 1..max characters, nothing lost, the count above |
| `Segmentation.ParseRunApp` | run_app.py:118-134 | the same for the pieces of `re.split(r"\n{2,}\|\r\n{2,}")` |
| `Segmentation.SegmentIdsDistinct` | run_app.py:123-133 | clause ids of one document are pairwise distinct |
| `RiskScan.ContainsAnyIff` | backend/services/risk_analysis.py:12 | an alternation of literals matches exactly when one of them occurs |
| `RiskScan.ApplyRule` | backend/services/risk_analysis.py:12-13 | one rule appends its flag exactly when it matches, and nothing otherwise |
| `RiskScan.ScanClause` | run_app.py:235-241 | one clause appends the flags of the three rules, in rule order |
| `RiskScan.ScanClauses` | backend/services/risk_analysis.py:4-18 | the loop returns the flags of every clause, in clause order |
| `RiskScan.FlagsOfConcat` | run_app.py:233-242 | scanning two runs of clauses in turn gives their flags in turn |
| `RiskScan.FlagsOfAppend` | backend/services/risk_analysis.py:10-17 | scanning one more clause appends exactly its flags |
| `RiskScan.TagNamesDistinct` | backend/services/risk_analysis.py:13-17 | the three `tag` texts are pairwise different, so a flag's tag names the rule that raised it |
| `RiskScan.ClauseFlagsSound` | backend/services/risk_analysis.py:12-17 | a clause gets at most 3 flags, each with its id, the tag's match text, for a rule that matches its lower-cased text |
| `RiskScan.ClauseFlagsComplete` | backend/services/risk_analysis.py:12-17 | every rule that matches the lower-cased text flags the clause |
| `RiskScan.ClauseFlagsOrdered` | backend/services/risk_analysis.py:12-17 | a clause's flags come in rule order, so no tag twice |
| `RiskScan.ClauseFlagsEmpty` | run_app.py:236-241 | a clause raises no flag exactly when no rule matches it |
| `RiskScan.FlagsOfFacts` | backend/services/risk_analysis.py:9-18 | at most 3 flags per clause, and every flag names a clause whose text triggers its tag |
| `RiskScan.NoFlagsIffQuiet` | run_app.py:232-242 | no flags at all exactly when no rule matches any clause |
| `RiskScan.UnlimitedLiabilityPhrases` | backend/services/risk_analysis.py:12 | the liability rule fires iff "unlimited liability", "no cap on liability" or "no limit" occurs ("no limit on liability" adds nothing) |
| `RiskScan.CaseInsensitive` | backend/services/risk_analysis.py:11 | a clause and its lower-cased copy get the same flags |
| `RiskScan.UpperCaseIndemnity` | backend/services/risk_analysis.py:16-17 | "INDEMNIFY" raises exactly the Indemnity Mention flag |
| `Retrieval.Retrieve` | backend/services/retriever.py:32-45 | one hit per id, in order, each zipped from the columns with the defaults |
| `Retrieval.HitAtFields` | run_app.py:174-182 | a hit carries the id; the column's text, else ""; the column's metadata entry, else `{}` past a short column and None without one; the column's distance, else None |
| `Retrieval.RetrieveUnzips` | backend/services/retriever.py:38-44 | the hits' ids are the result's ids; with a full documents column, their texts are that column |
| `Retrieval.Snippet` | backend/services/retriever.py:59 | the snippet has min(len, limit) characters, no line feed, each line feed a space, the rest unchanged |
| `Retrieval.EvidenceLines` | backend/services/retriever.py:56-60 | the loop yields one `"[id]: snippet"` line per hit, in order |
| `Retrieval.EvidenceLineRoundTrip` | backend/services/retriever.py:60 | an evidence line reads back into its clause id and snippet (id without ']') |
| `Retrieval.EvidenceLineSingle` | run_app.py:203-204 | an evidence line holds no line feed when its id holds none |
| `Retrieval.EvidenceBlockRoundTrip` | backend/services/retriever.py:61 | the joined evidence block splits back on "\n\n" into the same lines |
| `Retrieval.UserContentRoundTrip` | backend/services/retriever.py:74-77 | the user message is "QUESTION: ", the query, "\n\nEVIDENCE:\n", then the evidence block, each recoverable by position |
| `Retrieval.GenerateRunApp` | run_app.py:185-221 | without a key: the stub header and 400-character evidence; with one: the request for GROQ_MODEL (else "compound-beta") with the strict system prompt and 1000-character evidence, 512 tokens, temperature 0 |
| `Retrieval.GenerateBackend` | backend/services/retriever.py:47-84 | without a key: the fixed message; with one: the request for GROQ_MODEL (else "compound-beta") with the backend system prompt and 1000-character evidence |
| `Retrieval.StubAnswerReadable` | run_app.py:190-199 | the stub answer is its header plus a block that splits into one line per hit, each reading back as its id and a snippet of at most 400 characters |
| `Replies.DescriptionsCompared` | frontend/pages/index.js:51 | `err.error \|\| err.message \|\| JSON.stringify(err)` and `err.error \|\| JSON.stringify(err)` agree on an `error` text; without one, only the first falls back to `message`, the second is `JSON.stringify(err)`; an `Error` stringifies as "{}" |
| `Replies.Utf8` | frontend/pages/index.js:71 | a character encodes to 1 to 4 bytes, one byte (itself) exactly for ASCII |
| `Replies.PercentByte` | frontend/pages/index.js:71 | an escape is "%XY" with hexadecimal digits whose value is the byte |
| `Replies.EncodeComponentText` | frontend/pages/index.js:71 | `encodeURIComponent` outputs only unreserved characters, '%' and hexadecimal digits |
| `Replies.EncodeUnreserved` | frontend/components/Demo/UploadBox.js:41 | a name of unreserved characters is its own encoding |
| `Replies.PercentDecodeAppend` | frontend/pages/index.js:71 | decoding a concatenation decodes the decodable prefix on its own, then the rest |
| `Replies.EncodeComponentDecodes` | frontend/pages/index.js:71 | decoding `encodeURIComponent(s)` gives the UTF-8 bytes of `s` |
| `Replies.ReportUrlSegment` | frontend/components/Demo/UploadBox.js:41 | a report link is the API base, "/report/", and one segment with no '/', '?' or '#' that decodes to the name's UTF-8 bytes |
| `HomePage.Home.constructor` | frontend/pages/index.js:3-15 | `API_BASE` is `NEXT_PUBLIC_API_BASE`, else "http://127.0.0.1:5000"; the ten `useState` initial values |
| `HomePage.Home.ChooseFile` | frontend/pages/index.js:133 | choosing a file changes only `file` |
| `HomePage.Home.TypeQuery` | frontend/pages/index.js:157 | typing changes only `query` |
| `HomePage.Home.AnalyzeDocument` | frontend/pages/index.js:56-79 | the fields after `analyzeDocument` are those of its step function |
| `HomePage.Home.HandleUpload` | frontend/pages/index.js:17-53 | the fields, requests and alert after `handleUpload` are those of its step function |
| `HomePage.Home.HandleInitSample` | frontend/pages/index.js:81-99 | the fields after `handleInitSample` are those of its step function |
| `HomePage.Home.HandleQuery` | frontend/pages/index.js:101-124 | the fields, request and alert after `handleQuery` are those of its step function |
| `HomePage.UploadNeedsFile` | frontend/pages/index.js:19 | without a file the handler only alerts "Choose a file first"; with one it never alerts |
| `HomePage.UploadThenAnalyze` | frontend/pages/index.js:36-46 | the upload is sent first; analysis follows iff the upload succeeded and named a file (`filename`, else `doc_id`), for that name |
| `HomePage.AnalyzeSuccess` | frontend/pages/index.js:66-72 | success stores `doc_id` (else the file name), flags (else none), the clause count (else 0), a report link by file name; file, question, answer and evidence are kept |
| `HomePage.FailureChangesOnlyStatus` | frontend/pages/index.js:73-77 | a failed analysis, sample or question changes only the status (with `err.error \|\| JSON.stringify(err)`) and clears `loading` |
| `HomePage.LoadingReset` | frontend/pages/index.js:76-78 | `loading` is false after analysis, sample and a sent question; a question not sent changes nothing |
| `HomePage.UploadLoading` | frontend/pages/index.js:17-53 | the upload handler leaves `loading` as it was unless it ran an analysis, which ends it false |
| `HomePage.UploadFailureKeepsDocument` | frontend/pages/index.js:36-52 | an upload run that ends without a successful analysis keeps the document, flags, count, report link, file, question, answer and evidence; a failed upload changes only the status, to "Upload failed: " and `err.error \|\| err.message \|\| JSON.stringify(err)` |
| `HomePage.QueryGuarded` | frontend/pages/index.js:103-117 | a question is sent iff a document id and a question are there, as (doc id, question, top_k 4); otherwise the matching alert; on success only answer, evidence (else none), status "Query complete" and `loading` change |
| `HomePage.InitSampleSuccess` | frontend/pages/index.js:88-92 | the sample's `doc_id` is stored as it is and written as text ("undefined" if missing) in the status and the report link |
| `HomePage.EvidencePreviewShape` | frontend/pages/index.js:176 | a preview is the text when at most 200 characters long, else its first 200 and "..." |
| `HomePage.UploadAndAsk` | frontend/pages/index.js:38-71 | uploading "nda.pdf" analysed as "d1", then asking, leaves doc "d1", 2 clauses, the report link `API_BASE + "/report/nda.pdf"`, the answer, `loading` false |
| `UploadBoxes.UploadBox.constructor` | frontend/components/Demo/UploadBox.js:4-5 | no file and not loading |
| `UploadBoxes.UploadBox.ChooseFile` | frontend/components/Demo/UploadBox.js:58 | choosing a file changes only `file` |
| `UploadBoxes.UploadBox.HandleUpload` | frontend/components/Demo/UploadBox.js:7-50 | requests, callback and alert are those of the outcome function, a throw from `onAnalyzed` included; `loading` ends false after a run with a file |
| `UploadBoxes.NoFileNoEffect` | frontend/components/Demo/UploadBox.js:9 | without a file nothing is sent, called or shown |
| `UploadBoxes.CallbackOrAlert` | frontend/components/Demo/UploadBox.js:36-46 | with a file, `onAnalyzed` is called or an alert shown; both exactly when the callback throws, and then the alert describes what it threw |
| `UploadBoxes.AnalyzeOnlyNamedUpload` | frontend/components/Demo/UploadBox.js:22-34 | analysis is requested iff the upload succeeded and named a file; a nameless reply alerts "Error: No filename returned" |
| `UploadBoxes.CallbackPayload` | frontend/components/Demo/UploadBox.js:37-43 | the callback fires iff both replies are ok and a name came back, with the analysis body, `doc_id` or the name, and the report link of the name |
| `ChatBoxes.ChatBox.constructor` | frontend/components/Demo/ChatBox.js:5-7 | empty question, empty history, not loading |
| `ChatBoxes.ChatBox.TypeQuery` | frontend/components/Demo/ChatBox.js:39 | typing changes only `query` |
| `ChatBoxes.ChatBox.HandleQuery` | frontend/components/Demo/ChatBox.js:9-30 | state, request, alert and propagated failure after `handleQuery` are those of its step function |
| `ChatBoxes.GuardsChangeNothing` | frontend/components/Demo/ChatBox.js:11-12 | without a document or a question nothing changes or is sent; the alert shows iff the document is missing |
| `ChatBoxes.ReplyAppendsTwo` | frontend/components/Demo/ChatBox.js:20-26 | any reply that arrives appends the question then the answer after the unchanged history, and empties the question |
| `ChatBoxes.FailureKeepsHistory` | frontend/components/Demo/ChatBox.js:14-29 | a failed request keeps history and question, clears `loading`, and propagates |
| `ChatBoxes.ChatStepKeepsAlternating` | frontend/components/Demo/ChatBox.js:21-25 | the history stays an alternation of user and ai entries starting with a user entry |
| `ChatBoxes.ChatEvidencePreviewShape` | frontend/components/Demo/ChatBox.js:58 | every preview ends in "..." after at most 150 characters of the text, all of it when shorter |

## Left out

- Text extraction (PyMuPDF, `read_text`), file-type dispatch and file storage: I/O. The segmentation starts from the extracted text.
- Embeddings, the Chroma collection and the store query itself. `Retrieval.Retrieve` starts from the query result.
- The HTTP post to Groq, `raise_for_status` and reading the reply's content: network I/O. Generation stops at the request payload.
- The Flask routes, report generation and `index_clauses`: these are not part of this model.
- `Text.Lower`: lower-cases ASCII letters only. Python's `str.lower` also maps non-ASCII letters, which the risk rules (all ASCII) cannot match anyway.
- Character counts are Unicode code points. JavaScript's `slice` and `length` count UTF-16 units, so the 150- and 200-character previews differ from the model on text outside the Basic Multilingual Plane.
- `Replies.EncodeComponentDecodes`: lone surrogates, for which `encodeURIComponent` throws, do not exist among Dafny characters.
- JavaScript's `null` and `undefined` are one `None`. A present `answer` or `doc_id` that is not a string is not modelled.
- Client handlers run to completion. Interleavings of concurrent handlers (a click while a request is pending), React's batched rendering and `console` output are not modelled.
- `Segmentation.ChunkParts`, `Segmentation.ParseBackend`, `Segmentation.ParseRunApp`: require `max_clause_chars > 0`. With 0 or less the source's `while` loop never ends.
- `RiskScan.ScanClauses`: its ensures ties the result to `FlagsOf`. What the flags mean is stated by `ClauseFlagsSound`, `ClauseFlagsComplete`, `ClauseFlagsOrdered`, `FlagsOfFacts` and `NoFlagsIffQuiet`.
- `HomePage.Home.HandleUpload`: `analyzeDocument` catches its own errors, so the model never sees an analysis error reaching `handleUpload`'s catch.
- The `e.preventDefault()` calls and the disabled state of buttons: rendering only.
