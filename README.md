# Verified model of the deterministic core of a Notion-backed RAG chatbot

The chatbot pulls pages from Notion and flattens their blocks to Markdown. It
indexes the Markdown in a vector store. At query time it retrieves passages,
keeps those a language model grades relevant, generates an answer and checks it
for grounding. This project models the parts of that pipeline that are plain
program logic, and proves properties about them:

- **Block to Markdown serialiser** (`data_puller.py`, module `DataPuller`). One
  `Block` constructor per block type the renderer recognises, plus a catch-all
  `Other(tag)`. Rich text is a sequence of optional run contents; a missing
  dictionary key is `None` and falls back to the code's default (`''`, or
  `'plaintext'` for a code block's language). `RenderBlock` is the
  specification of one branch of the dispatch. The serialiser is an imperative
  loop (`ExtractDocumentsFromBlocks`, with the loop body `AppendBlock`) proved
  equal to `Markdown`, the newline join of every block's lines.
- **Context formatting and relevance filtering** (`utils.py`, module `Utils`).
  `FormatDocs` is the numbered `<docK>` wrapper. `GetValidDocuments` is the
  grading loop, proved equal to the function `ValidDocuments`. Relevance scoring
  is an abstract function from (question, content) to a score, which may raise.
- **Reply selection and the chat transcript** (`app.py`, module `App`). The
  pipeline stages are abstract functions whose results are `Ok` or `Err` (an
  exception). `ChatbotResponse` picks one of three replies. `ChatSession` holds
  the transcript as a `seq` field that each run of the script appends to.
  `ReversedPairs` is the newest-first display pairing.

Shared helpers are in `strings.dfy` (Python's `join`, `split`, `str(n)`, `int(s)`,
`ch * n`) and `results.dfy` (`Option`, `Outcome`).

## Model

| member | source | states |
|---|---|---|
| DataPuller.PlainText | data_puller.py:72-73 | the concatenated rich text is empty exactly when every run's content is empty or missing |
| DataPuller.CellTexts | data_puller.py:129-130 | one concatenated text per cell of a table row |
| DataPuller.RenderBlock | data_puller.py:67-131 | a block gives at most two lines, two only for a table, and never an empty line |
| DataPuller.RecognisedIffNotOther | data_puller.py:71-128 | for a block read from JSON, the type tag is one with a branch exactly when the block is not the catch-all |
| DataPuller.ExtractDocumentsFromBlocks | data_puller.py:55-133 | the loop's result is the newline join of every block's rendered lines, in block order |
| DataPuller.AppendBlock | data_puller.py:68-131 | one pass of the dispatch appends exactly the block's rendered lines to the list |
| DataPuller.LinesConcat | data_puller.py:65-67 | the lines of a concatenation of block lists are the lines of each part, in order |
| DataPuller.MarkdownConcat | data_puller.py:65-133 | the output for `a + b` is the output for `a`, one newline, the output for `b` (either side vanishes when it renders nothing) |
| DataPuller.LinesEmptyIff | data_puller.py:65-131 | no lines are produced exactly when no block renders anything |
| DataPuller.LinesNonEmpty | data_puller.py:74-131 | every produced line is non-empty |
| DataPuller.MarkdownEmptyIff | data_puller.py:133 | the output is `""` exactly when no block renders anything, so in particular for no blocks |
| DataPuller.SilentBlockDropped | data_puller.py:67-133 | inserting a block that renders nothing anywhere in the list leaves the output unchanged |
| DataPuller.UnrecognisedRendersNothing | data_puller.py:71-131 | a block whose type has no branch (or no type at all) renders no line |
| DataPuller.MarkdownIgnoresUnrecognised | data_puller.py:67-133 | removing every block of an unrecognised type leaves the output unchanged |
| DataPuller.TextBlockDroppedIffEmpty | data_puller.py:71-108 | a paragraph, heading, list item, quote or code block renders nothing exactly when all its run contents are empty, and otherwise one line |
| DataPuller.HeadingShape | data_puller.py:77-82 | `heading_N` with non-empty text renders as exactly N `#`, one space, then the text |
| DataPuller.HeadingLevelFromTag | data_puller.py:81 | splitting a heading's tag on `_` gives `heading` and the digits of its level, which parse back to that level |
| DataPuller.MarkerShapes | data_puller.py:71-100 | with non-empty text a numbered item is `1. ` + text, a bulleted item `- ` + text, a quote `> ` + text, a paragraph the text alone |
| DataPuller.CodeShape | data_puller.py:102-108 | non-empty code renders as a fence with its language, and with `plaintext` when the language key is missing |
| DataPuller.FixedLineCounts | data_puller.py:110-126 | child pages, callouts, bookmarks and table rows always give one line, even with empty text, title or url; a table gives its two placeholder lines |
| DataPuller.TableRowShape | data_puller.py:128-131 | a row is `| ` + cell texts separated by ` | ` + ` |`; no cells give `|  |` |
| DataPuller.MarkdownSplitsIntoLines | data_puller.py:133 | when no line contains a newline, splitting the output on newlines gives back exactly the rendered lines |
| Strings.JoinConcat | data_puller.py:133 | joining two non-empty lists puts exactly one separator between their joins |
| Strings.DecimalString | utils.py:75 | a number prints as a non-empty digit string with no leading zero |
| Strings.ParseDecimalString | data_puller.py:81 | `int(str(n)) == n` |
| Utils.GetValidDocuments | utils.py:62-71 | the grading loop returns what `ValidDocuments` specifies: the kept documents, or the exception of a failing grade |
| Utils.ErrorPersists | utils.py:64-66 | a grade that raises on a prefix makes the whole call raise with that exception |
| Utils.ValidDocumentsOkIff | utils.py:64-69 | the call returns normally exactly when every grading call does |
| Utils.FirstFailureWins | utils.py:64-66 | the exception raised is that of the first document whose grading fails |
| Utils.KeptIsSubsequence | utils.py:62-71 | the kept documents are a subsequence of the input, in their original relative order |
| Utils.KeptPositions | utils.py:64-69 | the positions kept are increasing and are exactly the positions graded `yes` |
| Utils.KeptIffYes | utils.py:68-69 | a document is kept exactly when it is in the input and its grade is exactly `yes` |
| Utils.KeptBounds | utils.py:62-71 | no more documents are kept than given; when every grade is `yes` the output equals the input |
| Utils.NothingKeptWithoutYes | utils.py:68-69 | when no grade is exactly `yes` (`Yes` or `no`, for example), nothing is kept |
| Utils.DocEntries | utils.py:75 | one entry per document |
| Utils.FormatDocsSnoc | utils.py:75 | no documents give `""`; appending a document appends a newline and `<docK>:\nContent:` + content + `\n</docK>\n` with K one more than the count before |
| Utils.EntriesDistinct | utils.py:75 | two distinct positions give distinct entries, even when the documents' contents are equal, because their numbers differ |
| App.ReplyOnSuccess | app.py:17-27 | when every stage succeeds, a truthy status gives the answer exactly and a falsy one gives `Hellucination detected: ` + answer |
| App.ReplyOnFailure | app.py:18-30 | when any stage raises, the reply is exactly the fixed error text |
| App.ReplyForms | app.py:17-30 | every reply is the error text, the answer, or the prefixed answer |
| App.CrustExample | app.py:17-27 | whatever documents are retrieved, when every one is graded `yes` and the answer is `Melting`, the reply is `Melting`, or `Hellucination detected: Melting` if the status is falsy |
| App.AfterRunAppendsPair | app.py:45-51 | a submit with non-empty text appends the user entry and then the bot reply, leaving earlier entries unchanged; any other run changes nothing; alternation is kept |
| App.ReplayWellPaired | app.py:36-51 | a transcript that starts empty and changes only by runs of the script has even length, user entries at even and bot entries at odd positions, and two entries per submit |
| App.EveryOtherAt | app.py:54 | `s[start::2]` has `(n - start + 1) / 2` elements, element k being `s[start + 2k]` |
| App.ZipAt | app.py:54 | `zip` stops at the shorter list and pairs equal positions |
| App.ReverseAt | app.py:54 | `[::-1]` keeps the length and puts element `n - 1 - k` at position k |
| App.ReversedPairsAt | app.py:54 | there are floor(n/2) pairs; pair i is entries 2j and 2j+1 for j = floor(n/2) - 1 - i, so a trailing odd entry is dropped |
| App.PairsAreExchanges | app.py:54 | on a well-paired transcript each displayed pair is a user entry then a bot entry |
| App.NewestExchangeFirst | app.py:45-54 | after a submit, the display starts with the new exchange, followed by the earlier display unchanged |
| App.ChatSession.constructor | app.py:36-37 | a session starts with an empty, well-paired transcript |
| App.ChatSession.Run | app.py:45-51 | one run of the script sets the transcript as `AfterRun` describes and keeps it well paired |
| App.ChatSession.History | app.py:54 | the displayed pairs number half the transcript, each a user entry then a bot entry |

## Left out

- `fetch_notion_page_blocks` (data_puller.py:10-52): HTTP pagination against the Notion API and its error handling are network I/O. Its mutable default `all_blocks=[]` and its unguarded recursion into child blocks are not part of this model either.
- The module-level script of data_puller.py (lines 135-142): it reads the environment and writes a file.
- Explicit JSON `null` values: the model covers present and missing keys only. In the source a `null` behaves differently from a missing key. Under a key whose value should be an object (`paragraph` and the other payload keys, `text`, `icon`), the next `.get` raises. A `null` `language` renders as ```` ```None ````, and a `null` `title`, `emoji` or `url` renders as the text `None` (data_puller.py:106-122). A `null` `content` makes the `''.join` raise `TypeError`, and a `null` `rich_text` or `cells` list makes the comprehension over it raise `TypeError` (data_puller.py:73, 130).
- Nested child blocks: the serialiser receives the already-flattened list that the fetch builds, so `Block` has no children.
- All language-model, embedding and vector-store calls in utils.py (`get_retriever`, `get_relevent_docs`, `generate_answer`, `check_hellucincation`, the prompts and `with_structured_output`): they are parameters of the model (`Stages`, `Grader`) with unmodelled behaviour.
- Utils.ValidDocuments: relevance scoring is a function, so two documents with the same text and question get the same score. A real language model may answer differently each time.
- App.ChatbotResponse: the grounding status is an abstract boolean, the truthiness of the object `check_hellucincation` returns. The model does not claim that a `no` score makes it false.
- data_loader.py: the Markdown header splitter, the recursive character splitter, Chroma and Cohere calls, and the `time.sleep(60)` pacing all live in libraries this model does not include.
- Streamlit rendering, the `message(...)` display calls, logging and printing (app.py:1-14, 33-42, 57-59). The display step is modelled up to the list of pairs it iterates over.
