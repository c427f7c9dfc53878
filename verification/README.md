# AuditCore verification model

A Dafny model of the parts of AuditCore whose correctness does not show in any single function, with
proofs of what they guarantee together:

* **The hwprobe JSON writer and its readers** (`JsonSyntax`, `JsonReader`, `JsonGrammar`, `JsonDocuments`,
  `JsonEscapes`, `Unicode`, `JsonWriter`, `WriterRuns`, `WriterTheorems`, `JsonExtraction`, `EmbeddedObjects`,
  `ExtractedTexts`). The writer decides commas from two stacks and
  one bit. It is a class with those fields; its runs are compared with a tree under construction, its output with an
  independent reader that is proved to decide the grammar of RFC 8259 and to read every spelling of a text as UTF-8 of
  that text, and with the brace scanner of the
  model gateway, which has to cut such a text out of prose.
* **Ingestion and normalization** (`EvidenceTables`, `Pipeline`, `Provenance`, `Confluence`, `CrashReplay`, `ReplayOutcome`,
  `DrainProgress`, `DrainConfluence`, `Normalizer`). Uploads, fetches, upserts, result writes, faults and crashes are steps that interleave freely. Safety
  holds over every run, and so does provenance: every stored result is a redacted output of the row's parser; the asset attributes that depend on the order are identified exactly; replays after crashes
  agree; which rows drains complete, and how soon, is decided row by row. The worker's own loop is proved to be one of these runs.
* **Token rewriting** (`Rewriting`, `Redaction`, `TreeRedaction`, `Markers`, `Uuids`): the access-key pass, the redacting
  walk over a document, the expansion of observation markers, and its agreement with the orchestrator's validation.
* **Codecs** (`PciRecords`, `Bundles`, `Archives`, `Paths`): the `lspci -vmm` record splitter and the evidence bundle, from
  the Go builder to the Python parser, with the links that an archive may hold.
* **Discovery and the gateway** (`Discovery`, `Gateway`): provenance and accounting of a whole discovery run for any
  agent replies, and which provider's answer the gateway returns.

`Sequences`, `Strings` and `Wrappers` hold small facts that the others share. `dafny verify dfyconfig.toml` checks
everything.

## Conventions

* JSON texts are sequences of bytes, other texts sequences of characters. Integer widths are types (`int64`, `uint64`)
  where the code has them and unbounded where it only counts.
* A SQL statement is one atomic step on a map; an asset id that the database generates is a parameter that must be
  unused. Clocks, generated ids, parsers, redaction inside the pipeline, the hash of a redaction token, JSON Schema
  validation, providers and agents' replies are parameters about which nothing is assumed beyond what a
  contract says.
* A name in a fault parameter (`AtUpsert`, ...) is the point where storage or the database fails.

## Findings

Where the code does less than its comments suggest, the model follows the code and a lemma says exactly where.

* A redacted string can match the first rule again. Whatever the expressions of the eight later rules match, it holds an
  access key exactly when one of them replaced a secret right after `AKIA` and 8 to 15 capitals or digits, and in
  every rule after that a kept stretch still held a key (`Redaction.RedactedHasKeyIff`; for whole documents
  `Redaction.RedactedTreeHasKeyIff`; a family of inputs in `Redaction.LaterTokenCompletesKey`).
* Uploading other bytes under a known id keeps the row and replaces its raw object: the columns are those of the first
  upload, a result that is still to come is that of the last one (`Provenance.RowsAreUploads`).
* The value of an asset attribute is independent of the order of the upserts if and only if its writers agree
  (`Confluence.OrderIndependentIffAgreed`); `numa_nodes`, which both lscpu and hwprobe report, is the only attribute for
  which that is open, for two drains of one batch as well (`DrainConfluence.OnlyNumaNodesDependsOnDrain`,
  `Confluence.NumaNodesDependsOnOrder`).
* A row is completed by enough global drains exactly when fewer than 500 pending rows that can never be normalized are
  older than it; otherwise no number of drains completes it (`DrainProgress.RowIsServedIff`). Among rows of one creation
  time the query leaves the order open.
* An observation id in capitals passes the orchestrator's check and is still rendered as unknown
  (`Markers.UpperCaseSlipsThrough`).
* A topic that contains a marker leaves that marker in the expanded body (`Markers.ExpansionIsComplete`).
* An object in prose is returned by the gateway's extraction exactly when the braces in its keys and strings, read in
  order, never close more than they and the containers around them have opened, and close all they opened
  (`EmbeddedObjects.WrittenObjectReturnedIff`); `x{"a":"}"}` is lost (`EmbeddedObjects.UnbalancedStringIsLost`).
* A tree comes back from the reader exactly when its number tokens are JSON numbers; the writer takes any text as one, and
  a sensor value can be `nan` (`JsonDocuments.ReadsBackIffWritable`).
* A safe name in a bundle does not make the bytes safe: links are followed, and a symbolic link leads anywhere in the
  archive (`Bundles.SafeNameUnsafeBytes`). The order of the members matters exactly when a file is opened through a hard
  link (`Bundles.OrderIrrelevantIff`).
* Two bundle items with one id and different bytes do not both come back (`Bundles.RawBytesReadBack`).
* A routing slot with a tertiary but no secondary target reports its second attempt as tertiary
  (`Gateway.TierIsPosition`).

## Model

| member | source | states |
|---|---|---|
| `JsonSyntax.IntTokenDenotes` | collector/hwprobe/src/json_writer.cpp:62-63 | The decimal text of any integer is a JSON number and denotes that integer |
| `JsonGrammar.ReadSpelledString` | services/normalizer-worker/src/parsers/hwprobe.rs:14 | Every spelling of a string, with every escape of section 7 of RFC 8259, reads as its meaning |
| `JsonEscapes.SpelledTextIsRead` | services/normalizer-worker/src/parsers/hwprobe.rs:14 | However a text is spelled, character by character plainly, by a two-character escape or by `\u` escapes with digits of either case, reading it as a string gives UTF-8 of exactly that text, as an independent decoder reads it |
| `JsonEscapes.HalvesCombine` | services/normalizer-worker/src/parsers/hwprobe.rs:14 | A surrogate pair means the code point that section 7 of RFC 8259 splits into it |
| `JsonEscapes.FourDigitsRead` | services/normalizer-worker/src/parsers/hwprobe.rs:14 | Four hexadecimal digits, each in either case, read as the number they spell |
| `JsonEscapes.ShortEscapesAre` | services/normalizer-worker/src/parsers/hwprobe.rs:14 | There are no two-character escapes but the eight of section 7 of RFC 8259 |
| `JsonEscapes.LoneHalfIsRejected` | services/normalizer-worker/src/parsers/hwprobe.rs:14 | Half of a surrogate pair alone is refused |
| `JsonEscapes.WhiteSpaceIs` | services/normalizer-worker/src/parsers/hwprobe.rs:14 | Only space, tab, line feed and carriage return may stand around a value |
| `Unicode.EncodedDecodes` | services/normalizer-worker/src/parsers/hwprobe.rs:14 | What the reader makes of a code point is one character of UTF-8, by the byte ranges of section 4 of RFC 3629, and stands for that code point |
| `Unicode.DecodedIsEncoded` | services/normalizer-worker/src/parsers/hwprobe.rs:14 | Nothing else decodes: the encoder and the decoder are inverse |
| `JsonGrammar.ScanNumberComplete` | services/normalizer-worker/src/parsers/hwprobe.rs:14 | The number scanner takes exactly a number token that is followed by a delimiter |
| `JsonDocuments.ReadTree` | services/normalizer-worker/src/parsers/hwprobe.rs:14 | Reading any concrete syntax tree, white space included, gives its meaning and leaves what follows |
| `JsonDocuments.ReadValueSound` | services/normalizer-worker/src/parsers/hwprobe.rs:14 | Whatever the reader accepts is spelled by a syntax tree with the value that was returned |
| `JsonDocuments.ReaderDecidesGrammar` | services/normalizer-worker/src/parsers/hwprobe.rs:14 | The reader returns a value if and only if the text is a JSON text with that value |
| `JsonDocuments.RenderReadsBack` | collector/hwprobe/src/json_writer.cpp:60-94 | The compact rendering of any tree, with white space around it, reads back as the tree |
| `JsonDocuments.ReadsBackIffWritable` | collector/hwprobe/src/json_writer.cpp:60-65 | A rendered tree reads back if and only if its number tokens are JSON numbers |
| `JsonDocuments.BracedDocument` | services/model-gateway/auditcore_gateway/validator.py:44-45 | A document from brace to brace is read as such at the head of any longer text |
| `JsonWriter.Writer.BeginObject` | collector/hwprobe/src/json_writer.cpp:7-13 | All four fields after the call, as the transition function says |
| `JsonWriter.Writer.EndObject` | collector/hwprobe/src/json_writer.cpp:15-19 | All four fields after the call; both stacks must be non-empty, or the original is undefined |
| `JsonWriter.Writer.BeginArray` | collector/hwprobe/src/json_writer.cpp:21-26 | All four fields after the call |
| `JsonWriter.Writer.EndArray` | collector/hwprobe/src/json_writer.cpp:28-32 | All four fields after the call |
| `JsonWriter.Writer.Key` | collector/hwprobe/src/json_writer.cpp:34-44 | All four fields after the call: comma, quoted key, colon, flag cleared, key pending |
| `JsonWriter.Writer.MaybeComma` | collector/hwprobe/src/json_writer.cpp:46-58 | The fields before a value |
| `JsonWriter.Writer.ValueInt` | collector/hwprobe/src/json_writer.cpp:62 | All four fields after a signed 64-bit value |
| `JsonWriter.Writer.ValueUint` | collector/hwprobe/src/json_writer.cpp:63 | All four fields after an unsigned 64-bit value |
| `JsonWriter.Writer.ValueString` | collector/hwprobe/src/json_writer.cpp:64 | All four fields after a string |
| `JsonWriter.Writer.ValueRawNumberString` | collector/hwprobe/src/json_writer.cpp:65 | All four fields after a number token, which is written as given |
| `JsonWriter.Writer.WriteString` | collector/hwprobe/src/json_writer.cpp:72-94 | The loop over bytes appends the quoted and escaped string and touches nothing else |
| `JsonEscapes.EscapeIsShortest` | collector/hwprobe/src/json_writer.cpp:72-94 | No spelling of a byte is shorter than the writer's, and no other plain or two-character one is as short |
| `WriterRuns.CallTracks` | collector/hwprobe/src/json_writer.cpp:7-65 | One disciplined call never pops an empty stack, and all four fields again equal what the tree under construction predicts |
| `WriterTheorems.StacksMatchOutput` | collector/hwprobe/src/json_writer.hpp:42-46 | After every disciplined call sequence the container stack is the list of brackets left open outside strings, and the stacks have one length |
| `WriterTheorems.FlagMatchesLastByte` | collector/hwprobe/src/json_writer.hpp:43-45 | The innermost flag is '1' exactly when the output ends with that container's bracket; all outer flags are '0' |
| `WriterTheorems.ClosingMakesDocument` | collector/hwprobe/src/json_writer.cpp:7-58 | Once a value has begun and no key is pending, adding the closing brackets gives a text that reads as the tree built so far |
| `WriterTheorems.CallsPutTree` | collector/hwprobe/src/json_writer.cpp:7-65 | The calls that write a tree are disciplined wherever a value may stand and add exactly that tree |
| `WriterTheorems.TreeAppends` | collector/hwprobe/src/json_writer.cpp:7-94 | Writing any tree appends its rendering after at most one comma, restores the container stack and leaves no key pending |
| `WriterTheorems.WriterReaderRoundTrip` | collector/hwprobe/src/json_writer.cpp:7-94 | A fresh writer driven through any tree and then the reader give the same tree |
| `WriterTheorems.ScalarReadsBack` | collector/hwprobe/src/json_writer.cpp:60-65 | A scalar written alone is read as that truth value, string, number token, or a token that denotes that integer |
| `WriterTheorems.CompleteRunReadsBack` | collector/hwprobe/src/json_writer.cpp:7-94 | Any complete disciplined run reads back as the tree that the calls built |
| `WriterTheorems.WriteTree` | collector/hwprobe/src/json_writer.cpp:7-94 | A driver of the object: what it appends, and that the stack is as before |
| `JsonExtraction.BlockEnd` | services/model-gateway/auditcore_gateway/validator.py:37-43 | The scan stops at the first position where the depth is zero, or there is none |
| `JsonExtraction.ExtractJson` | services/model-gateway/auditcore_gateway/validator.py:18-48 | Stripped text, then fence, then braces, then brackets, with the failures that end each attempt |
| `EmbeddedObjects.ObjectDepthIff` | services/model-gateway/auditcore_gateway/validator.py:37-43 | The rendering of an object has positive depth at every proper prefix and zero at its end if and only if its texts fit, a condition on the tree |
| `EmbeddedObjects.CutIsExactIff` | services/model-gateway/auditcore_gateway/validator.py:33-45 | The scan cuts exactly that rendering out of a text without an earlier brace if and only if the texts fit |
| `EmbeddedObjects.CutIsExact` | services/model-gateway/auditcore_gateway/validator.py:33-45 | In particular if every key and string is balanced, as those without braces are |
| `EmbeddedObjects.ObjectRecovered` | services/model-gateway/auditcore_gateway/validator.py:33-48 | If the texts fit, the fallback decodes that object, whatever the decoder |
| `EmbeddedObjects.WrittenObjectReturnedIff` | services/model-gateway/auditcore_gateway/validator.py:18-48 | Once the first two attempts have given nothing, the call returns the object if and only if its texts fit |
| `EmbeddedObjects.ExtractWritten` | services/model-gateway/auditcore_gateway/validator.py:18-48 | The same for the method from text to result |
| `EmbeddedObjects.UnbalancedStringIsLost` | services/model-gateway/auditcore_gateway/validator.py:18-48 | A whole call whose result is not the object in its text |
| `EmbeddedObjects.BalanceIsNotNeeded` | services/model-gateway/auditcore_gateway/validator.py:37-43 | An object whose texts fit although none of them is balanced |
| `ExtractedTexts.JsonTextIsReturned` | services/model-gateway/auditcore_gateway/validator.py:19-24 | A reply that is a JSON text is returned as what it says, with any white space around it and whatever the fence pattern would match |
| `ExtractedTexts.NumberArrayReturned` | services/model-gateway/auditcore_gateway/validator.py:34-47 | An array of numbers in prose without braces is found by the search for brackets |
| `ExtractedTexts.FenceDecides` | services/model-gateway/auditcore_gateway/validator.py:26-31 | A fence that matches has the last word: its text is decoded and nothing else is searched for |
| `ExtractedTexts.StripTakesSpace` | services/model-gateway/auditcore_gateway/validator.py:19 | Stripping takes white space from both ends, and all of it |
| `ExtractedTexts.SpaceCharIs` | services/model-gateway/auditcore_gateway/validator.py:19 | The byte patterns that count as white space are the encodings of the code points that Python's `str.isspace` accepts |
| `EvidenceTables.Database.Ingest` | services/ingestion-api/auditcore_ingestion/main.py:99-145 | The tables after the transaction, 404 without a change, the status whatever it was, and the accepted count |
| `EvidenceTables.Database.FetchPending` | services/normalizer-worker/src/db.rs:29-63 | Distinct unparsed rows of the scope in age order, as many as the limit allows; what is left out is no older and only left out when the limit is reached |
| `EvidenceTables.Database.Upsert` | services/normalizer-worker/src/db.rs:74-99 | The asset table after the upsert, and the id of the asset under that key |
| `EvidenceTables.Database.Write` | services/normalizer-worker/src/db.rs:101-127 | The evidence table after the update; an asset id is kept if none is given |
| `Pipeline.AcceptedIsGrowth` | services/ingestion-api/auditcore_ingestion/main.py:100-132 | The reply's count is the number of rows that the upload added, duplicates within it not counted |
| `Pipeline.ReingestKeepsRows` | services/ingestion-api/auditcore_ingestion/main.py:108-132 | Uploading a bundle again, at any later time, changes no row |
| `Pipeline.RunsAreSafe` | services/normalizer-worker/src/db.rs:82-127 | Over every interleaving with faults and crashes: asset ids are distinct and stable, every stored or held asset id exists, origins are fixed, a result never returns to NULL, accepted counts add up to the rows |
| `Pipeline.AllRunsFromStartAreSafe` | services/ingestion-api/auditcore_ingestion/main.py:99-145 | The same from empty tables, without an assumption on the state |
| `Provenance.RowsAreUploads` | services/ingestion-api/auditcore_ingestion/main.py:108-132 | Over any run from empty tables the rows are the uploaded ids with the columns of the first upload of each, and each object holds the bytes of the last upload for it |
| `Provenance.ResultsAreRedacted` | services/normalizer-worker/src/normalize.rs:28-61 | Every result that appears in any run is the redacted output of the row's parser on bytes uploaded for that row, with that redaction's rules and that parser's confidence, linked to the asset that the parser named |
| `Provenance.AssetsComeFromResults` | services/normalizer-worker/src/db.rs:68-127 | Every asset was created as a result of a row of its run said, every attribute has a value that a result gave for it, and a row is linked only to an asset that a result of its own named |
| `Provenance.ParsedIsRedacted` | services/normalizer-worker/src/normalize.rs:28-41 | What a parse step hands on is the redacted output of the parser on the bytes, version and scope stored at that moment |
| `Confluence.LastWriterWins` | services/normalizer-worker/src/db.rs:84-86 | After any sequence of upserts an attribute has the value of its last writer |
| `Confluence.NoWriterNoChange` | services/normalizer-worker/src/db.rs:84-86 | An attribute that nobody wrote has its old value |
| `Confluence.AgreementDecides` | services/normalizer-worker/src/normalize.rs:102-111 | Under every interleaving an attribute whose writers agree has the written value |
| `Confluence.OrderIndependentIffAgreed` | services/normalizer-worker/src/db.rs:82-87 | The final value is the same under every interleaving if and only if all writers agree |
| `Confluence.RunMergesItsUpserts` | services/normalizer-worker/src/normalize.rs:43-57 | Nothing but its upserts, in their order, decides what a run does to the assets |
| `Confluence.InterleavedRunsAgree` | services/normalizer-worker/src/normalize.rs:102-111 | Two runs whose upserts are the same up to order and generated ids agree wherever the writers agree |
| `DrainConfluence.DrainUpsertsItsBatch` | services/normalizer-worker/src/normalize.rs:43-57 | A fault-free drain, however it interleaves, upserts the hint of each row of its batch exactly once |
| `DrainConfluence.DrainsOfOneBatchAgree` | services/normalizer-worker/src/normalize.rs:102-111 | So two drains of one batch agree wherever the batch's writers agree |
| `DrainConfluence.OnlyNumaNodesDependsOnDrain` | services/normalizer-worker/src/parsers/hwprobe.rs:22-30 | With parsers that follow the table of keys and one row per tool and host they agree on everything but numa_nodes |
| `Confluence.OnlyNumaNodesIsShared` | services/normalizer-worker/src/parsers/lscpu.rs:42-51 | Two parsers share an attribute only if it is numa_nodes and they are lscpu and hwprobe |
| `Confluence.OnlyNumaNodesDependsOnOrder` | services/normalizer-worker/src/parsers/hwprobe.rs:22-30 | With one item per tool and host every other attribute is order-independent |
| `Confluence.NumaNodesDependsOnOrder` | services/normalizer-worker/src/parsers/hwprobe.rs:23 | numa_nodes depends on the order whenever the two tools disagree |
| `CrashReplay.RunOnCourse` | services/normalizer-worker/src/normalize.rs:28-57 | Through any faults and crashes every row, task and attribute is at its start or at its one possible goal |
| `ReplayOutcome.ReplaysAgree` | services/normalizer-worker/src/worker.rs:24-33 | Any two runs that complete every parseable row end with the same results, links and attributes, however often they crashed |
| `DrainProgress.DrainCompletesItsBatch` | services/normalizer-worker/src/normalize.rs:93-111 | Every interleaving of a fault-free drain completes exactly the parseable rows of its batch and keeps the stuck ones |
| `DrainProgress.DrainMakesProgress` | services/normalizer-worker/src/normalize.rs:93 | With f < 500 stuck rows a drain completes at least min(p, 500 - f) of p parseable ones, in whatever order rows were created |
| `DrainProgress.DrainsEmptyTheQueue` | services/normalizer-worker/src/db.rs:49-60 | ceil(p / (500 - f)) drains leave nothing parseable |
| `DrainProgress.RowIsServed` | services/normalizer-worker/src/db.rs:49-60 | A row that g < 500 stuck rows are not younger than is completed within ceil(k / (500 - g)) drains, k the parseable rows not younger |
| `DrainProgress.OldStuckRowsStarveTheRow` | services/normalizer-worker/src/normalize.rs:20-26 | A row behind 500 older stuck rows is completed by no number of drains |
| `DrainProgress.RowIsServedIff` | services/normalizer-worker/src/normalize.rs:93 | Where creation times differ, enough drains complete a row if and only if fewer than 500 stuck rows are older |
| `DrainProgress.OldStuckRowsStarveTheQueue` | services/normalizer-worker/src/db.rs:49-60 | If that fails for every row, no number of drains changes what is left to do |
| `Normalizer.NormalizeOne` | services/normalizer-worker/src/normalize.rs:13-81 | The tables after the call for every fault point, and when it returns an error; a row that changed holds the redacted output of its parser on its stored bytes and is linked to the asset named |
| `Normalizer.OkMeansDone` | services/normalizer-worker/src/normalize.rs:49-81 | For a row with a parser Ok means exactly that it has its result and the audit entry went through; an error from the audit leaves the result stored |
| `Normalizer.CallIsRun` | services/normalizer-worker/src/normalize.rs:13-81 | One call, faults included, is a run of the step system that takes its item out of flight |
| `Normalizer.DrainPending` | services/normalizer-worker/src/normalize.rs:84-122 | The fetched batch, the number of its items that fail, and that the tables are those of a run from the fetch to the last item |
| `Normalizer.DrainEverything` | services/normalizer-worker/src/worker.rs:24-33 | A fault-free global drain of the worker makes the proved progress |
| `Rewriting.SegmentsCover` | services/normalizer-worker/src/redact.rs:71-76 | Leftmost matching cuts a text into matches and stretches without a match that spell it |
| `Rewriting.ReplaceAllIsPiecewise` | services/normalizer-worker/src/redact.rs:71-76 | Replacement keeps the stretches in order and rewrites exactly the matches |
| `Rewriting.SealedPassIsComplete` | services/normalizer-worker/src/redact.rs:71-76 | If no replacement can take part in a match, no match is left anywhere, inside a replacement or across one |
| `Redaction.AwsPassIsComplete` | services/normalizer-worker/src/redact.rs:30 | After the access-key pass no key is left, and the pass is idempotent |
| `Redaction.AwsPassIsPiecewise` | services/normalizer-worker/src/redact.rs:69-78 | The text outside the keys is kept piece by piece |
| `Redaction.TokenReadsBack` | services/normalizer-worker/src/redact.rs:74 | A token splits into the marker word, the id of its rule and the handle of its secret |
| `Redaction.PassHoldsKeyIff` | services/normalizer-worker/src/redact.rs:69-78 | After one later rule, whatever its expression cuts, there is a key if and only if a kept stretch holds one or a replaced secret stood right after `AKIA` and 8 to 15 capitals or digits |
| `Redaction.LaterPassExposesKeyIff` | services/normalizer-worker/src/redact.rs:49 | The same with the leftmost matches of a pattern of fixed length |
| `Redaction.RedactedHasKeyIff` | services/normalizer-worker/src/redact.rs:66-81 | After the whole table there is a key if and only if some later rule exposed one and in every rule after it a kept stretch held one |
| `Redaction.RedactedTreeHasKeyIff` | services/normalizer-worker/src/redact.rs:83-106 | The same for every string of a document under the first rule and the eight later ones of the source |
| `Redaction.LaterTokenCompletesKey` | services/normalizer-worker/src/redact.rs:49-78 | The family of inputs for which a later rule's token completes a key |
| `TreeRedaction.RedactStr` | services/normalizer-worker/src/redact.rs:66-81 | The text at the end of the left-to-right trace of the rules, and the ids of exactly the rules that hit what the rules before them left, in order; unchanged if none fired |
| `TreeRedaction.RedactTextFollowsTrace` | services/normalizer-worker/src/redact.rs:69-79 | The same for the function that the walk is specified with |
| `TreeRedaction.Walk` | services/normalizer-worker/src/redact.rs:93-106 | The redacted document, and the ids appended in walking order |
| `TreeRedaction.RedactValue` | services/normalizer-worker/src/redact.rs:85-91 | Shape, keys and other leaves are kept, each string is the end of its trace; the result is the strictly sorted list of exactly the rules that fire on some string; an empty list means no change |
| `TreeRedaction.LessIff` | services/normalizer-worker/src/redact.rs:88 | The order of that list: a proper prefix is smaller, else the first difference decides |
| `Uuids.CanonicalReadsBack` | services/orchestrator/auditcore_orchestrator/report.py:115-122 | Reading the canonical text of a UUID gives it back |
| `Uuids.DashesStand` | services/report-generator/auditcore_report/loader.py:36-40 | The canonical text has its dashes at 8, 13, 18 and 23 and nowhere else |
| `Uuids.DigitsIgnoreCase` | services/orchestrator/auditcore_orchestrator/report.py:115-122 | Capitals do not matter to that reading |
| `Markers.ExpansionIsComplete` | services/report-generator/auditcore_report/sections.py:28-37 | The expanded body holds no marker if and only if no topic that was put in holds one |
| `Markers.ExpansionIsIdempotent` | services/report-generator/auditcore_report/sections.py:28-37 | With marker-free topics, expanding again changes nothing |
| `Markers.ExpansionIsPiecewise` | services/report-generator/auditcore_report/sections.py:28-37 | The body outside markers is kept, each marker becomes its own citation |
| `Markers.FlagInlineMarkers` | services/orchestrator/auditcore_orchestrator/report.py:97-99 | The loop appends exactly the unknown ids, in the order of the body and as often as they are cited |
| `Markers.FoundInOrder` | services/orchestrator/auditcore_orchestrator/report.py:97 | The ids that the search finds, with the places where their markers stand, from left to right without overlap |
| `Markers.ValidationMatchesRendering` | services/report-generator/auditcore_report/sections.py:30-36 | A flagged marker is rendered as unknown; an unflagged one as its topic exactly when its id is spelled canonically and the topic is not empty |
| `Markers.ReportAgreesWithRendering` | services/orchestrator/auditcore_orchestrator/report.py:97-99 | Over a whole body: a marker is reported exactly if its id is unknown, and then it is rendered as unknown |
| `Markers.UpperCaseSlipsThrough` | services/report-generator/auditcore_report/loader.py:36-40 | A known id in capitals is not flagged and is rendered as unknown |
| `PciRecords.SplitRecords` | services/normalizer-worker/src/parsers/lspci.rs:13-29 | The records of the runs of non-blank lines, never an empty one |
| `PciRecords.NoRecordIsEmpty` | services/normalizer-worker/src/parsers/lspci.rs:17-29 | No text yields an empty record |
| `PciRecords.FieldReadsBack` | services/normalizer-worker/src/parsers/lspci.rs:23-25 | A printed field gives its key and value back, whatever white space stands around them |
| `PciRecords.LinesRoundTrip` | services/normalizer-worker/src/parsers/lspci.rs:16-29 | The lines of any non-empty records with blank lines between them give those records |
| `PciRecords.PrintedRecordsReadBack` | services/normalizer-worker/src/parsers/lspci.rs:12-29 | The same for the whole text, with blank lines before and after, lines ending in LF or CR LF, and a last line with or without an end |
| `PciRecords.NoiseIsIgnored` | services/normalizer-worker/src/parsers/lspci.rs:23-25 | A line without a colon changes no record, wherever it stands |
| `PciRecords.CountClasses` | services/normalizer-worker/src/parsers/lspci.rs:31-44 | The counters are the numbers of devices of each kind; together they are all devices but the others |
| `PciRecords.KindIs` | services/normalizer-worker/src/parsers/lspci.rs:36-43 | Which words of the class make a device a GPU, a network or a storage controller, and which words come first |
| `PciRecords.KindsPartition` | services/normalizer-worker/src/parsers/lspci.rs:35-44 | Every device is of exactly one kind |
| `Bundles.Build` | collector/pkg/bundle/bundle.go:50-109 | An item keeps its id unless it is nil, gets its file and keeps all else; the archive is the manifest and then one member for each item, in order |
| `Bundles.ParseBundle` | services/ingestion-api/auditcore_ingestion/bundle.py:42-106 | The bundle, or the first error in the parser's order of checks, with links followed as the library does |
| `Bundles.BundleChecks` | services/ingestion-api/auditcore_ingestion/bundle.py:42-106 | Which error an archive gives, check by check from the manifest to its time stamp, and that all else is parsed |
| `Bundles.ItemChecks` | services/ingestion-api/auditcore_ingestion/bundle.py:67-98 | Which error an item gives, check by check, and its fields if it gives none |
| `Bundles.UnsafeIff` | services/ingestion-api/auditcore_ingestion/bundle.py:82 | A name is unsafe exactly if it starts with a slash or has two dots between slashes or the ends |
| `Bundles.SafeStaysInside` | services/ingestion-api/auditcore_ingestion/bundle.py:81-83 | Under whatever directory a safe name is put, the place that it leads to stays below that directory |
| `Bundles.FirstErrorWins` | services/ingestion-api/auditcore_ingestion/bundle.py:67-98 | The items fail exactly with the error of the first one that fails |
| `Bundles.ParsedItemIsSafe` | services/ingestion-api/auditcore_ingestion/bundle.py:76-97 | A parsed item's member is the last of its name and the name is safe; the bytes are that member's own if and only if it is not a link |
| `Bundles.SafeNameUnsafeBytes` | services/ingestion-api/auditcore_ingestion/bundle.py:81-97 | A symbolic link with a safe name whose bytes are those of a member with an unsafe one |
| `Archives.FetchSame` | services/ingestion-api/auditcore_ingestion/bundle.py:77-84 | With names that lead to distinct places, reading a member gives the same in any order if no hard link is on the way, symbolic links and loops included |
| `Archives.FrontFetchFails` | services/ingestion-api/auditcore_ingestion/bundle.py:84 | A member whose way to its bytes passes a hard link cannot be read once that link stands first |
| `Bundles.MemberOrderIsIrrelevant` | services/ingestion-api/auditcore_ingestion/bundle.py:49-78 | With distinct names and no link opened, any order of the members gives the same bundle or the same error |
| `Bundles.OrderIrrelevantIff` | services/ingestion-api/auditcore_ingestion/bundle.py:49-98 | For an archive that parses and whose names lead to distinct places: every order gives the same bundle if and only if no file is opened through a hard link |
| `Bundles.BuiltBundleReadsBack` | services/ingestion-api/auditcore_ingestion/bundle.py:67-98 | Whatever was built is parsed, item by item in order, each with the bytes of the last item of its id |
| `Bundles.RawBytesReadBack` | collector/pkg/bundle/bundle.go:54-85 | The bytes come back if and only if items that share an id share their bytes |
| `Bundles.CollectedItemsReadBack` | collector/pkg/bundle/bundle.go:54-85 | From the items as they were before the build: with distinct ids the service gets every item in order with the id it came with, its bytes and its description |
| `Bundles.ShuffledBundleReadsBack` | services/ingestion-api/auditcore_ingestion/bundle.py:67-98 | With distinct ids the round trip is exact in whatever order the members are stored |
| `Discovery.ValidateEvidence` | services/orchestrator/auditcore_orchestrator/discovery.py:136-150 | Accepted if and only if it cites something and only what was given; otherwise the first reason |
| `Discovery.RunDomain` | services/orchestrator/auditcore_orchestrator/discovery.py:92-133 | Kept observations become rows in their order, every other one is dropped with its reason, none is lost |
| `Discovery.ResultHasProvenance` | services/orchestrator/auditcore_orchestrator/discovery.py:102-129 | For any reply the rows are its kept observations in order and say what those say: asset, topic, content, the cited ids in order and exactly the related ids that are run assets; each cites evidence that the agent was given, and written plus dropped is the number of observations |
| `Discovery.RowSays` | services/orchestrator/auditcore_orchestrator/discovery.py:113-129 | The row of a kept observation, field by field |
| `Discovery.GroupByAgent` | services/orchestrator/auditcore_orchestrator/runner.py:46-55 | One group for each agent in the order in which the agents come up, holding exactly its categories in order; one note for each unbound category |
| `Discovery.GroupSelects` | services/orchestrator/auditcore_orchestrator/runner.py:54-55 | The categories of a group stand in the order of the run |
| `Discovery.UnboundNotes` | services/orchestrator/auditcore_orchestrator/runner.py:49-53 | One note for each category without an agent, in their order |
| `Discovery.EvidenceInOrder` | services/orchestrator/auditcore_orchestrator/runner.py:63-65 | An agent is given its evidence category by category |
| `Discovery.DiscoverRun` | services/orchestrator/auditcore_orchestrator/runner.py:30-97 | Agents are called in the order of their groups, each at most once, and none with evidence is passed over; what is written, the notes in order, the totals and the status, also when the gateway fails |
| `Discovery.NotesAre` | services/orchestrator/auditcore_orchestrator/runner.py:57-60 | Every agent that does not exist is noted as such, and all other notes after the grouping are of calls |
| `Discovery.WrittenIsFromRun` | services/orchestrator/auditcore_orchestrator/runner.py:57-77 | Every observation of a run, finished or not, cites evidence of the categories bound to its agent and has that binding's domain |
| `Gateway.SensitiveRoute` | services/model-gateway/auditcore_gateway/routing.py:50-93 | The configured targets at increasing indices, exactly those whose provider is not denied; no route exactly when all are denied |
| `Gateway.Complete` | services/model-gateway/auditcore_gateway/gateway.py:20-56 | What is tried is a prefix of the chain that the table and the privacy allow, all of it if nothing is returned; nothing before the answer stopped the gateway; with a schema and escalation every reply is valid |
| `Gateway.AskTier` | services/model-gateway/auditcore_gateway/gateway.py:34-53 | One attempt: what it returns, and null when the provider, the decoder or the validator raises or the schema escalates |
| `Gateway.StopsIff` | services/model-gateway/auditcore_gateway/gateway.py:38-52 | Exactly which answers are returned, by what the decoder and the validator make of them |
| `Gateway.ModelResponse.AttachValidation` | services/model-gateway/auditcore_gateway/gateway.py:77-87 | The validation fields after the call, and when it raises |
| `Gateway.ChainIsAllowed` | services/model-gateway/auditcore_gateway/routing.py:38-71 | The chain of a request: the configured targets, without denied providers and in their order if it is sensitive, and only the one target when air-gapped |
| `Gateway.TierIsPosition` | services/model-gateway/auditcore_gateway/gateway.py:23-26 | Tiers name positions exactly when no slot has a tertiary target without a secondary one |

## Left out

- JsonDocuments.ReaderDecidesGrammar: strings are bytes, so that a string must be valid UTF-8 (section 8.1 of RFC 8259) is not part of the model; neither are serde_json's nesting limit, its merging of duplicate keys and its numbers. The reader of the model keeps every number as its token, while serde_json turns a token that is no 64-bit integer into a double, which rounds 128-bit sizes, and rejects one out of range such as `1e999`.
- JsonDocuments.ReadsBackIffWritable: is about this reader; that hwprobe's parser replaces an unreadable document by an empty object is not modelled.
- JsonExtraction.ExtractJson: the whole-text decoder and the fence pattern are parameters (Python's decoder also accepts NaN and infinities).
- Writer: the `kv_` shorthands are a key and a value.
- TreeRedaction.Walk: rules are arbitrary tests and rewritings, and the document is returned rather than changed in place.
- Redaction.RedactedTreeHasKeyIff: what the later rules match is arbitrary, since their expressions need a full engine; only patterns of fixed length are modelled exactly.
- Redaction.AwsPassIsComplete: the hash is any function to eight lower-case hexadecimal digits.
- Pipeline.RunsAreSafe: a run's status is set by every upload whatever it was, and `last_seen` is not a column of the model; raw objects are stored with the row in one step, although the store is not part of the database transaction.
- The audit log: it is written after the result and can be missing or doubled after a crash, so it carries no property.
- The worker's select loop: each of its signals (startup, notification, tick) starts one of the drains that are modelled; reconnecting is I/O.
- Confluence.OnlyNumaNodesIsShared: of the parsers other than lspci only the attribute keys are modelled.
- Normalizer.DrainPending: takes the items one at a time; that the real drain interleaves them is what `Pipeline` and `DrainConfluence` cover.
- DrainProgress.RowIsServedIff: says nothing of a row that shares its creation time with a stuck row, where the database may choose.
- Markers.ReportAgreesWithRendering: the explicit `embedded_observations` list, section ordering and HTML templates are left out.
- Uuids.ReadUuid: spellings with anything but hexadecimal digits and dashes (braces, `urn:uuid:`) are read by a parameter.
- PciRecords.CountClasses: the 32-bit counters are unbounded; texts are characters, after the lossy decoding.
- Bundles.BuiltBundleReadsBack: gzip, tar and JSON encoding are a codec that returns what it was given; times are opaque, since the two sides keep different precision; a nil item slice (the collector refuses to build one), manifest values of unexpected types and the names of missing keys in error messages are left out.
- Archives.Extract: a chain of links that is finite but longer than Python's recursion limit is read to its end.
- Discovery.RunDomain: replies follow the agent's schema as far as types and the presence of text fields go; prompts, facts and messages are left out.
- Gateway.Complete: cost, latency and the wording of errors are left out; a cost lookup that raises counts as a provider that raises.
- Connectors, network and database drivers, hwloc, NVML and libsensors calls, configuration, report HTML and the command-line tools: plumbing, or too easy to be worth a proof.
