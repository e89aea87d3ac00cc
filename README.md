# TestRail to Lark converter, modelled in Dafny

This project models the core of a converter. The converter reads a TestRail XML export and uploads its test cases as records of a Lark Bitable table. The pipeline has three stages:

1. **Extract** (`xml_parser.dfy`). Every `case` element at any depth below the root of an element tree becomes a six-field record. Cases without a title are dropped.
2. **Clean** (`data_cleaner.dfy`, with the hand-written regular expressions in `patterns.dfy`).
   - A case number `TCG-?\d+\.\d+\.\d+` is split off the title, and a missing hyphen is repaired.
   - Markdown links, code spans, and bold and italic markers are removed.
   - A record comes out with six string fields.
3. **Format** (`formatter.dfy`). Priorities are normalised to High, Medium or Low. Required and critical fields are checked. A batch keeps the records that pass, in order.

Three further parts are modelled:

- **Upload.**
  - `lark_client.dfy` holds the token cache, the cache of resolved object tokens and the upload in chunks of 500.
  - `simple_client.dfy` holds the simple client, which checks its preconditions and every record, renames the fields to their display labels and summarises the errors.
- **Validators** (`validators.dfy`):
  - the `TCG-XXX.YYY.ZZZ` check;
  - priority membership;
  - required fields;
  - `ValidationResult`;
  - the `FieldValidator` rule table with its `name:param` dispatch and batch validation.
- **Configuration manager** (`config.dfy`):
  - recursive merging;
  - nested assignment;
  - mapping environment variable names to configuration paths;
  - converting environment values;
  - validation;
  - masking secrets;
  - loading, backup and restore.

Shared definitions:

- `values.dfy` models Python values: `None`, booleans, integers, strings, lists and string-keyed dicts, with their truthiness, `str()` and `dict.get`.
- `text.dfy` models `str.strip` (Python's whitespace set), ASCII `lower()`, `startswith`, `find`, `in`, `replace` and `join`.
- `wrappers.dfy` holds `Option` and `Result`.

**Network and time.**
- The network is a `Transport` object that answers each request with the next of a list of scripted replies and logs what was sent.
- The clock is an integer parameter `now`, in seconds, that stays fixed during one call.
- Exceptions the source raises become `Err` values, and an exception the source catches becomes the branch that handles it.

**Behaviour modelled as written.** Where the code and its documentation or tests disagree, the model follows the code:

- **Double-wrapped messages.** Some errors are caught by an enclosing `except Exception` and wrapped a second time. Those messages carry both prefixes:
  - at `src/lark/client.py:450-456` (`批次建立記錄異常: 批次建立記錄失敗: ...`);
  - at `src/config/config_manager.py:135-145` (`設定檔讀取失敗: ` inside `設定載入失敗: `).
- **`$` anchor.** Python's `$` accepts one final newline. Without stripping, `validate_test_case_number("TCG-001.002.003\n")` is therefore true (`Validators.UnstrippedCaseNumber`).
- **Display labels.** The simple client sends the English labels `Test Case Number`, `Title`, …. This follows `src/lark/client.py:431-436`, not the Chinese labels some tests expect.
- **Three case-number patterns.** They are kept apart:
  - the validator's `^TCG-\d{3}\.\d{3}\.\d{3}$`;
  - the cleaner's `TCG-?(\d+)\.(\d+)\.(\d+)`;
  - the configuration default `TCG-\d+\.\d+\.\d+`, kept only as data.
- **Partial token.** A token answer whose `expire` is not a number, or puts the expiry before year 1 or after year 9999, stores the token and then raises. The call returns nothing and keeps the old expiry (`LarkClient.InterpretToken`, `TokenPartial`).

## Model

| member | source | states |
|---|---|---|
| `XmlParser.ToDict` | src/parsers/xml_parser.py:181-201 | a record has exactly the keys id, title, priority, preconds, steps, expected, each holding its extracted text |
| `Values.Str` | src/parsers/formatter.py:72-80 | `str()` keeps a string as it is, and renders any other value as non-empty text that does not start with whitespace |
| `Text.Strip` | src/parsers/data_cleaner.py:53 | the result has no surrounding whitespace and is a slice of the input |
| `XmlParser.Find` | src/parsers/xml_parser.py:231 | `find(tag)` succeeds exactly when some direct child has the tag, and returns such a child |
| `XmlParser.GetElementText` | src/parsers/xml_parser.py:216-236 | the default when the parent is missing, the child is absent or its text is `None`; otherwise the stripped text of the first such child |
| `XmlParser.FindAllCasesComplete` | src/parsers/xml_parser.py:153-164 | an element is found exactly when it is a `case` at any depth strictly below the root |
| `XmlParser.CasesInListAppend` | src/parsers/xml_parser.py:164 | the search over a list of subtrees is the concatenation of the searches, so document order is kept |
| `XmlParser.ExtractSingle` | src/parsers/xml_parser.py:166-214 | a record exists exactly when the stripped title is non-empty; id defaults to "" and priority to "Medium"; without `custom` the three detail fields are "", otherwise they are the texts under `custom` |
| `XmlParser.KeptCasesAppend` | src/parsers/xml_parser.py:107-111 | what is kept from two lists of cases is what is kept from each, concatenated |
| `XmlParser.KeptCasesBounds` | src/parsers/xml_parser.py:103-117 | no more records than case elements, and every kept record has a non-empty title |
| `XmlParser.KeptCasesMembers` | src/parsers/xml_parser.py:107-111 | a record is in the output exactly when some case element extracts to it |
| `XmlParser.KeptCasesAll` | src/parsers/xml_parser.py:110 | every case is kept exactly when every case has a non-empty title |
| `XmlParser.ExtractTestCases` | src/parsers/xml_parser.py:86-118 | the loop returns the kept records of all descendant cases, in order, and `[]` for no tree |
| `XmlParser.ValidateXmlStructure` | src/parsers/xml_parser.py:130-132 | no tree is never valid |
| `XmlParser.ValidateXmlStructureMeaning` | src/parsers/xml_parser.py:139-151 | a tree is valid exactly when the root has a direct `sections` child or some `case` lies below it |
| `Patterns.DelimAt` | src/parsers/data_cleaner.py:28-31 | a delimited match (`**x**`, `*x*`, `` `x` ``, ```` ```x``` ````) has a non-empty group copied from the text between the delimiters |
| `Patterns.LinkAt` | src/parsers/data_cleaner.py:32 | a `[caption](target)` match has a non-empty caption copied from the text after `[` |
| `Patterns.MatchAt` | src/parsers/data_cleaner.py:28-32 | every match is at least two characters longer than its group, so replacing it by the group shortens the text |
| `Patterns.SubFromLength` | src/parsers/data_cleaner.py:134 | `re.sub` never lengthens the text, and keeps its length exactly when nothing matches, in which case the text is unchanged |
| `Patterns.SubFromShorter` | src/parsers/data_cleaner.py:144 | a substitution over text holding a match strictly shortens it |
| `Patterns.SubChanges` | src/parsers/data_cleaner.py:144-146 | a substitution changes the text exactly when the pattern occurs, and then it shortens it |
| `Patterns.NoMatchStrip` | src/parsers/data_cleaner.py:149 | text free of a pattern stays free of it after `strip()` |
| `Patterns.NoKeyNoChange` | src/parsers/data_cleaner.py:134-146 | text without the pattern's opening character holds no match and is left unchanged |
| `Patterns.NoBracketNoLink` | src/parsers/data_cleaner.py:168 | text without `[`, such as a bare URL, is left unchanged by the link rewrite |
| `Patterns.LinkRewrite` | src/parsers/data_cleaner.py:168 | `[caption](target)` is rewritten to `caption` |
| `Patterns.CodeRewrite` | src/parsers/data_cleaner.py:137 | `` `code` `` is rewritten to `code` |
| `Patterns.ThreeGroupsAt` | src/parsers/data_cleaner.py:26 | the three dotted digit groups end after their start and within the text |
| `Patterns.CaseNumberAt` | src/parsers/data_cleaner.py:26 | a case-number match starts with `TCG` and is longer than four characters |
| `Patterns.HyphenlessAt` | src/parsers/data_cleaner.py:27 | a hyphenless match starts with `TCG` and is longer than four characters |
| `Patterns.SearchCaseNumber` | src/parsers/data_cleaner.py:60 | `search` returns the leftmost match: a match at the returned start, none before it, and none anywhere when it returns nothing |
| `Patterns.ThreeGroupsShape` | src/parsers/data_cleaner.py:26 | the matched groups are digits, a dot, digits, a dot, digits |
| `Patterns.ThreeGroupsOfShape` | src/parsers/data_cleaner.py:26 | text of that shape is matched wherever it occurs, to its end when no digit follows |
| `Patterns.CaseNumberShape` | src/parsers/data_cleaner.py:26 | the text of a case-number match is `TCG`, an optional `-`, then the three groups |
| `Patterns.CaseNumberOfShape` | src/parsers/data_cleaner.py:26 | text of the case-number shape is matched wherever it occurs |
| `Patterns.CaseNumberCopy` | src/parsers/data_cleaner.py:60-70 | wherever the matched text occurs again, the pattern matches there too |
| `Patterns.CanonicalMatches` | src/parsers/data_cleaner.py:92 | a canonical number starts with `TCG-` and is matched as a whole |
| `Patterns.RemoveFirstMatch` | src/parsers/data_cleaner.py:70 | `title.replace(match, "", 1)` removes exactly the leftmost match |
| `DataCleaner.FixMissingHyphen` | src/parsers/data_cleaner.py:88-89 | a value that is not a string comes back unchanged; a string gives a string |
| `DataCleaner.FixHyphen` | src/parsers/data_cleaner.py:88-104 | the text is kept, or it started with a hyphenless number and is rebuilt to start with `TCG-`, at most one character longer |
| `DataCleaner.FixHyphenKeeps` | src/parsers/data_cleaner.py:96-104 | text that does not start with a hyphenless number is unchanged |
| `DataCleaner.FixHyphenKeepsCorrect` | src/parsers/data_cleaner.py:92-93 | a number that already has its hyphen is unchanged |
| `DataCleaner.FixHyphenRepairs` | src/parsers/data_cleaner.py:96-101 | a hyphenless number at the start becomes `TCG-` followed by its dotted groups, which is canonical |
| `DataCleaner.NotHyphenated` | src/parsers/data_cleaner.py:92-96 | text starting with a hyphenless number does not start with `TCG-`, so the first branch cannot take it |
| `DataCleaner.FixHyphenIdempotent` | src/parsers/data_cleaner.py:78-104 | repairing twice is repairing once |
| `DataCleaner.ExampleNumber` | src/parsers/data_cleaner.py:96-101 | `"TCG001.002.003"` is repaired to `"TCG-001.002.003"` |
| `DataCleaner.FixHyphenOfMatch` | src/parsers/data_cleaner.py:64-67 | whatever the repair makes of a case-number match is canonical |
| `DataCleaner.HyphenatedMatch` | src/parsers/data_cleaner.py:92-93 | a match that has its hyphen is kept as it is and is canonical |
| `DataCleaner.ExtractNumberAndTitle` | src/parsers/data_cleaner.py:47-51 | `None` and non-strings raise `TypeError` with their two messages; a string always succeeds |
| `DataCleaner.SplitTitle` | src/parsers/data_cleaner.py:53-76 | the remaining title is stripped and no longer than the input |
| `DataCleaner.SplitTitleFound` | src/parsers/data_cleaner.py:60-73 | with a number, the canonical number and the stripped title with exactly the leftmost match cut out |
| `DataCleaner.SplitTitleNotFound` | src/parsers/data_cleaner.py:53-55 | without a number, `("", stripped title)`; a blank title gives `("", "")` |
| `DataCleaner.SplitTitleShape` | src/parsers/data_cleaner.py:53-76 | the number is empty or canonical, and the remainder is stripped |
| `DataCleaner.SplitTitleExample` | src/parsers/data_cleaner.py:60-73 | `"TCG001.002.003 x"` splits into `("TCG-001.002.003", "x")` |
| `DataCleaner.ExtractUrlDescription` | src/parsers/data_cleaner.py:151-171 | non-strings come back unchanged; a string gives a string that is no longer |
| `DataCleaner.ExtractUrlLink` | src/parsers/data_cleaner.py:168 | a link becomes its caption |
| `DataCleaner.ExtractUrlBare` | src/parsers/data_cleaner.py:168 | text without `[` is untouched |
| `DataCleaner.StepProgress` | src/parsers/data_cleaner.py:141-146 | one round changes nothing exactly when no bold or italic match is left, and otherwise shortens the text |
| `DataCleaner.StripEmphasis` | src/parsers/data_cleaner.py:140-146 | the rounds reach a text with no bold and no italic match and no longer than the input |
| `DataCleaner.CleanText` | src/parsers/data_cleaner.py:125-149 | the result is stripped, holds no bold or italic match, and is no longer than the input |
| `DataCleaner.CleanMarkdown` | src/parsers/data_cleaner.py:119-149 | `None` and non-strings raise `TypeError`; a string cleans to stripped text with no bold or italic match |
| `DataCleaner.CleanMarkdownContent` | src/parsers/data_cleaner.py:106-149 | the loop, run until the text stops changing, computes the cleaned text |
| `DataCleaner.NestedEmphasis` | src/parsers/data_cleaner.py:139-146 | `"***粗斜體***"` cleans to `"粗斜體"` |
| `DataCleaner.CleanTextNotIdempotent` | src/parsers/data_cleaner.py:131-146 | `"[**a]**(b)"` cleans to `"[a](b)"`, which cleans to `"a"`: cleaning is not idempotent |
| `DataCleaner.CleanLink` | src/parsers/data_cleaner.py:168 | `"[a](b)"` cleans to `"a"` |
| `DataCleaner.CleanHiddenLink` | src/parsers/data_cleaner.py:131-146 | `"[**a]**(b)"` cleans to `"[a](b)"`, because the link rewrite runs before the bold markers are removed |
| `DataCleaner.CleanedToDict` | src/parsers/data_cleaner.py:213-220 | the cleaned record has exactly six keys, all strings |
| `DataCleaner.FieldOrEmpty` | src/parsers/data_cleaner.py:196-210 | a missing or `None` field reads as `""`; any other value is kept |
| `DataCleaner.CleanTestCaseFields` | src/parsers/data_cleaner.py:183-184 | exactly the non-dicts raise `TypeError` |
| `DataCleaner.CleanTestCaseFieldsDefaults` | src/parsers/data_cleaner.py:189-220 | a dict always cleans; missing or `None` fields become `""`; the priority is `str()` of the raw value, uncleaned |
| `DataCleaner.CleanTestCaseFieldsClean` | src/parsers/data_cleaner.py:193-220 | the number is empty or canonical, and the text fields are stripped and free of bold and italic |
| `Formatter.MapPriority` | src/parsers/formatter.py:25-29 | the table lookup always gives High, Medium or Low |
| `Formatter.FormatPriorityField` | src/parsers/formatter.py:85-106 | total, always High, Medium or Low; `None` gives Medium; a string goes through strip and lower |
| `Formatter.PriorityOf` | src/parsers/formatter.py:99-106 | a string priority always normalises to High, Medium or Low |
| `Formatter.SameKeySamePriority` | src/parsers/formatter.py:99-106 | texts with the same stripped, lower-cased key get the same priority |
| `Formatter.PriorityIgnoresSpace` | src/parsers/formatter.py:99 | surrounding whitespace does not change the priority |
| `Formatter.PriorityIgnoresCase` | src/parsers/formatter.py:99 | letter case does not change the priority |
| `Formatter.PriorityFixed` | src/parsers/formatter.py:25-29 | High, Medium and Low map to themselves |
| `Formatter.PriorityIdempotent` | src/parsers/formatter.py:85-106 | normalising a normalised priority changes nothing |
| `Formatter.ValidateRequiredFields` | src/parsers/formatter.py:108-134 | a pass means a dict with all six keys and non-blank critical fields |
| `Formatter.ValidateMeaning` | src/parsers/formatter.py:118-134 | a pass is exactly a dict holding every required field whose critical fields are not blank; a blank precondition is allowed |
| `Formatter.RecordValid` | src/parsers/formatter.py:108-134 | a record whose four critical fields are not blank passes validation as a dict |
| `Formatter.HasRequiredMeaning` | src/parsers/formatter.py:32-35 | the key check is membership of every name in the declared required list |
| `Formatter.CriticalMeaning` | src/parsers/formatter.py:38-40 | the blankness check covers every name in the declared critical list |
| `Formatter.RecordToDict` | src/parsers/formatter.py:70-83 | the formatted dict has the six keys with the record's texts |
| `Formatter.MissingFields` | src/parsers/formatter.py:63-66 | the missing list is empty exactly when all required keys are present |
| `Formatter.MissingFieldsMembers` | src/parsers/formatter.py:63-66 | a name is listed exactly when it is required and absent |
| `Formatter.ErrorMessage` | src/parsers/formatter.py:67 | a validation error's text starts with `缺少必要欄位: ` |
| `Formatter.FormatTestCaseForLark` | src/parsers/formatter.py:44-83 | a non-dict raises `TypeError`; a dict formats exactly when it validates, and otherwise raises `ValidationError` |
| `Formatter.FormatFields` | src/parsers/formatter.py:72-80 | the five text fields are `str()` of the input's values and the priority is normalised |
| `Formatter.FormattedIsValid` | src/parsers/formatter.py:58-83 | a formatted record passes validation again and has a normalised priority |
| `Formatter.RecordToDictKeys` | src/parsers/formatter.py:70-80 | exactly six keys and every value a string |
| `Formatter.FormatBatchAppend` | src/parsers/formatter.py:152-167 | formatting distributes over concatenation, so input order is kept |
| `Formatter.FormatBatchMembers` | src/parsers/formatter.py:146-172 | no more records than inputs, and exactly the records of inputs that format |
| `Formatter.FormatBatchValid` | src/parsers/formatter.py:155-162 | every record of a batch passes validation and has a normalised priority |
| `Formatter.BatchFormatRecords` | src/parsers/formatter.py:136-172 | the loop returns the kept records in input order, and `[]` for no input, never raising |
| `LarkClient.Transport.Send` | src/lark/client.py:53-60 | a request is logged and answered by the next scripted reply |
| `LarkClient.ExpireSeconds` | src/lark/client.py:74 | a token lives `expire` seconds, 7200 when absent; a value that is not a number fails |
| `LarkClient.InterpretToken` | src/lark/client.py:62-81 | a token is read only from an accepted answer that holds one; it expires at `now + expire - 300` when that instant is within the range of `datetime`; a non-numeric `expire` or an expiry out of range leaves the token stored with no expiry computed |
| `LarkClient.ExpiryOverflow` | src/lark/client.py:73-81 | an `expire` that takes the expiry out of the range of `datetime` caches the new token under the old expiry, and the call returns `None` |
| `LarkClient.AfterFetch` | src/lark/client.py:72-75 | a failed fetch keeps the cache; a successful one stores the token and its expiry |
| `LarkClient.FetchResult` | src/lark/client.py:77-81 | the call returns the new token, or `None` |
| `LarkClient.FetchedTokenIsCached` | src/lark/client.py:45-49 | a token fetched at `now` is served from the cache by every unforced call before it expires |
| `LarkClient.FailedFetchKeepsCache` | src/lark/client.py:62-70 | a refused answer leaves the cache as it was and returns `None` |
| `LarkClient.AuthManager.constructor` | src/lark/client.py:25-31 | a new manager holds no token and no expiry |
| `LarkClient.AuthManager.GetTenantAccessToken` | src/lark/client.py:41-81 | a servable cached token is returned with no request; otherwise exactly one token request is sent and its answer updates the cache; the token returned and the cache and replies left afterwards are those of `TokenRun` on the state before the call |
| `LarkClient.CachedIsValid` | src/lark/client.py:83-87 | a token served from the cache is valid; an empty-string token is never served |
| `LarkClient.AuthorisedWithCachedToken` | src/lark/client.py:45-49 | a request that needs a token, made while a token may be served from the cache, goes out at once and gets the first scripted reply |
| `LarkClient.AuthorisedWithRefusedToken` | src/lark/client.py:113-116 | when no token is cached and the token request is refused, the request that needed the token is never sent |
| `LarkClient.InterpretNode` | src/lark/client.py:126-135 | the object token is read only from an accepted answer whose `data.node.obj_token` path exists |
| `LarkClient.TableManager.constructor` | src/lark/client.py:93-97 | a new manager has no resolutions cached |
| `LarkClient.TableManager.GetObjToken` | src/lark/client.py:107-145 | a cached resolution is returned with no request; otherwise an access token is fetched first, and the node is looked up only when that token is truthy; a successful lookup is cached, and a failed one returns `None` and caches nothing; the result, the cache and the state afterwards are those of `ResolveRun`, and the lookup reply is the next scripted reply |
| `LarkClient.ResolveCached` | src/lark/client.py:109-111 | once a wiki token is resolved, asking again returns the same object token with no request, whatever the state |
| `LarkClient.ResolveLooksUp` | src/lark/client.py:113-139 | an uncached wiki token, looked up while an access token may be served, is resolved from the first scripted reply: cached when the reply yields an object token, `None` otherwise |
| `LarkClient.CacheOnlyGrows` | src/lark/client.py:138-139 | caching a resolution keeps every earlier one |
| `LarkClient.ChunksCount` | src/lark/client.py:211 | there is one chunk per started group of 500 records |
| `LarkClient.ChunkBound` | src/lark/client.py:211 | the loop runs while `500 * k` is below the length |
| `LarkClient.ChunkAt` | src/lark/client.py:212 | chunk `k` is `records[500k : 500k + 500]` |
| `LarkClient.ChunksFlatten` | src/lark/client.py:211-212 | the chunks, concatenated, give back every record once and in order |
| `LarkClient.ChunkSizes` | src/lark/client.py:206-212 | every chunk holds between 1 and 500 records |
| `LarkClient.SixHundredRecords` | src/lark/client.py:206-212 | 600 records go out in two requests, of 500 and 100 |
| `LarkClient.IdsFromList` | src/lark/client.py:247 | the ids are read only when every item is a dict, and every id kept is truthy |
| `LarkClient.RecordIds` | src/lark/client.py:245-247 | every id read from a reply is truthy |
| `LarkClient.ChunkResult` | src/lark/client.py:214-251 | no token, an error status, a non-zero code or an exception adds one message; otherwise the chunk adds its truthy ids |
| `LarkClient.OutcomeSnoc` | src/lark/client.py:211-251 | one more chunk extends the ids, the messages and the sent chunks at their ends |
| `LarkClient.ErrorsOfEmpty` | src/lark/client.py:253 | no message is collected exactly when every chunk succeeded, and there is at most one message per chunk |
| `LarkClient.IdsOfTruthy` | src/lark/client.py:247-248 | every collected id is truthy |
| `LarkClient.AllSent` | src/lark/client.py:211-230 | when every chunk got a reply, every chunk was sent, in order |
| `LarkClient.RecordManager.constructor` | src/lark/client.py:151-160 | the manager uses the given token manager |
| `LarkClient.RecordManager.UploadChunk` | src/lark/client.py:215-230 | a token is fetched first; a create request carrying exactly the chunk, to the table `tableId` of the base `objToken`, is sent exactly when the token is truthy; the outcome is that request's reply, the next scripted one, as `ChunkRun` states |
| `LarkClient.ToTableRecords` | src/lark/client.py:226-230 | the `k`-th batch sent is the `k`-th create request, with its records unchanged and the base and table of the call |
| `LarkClient.RecordManager.CreateChunk` | src/lark/client.py:211-251 | one pass sends chunk `k` to `(objToken, tableId)` or not, adds its ids or its one message, and extends the outcomes as `RunChunks` does |
| `LarkClient.RecordManager.BatchCreateRecords` | src/lark/client.py:200-256 | empty input gives `(True, [], [])` with no request; otherwise one outcome per chunk, each decided by the token fetch and the server's reply as `RunChunks` states; the in-order ids and messages; success exactly when no message; and the create requests are the chunks that were sent, in order, each to the table `tableId` of the base `objToken` |
| `LarkClient.RunChunks` | src/lark/client.py:211-251 | one outcome per pass of the loop |
| `LarkClient.RunChunksCachedToken` | src/lark/client.py:211-235 | with a token that may be served throughout, chunk `k` is sent and answered by the `k`-th scripted reply: one create request per chunk and no token request |
| `LarkClient.SixHundredUploads` | src/lark/client.py:206-235 | 600 records with a servable token make exactly two create requests, of 500 and 100 records, answered by the first two replies |
| `SimpleClient.FormattedRecordsPass` | src/lark/client.py:458-484 | every record the formatter produces passes the client's record check |
| `SimpleClient.FirstFalse` | src/lark/client.py:423-425 | no position is reported exactly when all pass; otherwise the first failing position |
| `SimpleClient.Validity` | src/lark/client.py:423-424 | position by position, whether each record passes `_validate_record_format` |
| `SimpleClient.FirstInvalid` | src/lark/client.py:423-425 | no record is reported exactly when all pass; a reported record fails |
| `SimpleClient.FirstFalseAt` | src/lark/client.py:423-425 | the reported position is the first failing one when every earlier record passes |
| `SimpleClient.FormattedBatchUploads` | src/lark/client.py:423-425 | the formatter's output never stops the validation loop |
| `SimpleClient.LarkFieldsRenames` | src/lark/client.py:428-438 | each label holds the value of its field, unchanged, and there are no other keys |
| `SimpleClient.LarkRecords` | src/lark/client.py:428-438 | one renamed record per record |
| `SimpleClient.SimpleLarkClient.constructor` | src/lark/client.py:278-290 | the three managers share one token cache; nothing is set or cached |
| `SimpleClient.SimpleLarkClient.Create` | src/lark/client.py:262-276 | an empty app id or app secret raises `ValueError`, in that order; otherwise a client is built |
| `SimpleClient.SimpleLarkClient.GetObjTokenFor` | src/lark/client.py:294-307 | the four branches: an explicit wiki token is resolved through the table manager (the result, cache and state of `ResolveRun`); a stored object token is returned with no request; otherwise the stored wiki token is resolved the same way and a truthy answer stored; with neither, `None` and nothing changes |
| `SimpleClient.SimpleLarkClient.SetTableInfo` | src/lark/client.py:309-338 | empty arguments raise `ValueError` and change nothing; otherwise both are stored, the wiki token is resolved through the table manager as `ResolveRun` states, the object token is that answer, and the result is whether it is truthy |
| `SimpleClient.SimpleLarkClient.EnsureObjToken` | src/lark/client.py:415-417 | a stored object token is kept with no request; a missing one is resolved from the stored wiki token as `ResolveRun` states; without a wiki token it stays unresolved |
| `SimpleClient.SimpleLarkClient.TestConnection` | src/lark/client.py:340-393 | unset table info raises `ValueError`; otherwise the answer, object token, cache and state are those of `ConnectionRun`: an access token, then an object token, then the verdict on the field list reply |
| `SimpleClient.ConnectionDecidedByReply` | src/lark/client.py:370-389 | with a servable access token and an object token held, the answer is whether the first scripted reply is an accepted field list |
| `SimpleClient.ConnectionNeedsToken` | src/lark/client.py:357-360 | a refused token request makes the answer false, and no further request is sent |
| `SimpleClient.ConnectionTrueMeansReply` | src/lark/client.py:355-388 | a true answer means an access token was had, an object token is held, and the reply to the field list request was accepted with a measurable `items` |
| `SimpleClient.SimpleLarkClient.ValidateRecordFormat` | src/lark/client.py:458-484 | the two loops compute the record check: six keys present, four critical values not blank |
| `SimpleClient.SimpleLarkClient.FindInvalid` | src/lark/client.py:423-425 | the loop finds the first failing record |
| `SimpleClient.SimpleLarkClient.RenameRecords` | src/lark/client.py:428-438 | the loop computes the renamed records |
| `SimpleClient.SimpleLarkClient.UploadValid` | src/lark/client.py:440-456 | on valid records: the outcomes of the record manager on the renamed records, as `RunChunks` states, each sent chunk going to the stored object token and table; the ids exactly when no chunk failed; otherwise `LarkAPIError` with the doubly prefixed summary |
| `SimpleClient.SimpleLarkClient.BatchCreateRecords` | src/lark/client.py:395-456 | the ordered preconditions (table info, empty list, object token, first invalid record at its 1-based position) all come before any upload; a missing object token is resolved from the wiki token, leaving the object token, resolution cache and state `ResolveRun` states; then as `UploadValid` from that state, to the resolved object token and the stored table |
| `Validators.CaseNumberPatternMeaning` | src/utils/validators.py:149 | the pattern accepts exactly `TCG-` and three dot-separated groups of exactly three digits |
| `Validators.ValidateTestCaseNumber` | src/utils/validators.py:139-154 | a pass requires a non-empty string |
| `Validators.StrippedCaseNumber` | src/utils/validators.py:143-152 | with stripping, a string passes exactly when its stripped form is `TCG-XXX.YYY.ZZZ` |
| `Validators.UnstrippedCaseNumber` | src/utils/validators.py:149-152 | without stripping, a string passes exactly when it is `TCG-XXX.YYY.ZZZ`, optionally followed by one newline |
| `Validators.CaseNumberNeedsText` | src/utils/validators.py:139-140 | empty strings and non-strings fail |
| `Validators.LowerAll` | src/utils/validators.py:193 | every allowed value lower-cased, position by position |
| `Validators.PriorityNormalised` | src/utils/validators.py:192-194 | case and surrounding whitespace do not change the verdict |
| `Validators.ValidatePriorityValue` | src/utils/validators.py:183-196 | only a non-empty string can pass, and nothing passes an empty allowed list |
| `Validators.DefaultPriorityMeaning` | src/utils/validators.py:183-194 | with the default list, a string passes exactly when its stripped, lower-cased form is high, medium or low |
| `Validators.CheckFieldsMeaning` | src/utils/validators.py:231-244 | for a list of names, the loop passes exactly when every name is present and, unless empty values are allowed, neither `None` nor blank |
| `Validators.RequiredFieldsMeaning` | src/utils/validators.py:228-244 | the whole check on a dict and a list of names is that loop |
| `Validators.ExtraKeysIgnored` | src/utils/validators.py:231-244 | keys that are not asked for do not change the verdict |
| `Validators.AllowEmptyIsWeaker` | src/utils/validators.py:236-242 | whatever passes without empty values also passes with them allowed |
| `Validators.WithError` | src/utils/validators.py:45-47 | the field is present afterwards, and no other key is added |
| `Validators.WithErrorKeeps` | src/utils/validators.py:43-47 | earlier messages are kept, the new one comes last, and other fields are untouched |
| `Validators.ValidationResult.constructor` | src/utils/validators.py:37-41 | the result holds the given verdict and errors |
| `Validators.ValidationResult.AddError` | src/utils/validators.py:43-48 | the message is appended under the field, and the result is no longer valid |
| `Validators.NatRoundTrip` | src/utils/validators.py:435 | the digits `str(n)` writes read back as `n` |
| `Validators.ParseIntRoundTrip` | src/utils/validators.py:435 | `int(str(i)) == i` |
| `Validators.SplitAtFirstColon` | src/utils/validators.py:357-358 | a rule is split at its first colon, and the parameter keeps any later colons |
| `Validators.SplitNoColon` | src/utils/validators.py:359-360 | a rule without a colon is a name with no parameter |
| `Validators.RunRulesMeaning` | src/utils/validators.py:356-375 | `validate` is true exactly when every rule is known and passes |
| `Validators.UnknownRuleFails` | src/utils/validators.py:371-373 | an unknown rule name fails the value, whatever the other rules say |
| `Validators.BuiltinCorners` | src/utils/validators.py:416-450 | the `integer` rule rejects booleans; `min_length` and `max_length` with a parameter that is not a number fail |
| `Validators.BatchErrorsMeaning` | src/utils/validators.py:389-401 | a field has an error exactly when it is present and fails its rules, or is absent and `required`; the error is its one message, and no other key appears |
| `Validators.BatchValidIff` | src/utils/validators.py:389-401 | no error is recorded exactly when every entry passes |
| `Validators.FieldValidator.constructor` | src/utils/validators.py:320-333 | the table holds the built-in rules |
| `Validators.FieldValidator.AddRule` | src/utils/validators.py:335-343 | the name now dispatches to the given check, replacing any earlier rule |
| `Validators.FieldValidator.Validate` | src/utils/validators.py:345-375 | true exactly when every rule string passes under the current table |
| `Validators.FieldValidator.ValidateBatch` | src/utils/validators.py:377-401 | the loop builds the error table of the batch, or raises what a rule raised |
| `Config.Merge` | src/config/config_manager.py:226-236 | the keys of the result are the keys of both dicts |
| `Config.MergeEmpty` | src/config/config_manager.py:163-164 | merging in an empty dict gives the base back |
| `Config.MergeOverrideWins` | src/config/config_manager.py:230-234 | a non-dict value of the override is found at its path in the result, however deep |
| `Config.MergeKeepsBase` | src/config/config_manager.py:228-234 | a base value the override does not reach survives the merge |
| `Config.MergeSelf` | src/config/config_manager.py:226-236 | merging a dict into itself changes nothing |
| `Config.MergeOverrideTwice` | src/config/config_manager.py:226-236 | applying the same override twice is applying it once |
| `Config.PathOpenEmpty` | src/config/config_manager.py:220-222 | on an empty dict every path can be set, since missing steps are created |
| `Config.SetNestedMeaning` | src/config/config_manager.py:217-224 | the assignment succeeds exactly when every step is a dict or missing; then the value is at the path, and the other top-level keys keep their values |
| `Config.SetNestedFrame` | src/config/config_manager.py:217-224 | every path that leaves the assigned path keeps its value |
| `Config.PrefixGroup` | src/config/config_manager.py:76-80 | a match starts with the prefix, and its group is non-empty and holds no newline |
| `Config.FieldPathFromEnvKey` | src/config/config_manager.py:173-197 | a field path is never empty |
| `Config.LarkEnvKey` | src/config/config_manager.py:166-197 | `LARK_x` belongs to `lark` and maps to the path for `x.lower()` |
| `Config.ProcessingEnvKey` | src/config/config_manager.py:166-197 | `PROCESSING_x` belongs to `processing` and maps to the path for `x.lower()` |
| `Config.LoggingEnvKey` | src/config/config_manager.py:166-197 | `LOGGING_x` belongs to `logging` and maps to `[x.lower()]` |
| `Config.OtherEnvKey` | src/config/config_manager.py:166-171 | a name with none of the prefixes belongs to no section |
| `Config.NestedFieldPaths` | src/config/config_manager.py:184-192 | `rate_limit_x`, `field_mapping_x` and `batch_processing_x` map to two-step paths ending in `x` |
| `Config.ConvertEnvValue` | src/config/config_manager.py:199-215 | a dotted value that `float()` accepts gives the unmodelled float (`None`); otherwise the result is an integer, a boolean, or the value itself as a string |
| `Config.ConvertIntRoundTrip` | src/config/config_manager.py:202-206 | a written-out integer converts back to itself |
| `Config.ConvertWords` | src/config/config_manager.py:208-215 | when neither number conversion succeeds (also for a dotted value such as `logs/app.log`), `true` and `false`, in any case, become booleans and other words stay strings |
| `Config.MissingSections` | src/config/config_manager.py:251-254 | a missing section is reported first, `lark` before `processing` |
| `Config.MissingAppId` | src/config/config_manager.py:256-261 | a `lark` dict without `app_id` is reported as that missing field |
| `Config.ValidateConfig` | src/config/config_manager.py:238-269 | validation never answers false: it passes only for dict `lark` and `processing` sections, and otherwise raises |
| `Config.ValidateConfigMeaning` | src/config/config_manager.py:238-302 | for dict sections, validation passes exactly when app_id and app_secret are non-empty strings, a present rate_limit is either a dict whose max_requests (if present) is a positive integer or a string or list without max_requests, a truthy pattern is a string that compiles, and required_fields is a non-empty list |
| `Config.UnhashablePattern` | src/config/config_manager.py:292-295 | once the lark section passes, a non-empty list or dict pattern makes validation raise `TypeError("unhashable type: 'list'")` or `'dict'` |
| `Config.CredentialsSuffice` | src/config/config_manager.py:33-73 | the defaults with both credentials merged in validate |
| `Config.MergedLarkValid` | src/config/config_manager.py:35-48 | the default `lark` section with both credentials passes its checks |
| `Config.DefaultProcessingValid` | src/config/config_manager.py:49-60 | the default `processing` section passes its checks |
| `Config.Defaults` | src/config/config_manager.py:34-66 | the defaults have the sections lark, processing and logging, and no credentials |
| `Config.Loaded` | src/config/config_manager.py:84-124 | a load succeeds exactly when the root is a dict whose merge over the defaults validates, and then yields that merge; every failure is a `ConfigError` starting `設定載入失敗: ` |
| `Config.LoadedKeepsDefaults` | src/config/config_manager.py:107 | a loaded configuration holds every default the file does not reach |
| `Config.CredentialsLoad` | src/config/config_manager.py:84-124 | a file with just the two credentials loads |
| `Config.MaskHidesSecrets` | src/config/config_manager.py:385-401 | after masking, no sensitive key reached through dicts under keys that are not sensitive, and through lists, holds a non-empty string other than `***` |
| `Config.MaskKeepsKeys` | src/config/config_manager.py:389-396 | masking keeps the top-level keys |
| `Config.MaskAlong` | src/config/config_manager.py:389-399 | along a path that passes no sensitive key, the value masking leaves is the masked value at that path |
| `Config.MaskAtKey` | src/config/config_manager.py:390-394 | at every key the search reaches: a sensitive key with a non-empty string now holds `***`; a sensitive key with any other value keeps it unchanged; any other key holds its masked value |
| `Config.MaskKeepsLeaf` | src/config/config_manager.py:389-399 | a value that is neither a dict nor a list, reached through keys that are not sensitive, is left unchanged |
| `Config.MaskKeepsShape` | src/config/config_manager.py:389-399 | exactly the same paths of dict keys and list indices succeed before and after masking, at every depth |
| `Config.MaskSkipsUnderSensitiveKey` | src/config/config_manager.py:391-393 | a dict held by a sensitive key is not searched: a password inside it is left visible |
| `Config.MaskIdempotent` | src/config/config_manager.py:385-401 | masking twice is masking once |
| `Config.ConfigManager.constructor` | src/config/config_manager.py:30-31 | nothing is loaded or backed up |
| `Config.ConfigManager.LoadConfig` | src/config/config_manager.py:102-124 | a successful load stores the configuration; a failed one changes nothing |
| `Config.ConfigManager.GetSection` | src/config/config_manager.py:304-347 | before a load, `ConfigError`; after, the section, or `{}` when absent |
| `Config.ConfigManager.BackupConfig` | src/config/config_manager.py:349-360 | before a load, `ConfigError` and nothing changes; after, the current configuration is kept aside and returned |
| `Config.ConfigManager.RestoreConfig` | src/config/config_manager.py:362-370 | the given configuration becomes the current one, and the backup is kept |
| `Config.ConfigManager.SafeConfig` | src/config/config_manager.py:372-383 | nothing before a load; afterwards the masked configuration, with the same keys and no exposed secret where the search looks |
| `Config.BackupRestore` | src/config/config_manager.py:349-370 | a backup taken before a change is what a restore puts back |

## Left out

- **XML file reading.** Reading and parsing XML files (`parse_xml_file`) is left out: the model starts from an element tree.
- **Network, JSON and logging.** HTTP requests, JSON decoding and logging are left out. Replies are abstract values served by the scripted `Transport`.
- **Concurrency.** Thread locks are left out, because the model is sequential.
- **Clock.** `datetime.now()` is the parameter `now`, in whole seconds since the start of year 1, fixed within one call. Its microseconds are not modelled; they do not change whether an expiry is within the range of `datetime`.
- **YAML and the environment.**
  - Configuration file reading and YAML parsing are left out; `Config.Loaded` starts from the parsed root value.
  - Iterating `os.environ` is left out: loading assumes an empty environment.
  - `Config.ConvertEnvValue`: whether `float()` accepts a dotted value is the parameter `isFloat`; the float it returns is not modelled (the result is `None`), because there are no floats in the model.
- **Default `retry_delay`.** `Config.Defaults` omits `retry_delay: 1.0` for the same reason.
- **Regular expressions.** The general engine is left out:
  - the email and URL rules, and a caller-supplied `pattern=`;
  - `Config.ValidateConfig`: whether `re.compile` accepts a string pattern is the parameter `compiles`. Other truthy patterns are modelled: a list or dict raises `unhashable type`, anything else `first argument must be string or compiled pattern`;
  - `Validators.ApplyRule`: the email, url, min and max rules are decided by the `oracle` parameter, because they rest on regular expressions or `float()`.
- **Unicode.** `\d` is modelled as ASCII digits and `lower()` as ASCII lower-casing. Python accepts every Unicode digit and case.
- **`int()` corner cases.** `Validators.ParseInt` does not accept `int()`'s underscores or non-ASCII digits.
- **`str()` and `repr()`.**
  - `Values.Str`: `str()` of a non-empty dict is the placeholder `{...}`, because dict order is not modelled.
  - `Values.Repr`: `repr()` string escapes are not modelled.
  - `Formatter.ErrorMessage` therefore states only the prefix of its message.
- **`SimpleClient.SimpleLarkClient.TestConnection`.** It does not model the logging of the field count.
- **Unused code paths.**
  - `_make_request` is never called by the modelled code.
  - `get_parser_stats` and `get_cleaner_stats` are left out.
  - The global `validate_field`, `validate_data` and `add_validation_rule` wrappers only delegate to one module-level `FieldValidator`.
  - The rate limiter some tests mention does not exist in the client.
- `Validators.ApplyRule`: rules added with `add_rule` are one-argument checks. Calling one with a parameter raises `TypeError` as in Python, but its message is only the ending `() takes 1 positional argument but 2 were given`, without the callable's name in front. A custom rule that accepts a second argument is not modelled.
- **Message wording.** The `TypeError` messages follow Python 3.11 and later. This covers the built-in rules called with the wrong arguments, which have `FieldValidator.` in front of the method name, and the configuration checks: subscripting a string with a string gives `string indices must be integers, not 'str'`, where Python 3.10 leaves out `, not 'str'`.
- `Validators.ValidatePriorityValue`: allowed values are typed as strings, so a non-string entry, whose `.lower()` raises an `AttributeError` that the function catches and answers `False` for, is not modelled.
- **`Config.SetNested`.** Its `TypeError` message is the one for a string step; Python's message depends on the step's type.
- **In-place updates.** `_set_nested_value`, `_mask_sensitive_data`, `deepcopy` and the dict updates in `validate_batch` are modelled on values. A failed nested assignment leaves no partly built dicts, and aliasing between the caller's dict and the stored one is not modelled.
- **`Config.ConfigManager.SafeConfig`.** It returns the masked configuration; the `ConfigManager(...)` text that `__str__` renders from it is not modelled.
- **Masking depth.** As written, `_mask_sensitive_data` does not search a dict held by a sensitive key; `Config.MaskHidesSecrets` and `Config.NoSecrets` therefore speak only of the places the search reaches, and `Config.MaskSkipsUnderSensitiveKey` shows a password the search leaves visible.
