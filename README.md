# RAG chatbot core, modelled in Dafny

This project models the stateful and parsing core of a retrieval-augmented chatbot service. The service has
three parts: a FastAPI back end, an embeddable browser widget and a Next.js admin front end.

The model covers the following:

- **Embed endpoints** (`backend/app/api/embed_ingest.py`):
  - the embed-key to tenant lookup and the `Origin` allow-check;
  - the upload size and extension gate;
  - whitespace normalisation and tag stripping;
  - in `docs_ask`, the per-(ip, key, route) 60-second request counter and the per-day cost ledger with its
    pre-generation and post-generation gates;
  - citation de-duplication and the server-sent-events (SSE) framing of the answer.

  The two module-level dictionaries `_rpm` and `_cost` are the fields of the class `EmbedAsk.AskLimits`.
  The clock, the day string and the generated answer are parameters.
- **Widget** (`frontend/public/embed.js`):
  - `escapeHtml` and the `getErrorMessage` status table;
  - the send-button trim guard, modelled as the class `Widget.Composer`;
  - the streaming reader in `ask`, modelled as a method over the sequence of chunks the stream delivers.

  The reader splits on `"\n\n"`, parses `event:`/`data:` lines and keeps the unfinished tail in `buf`.
  It is proved to be the inverse of the server framing.
- **Settings parsers** (`backend/app/core/config.py`):
  - the tenant-key map, the allowed-origin list and the model-pricing map with its `in=`/`out=` parser;
  - the comma-list properties, the Redis URL and the production checks of `model_post_init`.
- **Report aggregation** (`backend/app/api/reports.py`):
  - the request gate and the inclusive date range;
  - the per-day summation over an abstract key/value store (strings, HyperLogLog counts and hashes);
  - the two rates and the top-5 merge.
- **Document inventory** (`backend/app/core/services/rag_engine.py`):
  - `RAGEngine` is the class `RagEngine.Engine`, whose `store` field stands in for the Chroma collection as
    a sequence of (content, metadata) records;
  - chunk metadata, `k` selection, the empty-retrieval short-circuit and context joining;
  - the document list's grouping and counting, delete accounting and reset.
- **Request and response schemas**:
  - `backend/app/models/schemas.py` and `backend/app/domains/pdf/schemas.py` declare the same
    `QuestionRequest` and response models, so they are modelled once;
  - Pydantic's required/optional fields become Result-returning constructors.
- **Front-end helpers**:
  - URL joining (`frontend/src/lib/api.ts`);
  - the NextAuth `signIn`/`authorized`/`jwt`/`session` callbacks (`frontend/src/auth.ts`); `jwt` and
    `session` assign `role` in place on `Auth.Token` and `Auth.SessionUser` objects;
  - the report e-mail serialiser (`frontend/src/lib/buildClientReportEmail.ts`).

Helper modules:

- `Wrappers` holds `Option` and `Result`.
- `Text` models whitespace, trimming, split, join and search, for both Python's `str.isspace` set and
  JavaScript's `trim` set.
- `Numbers` models Python `int()`/`float()` on strings and integer rendering.
- `OrderedMaps` models an insertion-ordered dictionary as a sequence of pairs.
- `Metadata` models Chroma metadata scalars, Python truthiness, `int()` and `str()`.

Points where the code behaves differently from what one might expect:

- The cost ledger is keyed by the UTC+9 day alone, so all tenants share one budget.
- The pre-check estimates `max(1, len(question)//4) + 1024` tokens at 0.002 JPY per token.
- Retrieval applies no similarity threshold and no tenant filter.
- The stream sends no heartbeat or keep-alive records.
- `total_tokens` in the report is the last day's value, not a sum. `Reports.TotalsSplit` states exactly this.
- `ADMIN_EMAILS=""` admits only a user without an e-mail address (`Auth.EmptyAdminList`).

## Model

| member | source | states |
|---|---|---|
| EmbedIngest.FirstTenant | backend/app/api/embed_ingest.py:47-50 | the result is None iff no configured key equals the given key; otherwise it is the tenant of the first pair, in map order, whose key matches |
| EmbedIngest.TenantFromKey | backend/app/api/embed_ingest.py:44-46 | an absent or empty key never identifies a tenant |
| EmbedIngest.ConfiguredKeyIdentifiesTenant | backend/app/api/embed_ingest.py:44-50 | for the map parsed from EMBED_API_KEYS, looking up any tenant's key yields a tenant with that same key |
| EmbedIngest.KeyIdentifiesTenant | backend/app/api/embed_ingest.py:44-50 | the same for any map with distinct tenant names and a non-empty key |
| EmbedIngest.OriginAllowed | backend/app/api/embed_ingest.py:89-95 | the check fails exactly when reading the allowed-origin list raises |
| EmbedIngest.ProductionOriginCheck | backend/app/api/embed_ingest.py:89-95 | in production the check accepts exactly an absent or empty origin or a member of the configured list |
| EmbedIngest.AfterLast | backend/app/api/embed_ingest.py:114 | the result is the suffix of the name after the last separator; it holds no separator and is the whole name when there is none |
| EmbedIngest.Extension | backend/app/api/embed_ingest.py:113-114 | an extension never contains '.' |
| EmbedIngest.ExtensionOf | backend/app/api/embed_ingest.py:113-114 | the extension of base + "." + ext is lower(ext) whenever ext has no '.' |
| EmbedIngest.AfterLastSplit | backend/app/api/embed_ingest.py:114 | after the last occurrence of a separator comes exactly the separator-free tail |
| EmbedIngest.MaxBytes | backend/app/api/embed_ingest.py:116-126 | the size cap is 2 MiB or 10 MiB |
| EmbedIngest.UploadGateOutcomes | backend/app/api/embed_ingest.py:113-156 | 413 iff size exceeds the extension's cap; 400 iff within the cap and the extension is unsupported; unknown extensions over 2 MiB get 413 before 400; an accepted upload is at most 10 MiB and its source type is the extension's |
| EmbedIngest.UploadNeedsTenant | backend/app/api/embed_ingest.py:109-111 | an upload without a valid key is refused with 401 whatever the file |
| EmbedIngest.SourceOf | backend/app/api/embed_ingest.py:298 | the citation source is always truthy, because the fallback chain of source, filename and url ends in "unknown" |
| EmbedIngest.LabelOf | backend/app/api/embed_ingest.py:309-319 | fails (TypeError) iff a truthy title is not a string or the source is not a string; otherwise the label is the parts of LabelParts joined by " - ", starting with the title when there is one, else the source |
| EmbedIngest.LabelParts | backend/app/api/embed_ingest.py:309-316 | the parts are the truthy title, the source, then "p.N" exactly when a page number is present, in that order and none empty |
| EmbedIngest.LabelSplits | backend/app/api/embed_ingest.py:309-319 | when title and source hold no "-" and the page is not negative, splitting the label on " - " gives its parts back in order |
| EmbedIngest.CitationFor | backend/app/api/embed_ingest.py:298-330 | a built citation has a non-null source and carries the (source, page, file_id) key of its metadata |
| EmbedIngest.BuildCitations | backend/app/api/embed_ingest.py:294-330 | the loop with its seen-set returns the de-duplicated citation list specified by Citations |
| EmbedIngest.CitationsSnoc | backend/app/api/embed_ingest.py:304-330 | one loop step skips a key already seen and otherwise appends that document's citation |
| EmbedIngest.CitationsErrorSticks | backend/app/api/embed_ingest.py:294-330 | once a citation cannot be built the whole loop fails the same way |
| EmbedIngest.FirstIndices | backend/app/api/embed_ingest.py:305-307 | lists, ascending, exactly the positions whose key occurs there first |
| EmbedIngest.CitationsAreFirstOccurrences | backend/app/api/embed_ingest.py:294-330 | the citation list is one citation per first occurrence of a key, in first-occurrence order |
| EmbedIngest.CitationsDistinctAndComplete | backend/app/api/embed_ingest.py:294-330 | citation keys are pairwise distinct and every retrieved document's key has a citation |
| EmbedIngest.SplitLines | backend/app/api/embed_ingest.py:363 | every line produced by splitlines is free of line breaks |
| EmbedIngest.SplitLinesUnlines | backend/app/api/embed_ingest.py:363 | splitting the newline-terminated join of break-free lines returns those lines |
| EmbedIngest.SseChunks | backend/app/api/embed_ingest.py:362-373 | one "data: line" record per answer line in order, then the "event: citations" line, then one data record with the payload |
| EmbedIngest.Gen | backend/app/api/embed_ingest.py:362-373 | the generator loop yields exactly SseChunks |
| EmbedText.UnifyNewlinesKeepsText | backend/app/api/embed_ingest.py:54 | only line breaks change: with "\r" and "\n" removed, input and output are the same text |
| EmbedText.CapBlankLinesKeepsText | backend/app/api/embed_ingest.py:55 | only newlines change: with "\n" removed, input and output are the same text |
| EmbedText.CollapseSpace | backend/app/api/embed_ingest.py:56 | no two adjacent whitespace characters remain, and only single spaces remain; emptiness and whether the first and last characters are whitespace are preserved |
| EmbedText.CollapseSpaceKeepsText | backend/app/api/embed_ingest.py:56 | only whitespace changes: with whitespace removed, input and output are the same text |
| EmbedText.NormalizeKeepsText | backend/app/api/embed_ingest.py:53-57 | the non-whitespace characters of the normalised text are exactly those of the input, in order |
| EmbedText.NormalizeShape | backend/app/api/embed_ingest.py:53-57 | normalised text has no line breaks, no adjacent whitespace and no leading or trailing whitespace |
| EmbedText.NormalizeFixes | backend/app/api/embed_ingest.py:53-57 | normalising already-normalised text changes nothing |
| EmbedText.NormalizeIdempotent | backend/app/api/embed_ingest.py:53-57 | normalising twice equals normalising once |
| EmbedText.StripTags | backend/app/api/embed_ingest.py:60-73 | tag-stripped text satisfies the same normal-form invariants |
| EmbedAsk.Counted | backend/app/api/embed_ingest.py:258-262 | the counter restarts at (1, now) when absent or when 60 s have passed since the window start; otherwise the count grows by one and the start is kept |
| EmbedAsk.WindowCount | backend/app/api/embed_ingest.py:258-262 | n requests inside one fresh window leave the counter at (n, first request time) |
| EmbedAsk.WindowAdmission | backend/app/api/embed_ingest.py:258-264 | within one window the n-th request passes iff n <= max(1, rate_limit_rpm); rejected attempts still count |
| EmbedAsk.PreTokens | backend/app/api/embed_ingest.py:270 | the pre-estimate always includes the 1024-token response reserve plus at least one token |
| EmbedAsk.CommitTokens | backend/app/api/embed_ingest.py:334 | the committed token count is at least 1 |
| EmbedAsk.PreCheckCoversCommit | backend/app/api/embed_ingest.py:266-341 | for answers up to 4092 characters, passing the pre-check implies the commit cannot exceed the budget |
| EmbedAsk.ShownCitations | backend/app/api/embed_ingest.py:366-383 | an empty citation list is shown as the single "引用なし" entry; otherwise the citations are shown unchanged, in order |
| EmbedAsk.ServeCharges | backend/app/api/embed_ingest.py:332-386 | a refused commit leaves the ledger unchanged; an answered request charges tokens times 0.002 to that day only, returns the de-duplicated citations and streams iff the Accept header asks for event-stream |
| EmbedAsk.ServeOutcome | backend/app/api/embed_ingest.py:266-386 | 402 iff the estimate or, once citations are built, the actual charge would exceed a positive budget; 500 iff the estimate passes and a label cannot be built; every refusal leaves the ledger as it was; otherwise the shaped answer with the charge added to the day |
| EmbedAsk.ServeKeepsLedger | backend/app/api/embed_ingest.py:332-341 | with a positive budget, no day's ledger entry ever exceeds the budget |
| EmbedAsk.RefusalIsFree | backend/app/api/embed_ingest.py:245-276 | a refused request never touches the cost ledger; a refusal before the rate gate (401 unknown key, 500 misconfigured origins, 403 foreign origin) also leaves the rate table unchanged; otherwise exactly the request's counter is advanced |
| EmbedAsk.AskOutcome | backend/app/api/embed_ingest.py:238-386 | an early refusal is 401, 403 or 500 and is returned as is; 429 iff there is none and the rate gate refuses; otherwise the response and ledger are those of Serve |
| EmbedAsk.AskKeepsLedger | backend/app/api/embed_ingest.py:245-341 | the whole ask handler preserves the budget invariant of the ledger |
| EmbedAsk.AskLimits.constructor | backend/app/api/embed_ingest.py:83-84 | both tables start empty |
| EmbedAsk.AskLimits.RateGate | backend/app/api/embed_ingest.py:255-264 | the counter is stored before the check; the request is admitted iff the new count is at most max(1, limit); the ledger is untouched |
| EmbedAsk.AskLimits.PreCheck | backend/app/api/embed_ingest.py:266-276 | passes iff the budget is 0 or less, or the day's total plus the estimate (a quarter of the question, at least 1, plus 1024 tokens, at 0.002 per token) stays within it |
| EmbedAsk.AskLimits.Commit | backend/app/api/embed_ingest.py:332-341 | 402 with the ledger unchanged when over a positive budget; otherwise only that day's entry grows, by exactly tokens times 0.002; the budget invariant is preserved |
| EmbedAsk.AskLimits.ServeRequest | backend/app/api/embed_ingest.py:287-386 | the response and new ledger are those of Serve, whose outcome in every case ServeOutcome states; the rate table is untouched |
| EmbedAsk.AskLimits.Ask | backend/app/api/embed_ingest.py:238-386 | the response and both new tables are those of AskSpec, whose outcome in every case AskOutcome and RefusalIsFree state |
| Widget.ReplaceAll | frontend/public/embed.js:655-659 | a global replace whose replacement lacks the character leaves no occurrence of it |
| Widget.EscapeHtmlIsCharMap | frontend/public/embed.js:653-660 | the five chained replaces equal escaping each character independently |
| Widget.EscapeCharsSafe | frontend/public/embed.js:653-660 | escaped text has no raw < > " ' and every & starts one of the five entities |
| Widget.UnescapeEscapeChars | frontend/public/embed.js:653-660 | decoding the five entities recovers the input |
| Widget.EscapeHtmlSafe | frontend/public/embed.js:653-660 | escapeHtml output is markup-safe and decodes to the input; null or undefined decodes to "" |
| Widget.GetErrorMessage | frontend/public/embed.js:783-844 | retry is offered iff the status is not 401, 402 or 403; warning iff 429 or 402; any unlisted status gives "エラー" with non-empty details |
| Widget.ErrorDetails | frontend/public/embed.js:826-835 | a non-empty detail is shown as is; else a non-empty message; else, and without a body, the generic text; details are never empty |
| Widget.Composer.Send | frontend/public/embed.js:1084-1089 | a blank trimmed value changes nothing, not even the textarea; otherwise the textarea is cleared and the trimmed question is asked |
| Widget.AskedIsTrimmed | frontend/public/embed.js:1085-1086 | the asked text is empty iff the input is all whitespace, and otherwise has no leading or trailing whitespace |
| WidgetStream.Pending | frontend/public/embed.js:1003-1005 | the buffer left after a read never contains a complete record separator |
| WidgetStream.ParseRecord | frontend/public/embed.js:1007-1015 | the line loop yields the trimmed name of the last event: line and the left-trimmed data: payloads in order |
| WidgetStream.LinesSnoc | frontend/public/embed.js:1009-1014 | each line updates the event name or appends one data payload, and other lines are ignored |
| WidgetStream.RecordText | frontend/public/embed.js:1015-1021 | a record appends nothing or text ending in "\n" |
| WidgetStream.HandleRecords | frontend/public/embed.js:1006-1022 | processing a batch of records appends exactly their texts in order |
| WidgetStream.ConsumeStream | frontend/public/embed.js:992-1023 | after all reads, aiText is the text of every complete record of the concatenated stream and buf is the unfinished tail; the first-byte flag is set iff anything was read |
| WidgetStream.ReadStep | frontend/public/embed.js:1003-1005 | one read processes exactly the complete records formed by the old buffer plus the new chunk; the result therefore does not depend on how the stream is split into reads |
| WidgetStream.PendingNotShown | frontend/public/embed.js:992-1005 | text left in buf when the stream ends is discarded, not shown |
| WidgetStream.SseRecords | backend/app/api/embed_ingest.py:362-373 | the server stream splits into one data record per answer line followed by the citations record, with nothing pending |
| WidgetStream.StreamRoundTrip | frontend/public/embed.js:992-1021 | reading the server's stream shows each answer line left-trimmed with "\n" (empty lines vanish) and never the citations |
| ApiPaths.DropTrailingSlash | frontend/src/lib/api.ts:5 | at most one trailing '/' is removed, and one is removed whenever present |
| ApiPaths.DropLeadingSlash | frontend/src/lib/api.ts:6 | at most one leading '/' is removed from a part, and one is removed whenever present |
| ApiPaths.DropLeadingSlashes | frontend/src/lib/api.ts:6 | parts are cleaned one by one, order and number kept |
| ApiPaths.CleanJoin | frontend/src/lib/api.ts:4-8 | for clean inputs the result is base, "/", p1, "/", ... |
| ApiPaths.JoinPathSplit | frontend/src/lib/api.ts:4-8 | splitting the result on '/' recovers the cleaned pieces in order, one separator between consecutive pieces |
| ApiPaths.ApiUrlShape | frontend/src/lib/api.ts:3-13 | the URL is cleaned apiUrl + "/" + cleaned base path + "/" + cleaned path |
| Auth.AllowedEmails | frontend/src/auth.ts:17-18 | unset ADMIN_EMAILS gives no entries; otherwise the trimmed comma items, at least one |
| Auth.SignIn | frontend/src/auth.ts:16-31 | false when ADMIN_EMAILS is unset; otherwise true iff the email (or "") equals a trimmed entry |
| Auth.EmptyAdminList | frontend/src/auth.ts:18-25 | ADMIN_EMAILS = "" admits exactly a user without an e-mail |
| Auth.PaddedEntryAdmits | frontend/src/auth.ts:17-30 | an entry surrounded by whitespace still admits its trimmed address |
| Auth.Authorized | frontend/src/auth.ts:32-45 | access is granted iff the user is logged in or the path is not protected |
| Auth.GuardedPages | frontend/src/auth.ts:34-41 | "/", "/embed-admin..." and "/chat-test..." need a login; "/login" does not |
| Auth.Token.constructor | frontend/src/auth.ts:46 | a token starts with the user's e-mail and no role |
| Auth.SessionUser.constructor | frontend/src/auth.ts:52 | a session user starts with its e-mail and no role |
| Auth.Session.constructor | frontend/src/auth.ts:52 | a session holds the given user object |
| Auth.Jwt | frontend/src/auth.ts:46-51 | the same token is returned; role becomes "admin" iff a user signed in, otherwise it is unchanged |
| Auth.SessionCallback | frontend/src/auth.ts:52-57 | when session.user exists, its role becomes the token's role and nothing else changes |
| Auth.SignInThenSession | frontend/src/auth.ts:46-57 | after sign-in the session user carries role "admin" |
| ReportEmail.Round | frontend/src/lib/buildClientReportEmail.ts:15 | the rounded value is within half a unit of its argument |
| ReportEmail.PctOfUnitRate | frontend/src/lib/buildClientReportEmail.ts:14-15 | a rate in [0, 1] renders as a whole percentage between 0 and 100, written without a sign, followed by "%" |
| ReportEmail.PctOfReportRate | frontend/src/lib/buildClientReportEmail.ts:14-15 | for a report rate, "-" iff both counters are 0, otherwise a percentage between 0 and 100 |
| ReportEmail.Take | frontend/src/lib/buildClientReportEmail.ts:18 | the first min(n, length) docs, in order |
| ReportEmail.DocsHtmlSpec | frontend/src/lib/buildClientReportEmail.ts:16-20 | an empty or missing list renders the single "該当なし" item; otherwise the items of the first five docs in order |
| ReportEmail.HeaderMentions | frontend/src/lib/buildClientReportEmail.ts:24-26 | the header contains period.from, period.to and the tenant |
| ReportEmail.EmailHasHeader | frontend/src/lib/buildClientReportEmail.ts:21-26 | the e-mail contains the header |
| ReportEmail.EmailHasDocs | frontend/src/lib/buildClientReportEmail.ts:55-56 | the e-mail contains the top-docs list |
| Config.StrippedItems | backend/app/core/config.py:188 | the kept items are no more than the parts, and each is trimmed and non-empty |
| Config.CommaItems | backend/app/core/config.py:185-193 | comma items are trimmed and never empty |
| Config.CommaItemsOfJoin | backend/app/core/config.py:188 | splitting the comma-join of clean comma-free items returns them |
| Config.AllowedHostsList | backend/app/core/config.py:185-188 | hosts are trimmed and never empty |
| Config.AllowedExtensionsList | backend/app/core/config.py:190-193 | extensions are trimmed and never empty |
| Config.DictFrom | backend/app/core/config.py:103-182 | filling a dict in a loop leaves distinct keys |
| Config.DictFromHasName | backend/app/core/config.py:103-109 | a name is in the dict iff some item yields an entry for it |
| Config.DictFromLastWins | backend/app/core/config.py:109 | a repeated name maps to the value of its last occurrence |
| Config.KeyEntry | backend/app/core/config.py:103-109 | an item yields an entry iff it holds a ':' and both sides of its first ':' are non-empty after stripping; the entry is those two stripped sides |
| Config.KeyEntryOf | backend/app/core/config.py:103-109 | "tenant:key" with no ':' in the tenant gives the stripped pair when both sides are non-empty after stripping, and nothing otherwise |
| Config.ApiKeys | backend/app/core/config.py:97-110 | the key map has distinct tenant names |
| Config.EmbedApiKeysMap | backend/app/core/config.py:97-110 | the loop builds exactly ApiKeys |
| Config.ApiKeysClean | backend/app/core/config.py:103-109 | every tenant and key in the map is trimmed and non-empty, and a tenant has no ':' |
| Config.ApiKeysConfigured | backend/app/core/config.py:98-110 | a configured "tenant:key" item with both sides non-empty maps the stripped tenant to the stripped key, unless a later item names the same tenant |
| Config.AllowedOrigins | backend/app/core/config.py:112-123 | debug never fails; a result is non-empty and clean; in production it succeeds iff the env value (or else the field) has items and no "*" |
| Config.ProductionOrigins | backend/app/core/config.py:114-123 | in production a comma-joined clean list without "*" is returned as is |
| Config.ProductionItems | backend/app/core/config.py:114-123 | a non-empty env value overrides the field |
| Config.InoutSides | backend/app/core/config.py:144-178 | a tagged spec yields nothing iff neither side parses; a missing side copies the other and both are divided by 1,000,000; a non-empty plain spec yields a price iff the text after its first "=" parses as a float, the same for both sides and unscaled |
| Config.InoutStripped | backend/app/core/config.py:144-146 | a spec prices the same before and after stripping |
| Config.ParseInout | backend/app/core/config.py:144-178 | the method equals the Inout specification |
| Config.CopyMissingSide | backend/app/core/config.py:164-170 | the side-completion step equals Sides |
| Config.ScanTags | backend/app/core/config.py:151-162 | the part loop keeps the last parsable in= and out= values |
| Config.PricingEntry | backend/app/core/config.py:137-182 | a stripped item yields an entry iff it holds a ':', the stripped name before it is non-empty and the spec after it parses; the entry is that name and Inout of the spec |
| Config.PricingEntryOf | backend/app/core/config.py:137-182 | "name:spec" with no ':' in the name gives the stripped name and Inout(spec) when the name is non-empty and the spec parses, and nothing otherwise |
| Config.Pricing | backend/app/core/config.py:125-183 | the pricing map has distinct names |
| Config.PricingConfigured | backend/app/core/config.py:126-183 | a configured "name:spec" item whose name is non-empty and whose spec parses maps the stripped name to that price, unless a later item names the same model |
| Config.PricingItem | backend/app/core/config.py:138-182 | one loop body equals PricingEntry |
| Config.ModelPricingInoutMap | backend/app/core/config.py:125-183 | the method builds exactly Pricing |
| Config.PricingOfItems | backend/app/core/config.py:137-182 | the item loop builds the ordered dict of entries |
| Config.RedisConnectionUrl | backend/app/core/config.py:195-205 | redis_url wins when set; with neither set, the password-less default |
| Config.RedisPasswordRoundTrip | backend/app/core/config.py:201-205 | without redis_url, the password read back from the built URL is redis_password when set and none otherwise |
| Config.ModelPostInit | backend/app/core/config.py:207-222 | succeeds iff debug, or the OpenAI key is set, the admin secret is set with at least 32 characters and the origins field is set |
| Dates.Next | backend/app/api/reports.py:17 | the following date is valid and one day later by ordinal; only the maximum date has none |
| Dates.DaysAreConsecutive | backend/app/api/reports.py:13-17 | the range has end - start + 1 dates (none if end < start), each valid and consecutive from start |
| Dates.DateRange | backend/app/api/reports.py:13-17 | the while loop yields exactly Days; it reports overflow iff the range ends at the maximum date |
| Dates.ParseDate | backend/app/api/reports.py:32-33 | a parsed date is valid |
| Dates.ParseFormat | backend/app/api/reports.py:32-65 | parsing the YYYY-MM-DD rendering of a valid date returns it |
| Dates.BeforeIsOrdinalOrder | backend/app/api/reports.py:15-36 | date comparison agrees with day-number order |
| Reports.IntOrZero | backend/app/api/reports.py:66-78 | missing or empty values count as 0; non-integers fail with 500 |
| Reports.FloatOrZero | backend/app/api/reports.py:68-69 | missing or empty values count as 0.0; non-numbers fail with 500 |
| Reports.ParseTop | backend/app/api/reports.py:76-78 | parsed counts keep the hash's ids in order; a bad count fails with 500 |
| Reports.ReadDay | backend/app/api/reports.py:65-78 | a day read fails only with 500 |
| Reports.MissingDayIsZero | backend/app/api/reports.py:66-78 | a day with no keys in the store contributes zeros |
| Reports.MergeCounts | backend/app/api/reports.py:76-78 | the merged counts keep distinct ids |
| Reports.MergeCountsValue | backend/app/api/reports.py:77-78 | each id's merged count is its old count plus the sum of its entries; an id is present iff it was before or is listed |
| Reports.MergeInto | backend/app/api/reports.py:77-78 | the merge loop equals MergeCounts |
| Reports.TotalsOf | backend/app/api/reports.py:63-78 | totals fail iff some day fails, with that day's error |
| Reports.TotalsSplit | backend/app/api/reports.py:63-78 | all counters and the cost add up across consecutive periods, while tokens are the later period's value |
| Reports.TotalsOfOneDay | backend/app/api/reports.py:63-78 | one day's totals are that day's values |
| Reports.FailedRead | backend/app/api/reports.py:63-78 | a failed day read makes the summary fail with 500 |
| Reports.Rate | backend/app/api/reports.py:80-85 | the rate is None iff the denominator is 0 or less, otherwise part / (part + other) |
| Reports.RateInUnitInterval | backend/app/api/reports.py:80-85 | for counts that are 0 or more, None iff both are 0, otherwise a rate in [0, 1] |
| Reports.InsertSorted | backend/app/api/reports.py:87-91 | inserting keeps the list sorted by count descending and adds exactly the item |
| Reports.InsertStable | backend/app/api/reports.py:87-91 | items of equal count keep their relative order |
| Reports.SortDescSpec | backend/app/api/reports.py:87-91 | the sort is sorted descending, a permutation, and stable for each count |
| Reports.TopDocsSpec | backend/app/api/reports.py:87-91 | top docs are the first min(5, n) of the stable descending sort, with no dropped doc counting more than a kept one |
| Reports.GateOutcomes | backend/app/api/reports.py:25-37 | 401 iff the secret header differs from the configured secret (always when none is configured); then 400 for unknown tenant, bad date or end before start; otherwise the parsed dates |
| Reports.SummaryWithoutStore | backend/app/api/reports.py:39-51 | with no store the report is all zeros with None rates and no top docs, echoing the period and tenant |
| Reports.FromStoreTotals | backend/app/api/reports.py:53-103 | the report is built from the totals of the end - start + 1 day reads |
| Reports.ReadDayAt | backend/app/api/reports.py:65-78 | one loop iteration reads that day |
| Reports.AddDayTo | backend/app/api/reports.py:66-78 | one loop iteration adds that day to the accumulators |
| Reports.Aggregate | backend/app/api/reports.py:53-78 | the per-day loop yields the totals of all day reads |
| Reports.Summarize | backend/app/api/reports.py:20-103 | the handler returns the Summary specification |
| RagEngine.ChunkMetas | backend/app/core/services/rag_engine.py:129-139 | one metadata per chunk, with chunk_index = position and shared filename, file_id and upload_time |
| RagEngine.Records | backend/app/core/services/rag_engine.py:131-148 | the stored records pair each chunk with its metadata, in order |
| RagEngine.FormatDocumentsRoundTrip | backend/app/core/services/rag_engine.py:287-295 | splitting the context on "\n\n" recovers the document contents in order |
| RagEngine.AddMeta | backend/app/core/services/rag_engine.py:339-359 | one metadata opens or bumps exactly its filename's group; empty metadata changes nothing |
| RagEngine.GroupHasKey | backend/app/core/services/rag_engine.py:339-359 | a group exists iff some non-empty metadata has that filename (default "unknown") |
| RagEngine.GroupFirst | backend/app/core/services/rag_engine.py:344-355 | a group's file_id, upload_time and file_size come from its first entry, and its count is the number of its entries |
| RagEngine.GroupSum | backend/app/core/services/rag_engine.py:339-359 | group counts sum to the number of non-empty metadata entries, so each is in exactly one group |
| RagEngine.DocumentListSpec | backend/app/core/services/rag_engine.py:327-361 | total_chunks counts every entry, total_files the groups, and the files' chunk counts sum to the non-empty entries |
| RagEngine.Kept | backend/app/core/services/rag_engine.py:372-390 | the records kept are exactly those not named for deletion |
| RagEngine.DeleteAccounting | backend/app/core/services/rag_engine.py:372-395 | deleted plus kept equals all records; nothing is deleted iff no record has the filename |
| RagEngine.FileNamesAreGroups | backend/app/core/services/rag_engine.py:390-395 | the distinct filenames are as many as the listed groups |
| RagEngine.Engine.constructor | backend/app/core/services/rag_engine.py:48-59 | no client, no model and no store at start |
| RagEngine.Engine.LoadExisting | backend/app/core/services/rag_engine.py:92-108 | the store is loaded iff it exists on disk and the embeddings are ready; otherwise it is unchanged |
| RagEngine.Engine.Initialize | backend/app/core/services/rag_engine.py:64-90 | both clients become ready and an existing on-disk store is loaded |
| RagEngine.Engine.CreateFromChunks | backend/app/core/services/rag_engine.py:110-166 | fails without embeddings; otherwise appends one record per chunk to the loaded (or on-disk) store and reports the chunk count, the total and the filename |
| RagEngine.Engine.Search | backend/app/core/services/rag_engine.py:204-231 | fails iff no store is loaded; otherwise returns the retriever's result for k from SearchK |
| RagEngine.Engine.GenerateAnswer | backend/app/core/services/rag_engine.py:233-285 | fails iff the store or model is missing; no documents give the fixed answer with empty documents and context; otherwise the documents in order, the "\n\n"-joined context and the model's answer |
| RagEngine.Engine.ListDocuments | backend/app/core/services/rag_engine.py:327-361 | the grouping loop equals DocumentList |
| RagEngine.Engine.DeleteByFilename | backend/app/core/services/rag_engine.py:363-400 | fails without a store or with no matching record, deleting nothing; otherwise keeps exactly the other records and reports the deleted count and remaining files |
| RagEngine.Engine.Reset | backend/app/core/services/rag_engine.py:402-417 | success clears the store; a failure is reported as status "error" and the store is kept |
| RagEngine.ChunkGroup | backend/app/core/services/rag_engine.py:129-359 | the chunks of one upload form a single group with all their chunks |
| RagEngine.UploadThenList | backend/app/core/services/rag_engine.py:110-361 | listing right after uploading a file shows one file with all its chunks |
| RagEngine.DeleteLeavesNone | backend/app/core/services/rag_engine.py:363-400 | after deletion no record carries the filename, and remaining_files equals the listed file count |
| Schemas.ValidateQuestion | backend/app/models/schemas.py:15-26 | accepted iff present, 1..1000 characters as submitted and not blank once stripped; the value returned is stripped |
| Schemas.ValidateTopK | backend/app/models/schemas.py:16 | top_k is accepted iff absent or in 1..10 |
| Schemas.ParseQuestionRequest | backend/app/domains/pdf/schemas.py:13-22 | a request is accepted iff both fields validate, with the stripped question; a rejection lists at least one issue |
| Schemas.AcceptedRequest | backend/app/models/schemas.py:10-26 | an accepted question has 1..1000 characters and no outer whitespace, and top_k is absent or in 1..10 |
| Schemas.BlankRejected | backend/app/models/schemas.py:24-25 | an all-whitespace question is rejected |
| Schemas.RevalidateAccepted | backend/app/domains/pdf/schemas.py:17-22 | re-validating an accepted request yields it unchanged |
| Schemas.MakeDocumentInfo | backend/app/models/schemas.py:29-33 | content is required; metadata defaults to the empty map |
| Schemas.MakeSearchResponse | backend/app/models/schemas.py:36-41 | fails iff a field is missing, naming exactly the missing ones |
| Schemas.MakeAnswerResponse | backend/app/domains/pdf/schemas.py:36-40 | fails iff a field is missing, naming exactly the missing ones |
| Schemas.MakeUploadResponse | backend/app/domains/pdf/schemas.py:43-49 | status and message are required; file_info and vectorstore_info default to None |
| Schemas.MakeSystemInfo | backend/app/models/schemas.py:64-72 | status, embedding_model, llm_model and vectorstore_ready are required; document_count and collection_id are optional |

## Left out

- Network and library I/O are parameters or absent:
  - the retriever and the LLM are function parameters (`retriever`, `llm`, `gen`);
  - Chroma persistence is an `Option` of records on disk;
  - the Redis store is an immutable value;
  - URL fetching in the ingest endpoint and the text extractors and chunk splitter are not modelled;
  - the front-end `fetch` helpers, the proxy routes and the NextAuth wiring are not modelled.
- Time is passed in:
  - `now` and the day string are parameters;
  - the two `datetime.now` calls in `docs_ask` are modelled as one day string;
  - timers, `asyncio.sleep`, heartbeats and abort controllers are not modelled;
  - concurrent requests are not modelled, because the model serves requests one at a time.
- Floating point: costs, prices and rates are `real`. IEEE rounding, `round(..., 4)`, `Math.round` of
  costs and `toLocaleString` are not modelled. `float()` on "inf" or "nan" is not accepted.
- The request log at backend/app/api/embed_ingest.py:343-356 is not modelled. `json.dump` without a file
  argument would raise there, after the ledger commit; the model returns the response as if logging
  succeeded.
- The call to `generate_answer` at backend/app/api/embed_ingest.py:279-285 passes `model`, `temperature`
  and `tenant`, which neither the request schema nor `generate_answer` in rag_engine.py accept, so the
  code as written would raise there. The model takes the result of generation as the parameter `gen`.
- JSON serialisation of the citation payload is left out; the payload is an opaque line without newlines.
- Text encoding: the text decoder and `str.splitlines` are modelled on characters. Lower-casing and
  case-insensitive matching are ASCII-only.
- Regular expressions in `_strip_tags` are modelled by hand-written matchers, not a regex engine.
- Chroma metadata scalars have no float variant, so a float `page` value is not modelled.
- `Numbers.IsDigit` accepts ASCII digits only. Python's `int()`, `float()` and `strptime` also accept
  other Unicode decimal digits.
- `Widget.ErrorDetails` takes `detail` as an optional string. A non-string `detail` (such as FastAPI's
  list of validation errors for a 422) is not modelled; embed.js:829 would show it through string
  conversion.
- The markdown renderer, DOM building and CSS in embed.js, and all React pages, are not modelled.
- `Reports.RateInUnitInterval` requires non-negative counters. The store could hold negative values,
  which would give a rate outside [0, 1].
- `EmbedAsk.PreCheckCoversCommit` holds only for answers up to 4092 characters. A longer answer can pass
  the pre-check and then be refused at the commit.
- `EmbedText.StripTags` states the normal-form invariant of its output, not which spans a regex removes.
- `Dates.DateRange` stops at the largest representable date (9999-12-31), where Python would raise
  `OverflowError`; the overflow flag reports that case.
