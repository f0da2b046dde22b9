# houser-api-core, modelled in Dafny

This project models the computational core of the houser-api-core NestJS back end and proves
properties of it. The model covers:

- the blog service's slug pipeline (`slugify`, `ensureUniqueSlug`), its access counters, and
  the `generateWithAi` / `generateManyWithAi` orchestration;
- the AI service's `generateBlogPost`: the chat call with one fallback retry, JSON extraction,
  the slug candidate, size normalisation, and the cover-image chain with its file naming;
- the social-post fan-out `createManyForBlog`;
- the slug backfill script;
- the dashboard aggregations: time buckets and their labels, bucket lookup, per-bucket counts,
  range parsing, access totals, missing-field counts and top tags;
- the BullMQ queue registry (connection choice, lazy queues, default job options) and the
  `ai-blog` worker (processor, enqueue, job status);
- the Firebase bearer-token guard;
- the file upload records with their extension and MIME choice, and the S3 key, URL and
  `uploaded` event;
- the CORS whitelist and origin decision of `main.ts`.

Everything outside the process is an input to the model:

- Prisma, Mongo, S3, Firebase Admin, OpenAI, `fetch`, BullMQ;
- the clock;
- the environment variables.

For example, the AI service takes the chat replies, the image API answer, the `fetch`
outcomes and `JSON.parse` as parameters. The S3 service takes `Date.now()` and the
`PutObject` outcome. The guard takes the `@Public()` metadata and `verifyIdToken`'s outcome.
State the source changes in place is modelled by classes whose methods `modify` the fields:

| class | fields it changes |
|---|---|
| blog table | table and access log |
| backfill table | its rows |
| queue registry | its queues |
| worker | its worker field |
| request | its `user` |
| S3 service | listeners, emitted events and sent requests |

Files:

| file | models |
|---|---|
| `wrappers.dfy` | `Option` / `Result`, `Promise.allSettled` filtering |
| `text.dfy` | the JavaScript string operations used: truthiness, `toLowerCase` on ASCII, `trim`, `split`, `replace` of the first occurrence, `startsWith`/`endsWith`, decimal printing and parsing, `padStart`, `Number(...)` |
| `encoding.dfy` | `Buffer.from(s, 'utf8')` (RFC 3629 section 3) and `toString('base64')` (RFC 4648 section 4) |
| `slug.dfy` | `slugify` and the `-2`, `-3`, ... suffix probe |
| `ai.dfy` | `AiService` |
| `blog.dfy` | `BlogService` |
| `socialpost.dfy` | `SocialPostService.createManyForBlog` |
| `backfill.dfy` | `scripts/backfill-slugs.ts` |
| `dashboard.dfy` | `DashboardService` helpers and aggregations |
| `queues.dfy` | `QueuesService` |
| `aiblogqueue.dfy` | `AiBlogQueue` |
| `authguard.dfy` | `FirebaseAuthGuard` |
| `s3.dfy` | `S3Service` |
| `files.dfy` | `FilesService` |
| `cors.dfy` | the CORS set-up in `bootstrap` |

## Model

| member | source | states |
|---|---|---|
| Text.ToLower | src/queues/queues.service.ts:13 | result has the input's length and maps each ASCII upper-case letter to lower case, leaving every other character as it is |
| Text.Trim | src/main.ts:21 | result is no longer than the input and neither starts nor ends with JavaScript white space |
| Text.TrimIdempotent | src/ai/ai.service.ts:41 | trimming twice is trimming once |
| Text.TrimKeepsSuffix | src/blog/blog.service.ts:263 | trimming keeps a suffix that starts and ends with a non-blank character |
| Text.ReplaceFirst | src/files/files.service.ts:25 | `replace` with a string pattern: unchanged when the pattern is absent; otherwise only the first occurrence is replaced |
| Text.RemoveFirstAfterPrefix | src/files/files.service.ts:25 | removing a pattern whose first occurrence directly follows a prefix leaves that prefix |
| Text.Split | src/main.ts:20 | `split` on one character gives at least one part, and no part holds the separator |
| Text.JoinSplit | src/main.ts:20 | joining the parts of a split gives the string back |
| Text.SplitJoin | src/firebase/guards/firebase-auth.guard.ts:48 | splitting a join of separator-free parts gives the parts back |
| Text.LastSegment | src/files/files.service.ts:24 | `split(c).pop()` holds no separator |
| Text.LastSegmentIsSuffix | src/files/files.service.ts:45 | the last segment is a suffix; it is the whole string when there is no separator, and is preceded by the separator otherwise |
| Text.NatToString | src/s3/s3.service.ts:34 | printing a number gives a non-empty string of digits |
| Text.ParsePrinted | src/dashboard/dashboard.service.ts:352 | `parseInt` reads a printed number back as itself |
| Text.PrintedInjective | src/s3/s3.service.ts:34 | different numbers print differently |
| Text.ParsePadded | src/dashboard/dashboard.service.ts:383 | a zero-padded digit string parses to the same number |
| Text.ToNumber | src/queues/queues.service.ts:16 | `Number(s)`: blank text is 0; trimmed digits are their decimal value; anything else is kept uninterpreted |
| Text.NumberOfPrinted | src/queues/workers/ai-blog.queue.ts:33 | `Number` of a printed number is that number |
| Wrappers.Successes | src/social-post/social-post.service.ts:37-40 | the fulfilled values, in order, no more of them than outcomes |
| Wrappers.SuccessesAppend | src/blog/blog.service.ts:279-291 | the fulfilled values of two runs of outcomes, one after the other, are those of each run in turn |
| Wrappers.SuccessesAllSucceed | src/social-post/social-post.service.ts:37-40 | when every outcome is fulfilled, every value is kept |
| Wrappers.SuccessesAllFail | src/social-post/social-post.service.ts:37-40 | when every outcome is rejected, nothing is kept |
| Encoding.Utf8Char | src/ai/ai.service.ts:236 | one to four bytes per scalar value; exactly one, equal to the code point, below U+0080 |
| Encoding.Utf8 | src/ai/ai.service.ts:236 | the encoding has at least one byte per character |
| Encoding.Utf8Append | src/ai/ai.service.ts:236 | UTF-8 of a concatenation is the concatenation of the encodings |
| Encoding.Utf8Ascii | src/ai/ai.service.ts:236 | ASCII text encodes byte for byte |
| Encoding.Base64 | src/ai/ai.service.ts:169 | the encoding is empty exactly for no bytes |
| Encoding.Base64Append | src/ai/ai.service.ts:236 | bytes in whole groups of three encode independently of what follows |
| Encoding.QuadRoundTrip | src/ai/ai.service.ts:236 | each three-byte group decodes back from its four characters |
| Encoding.Base64RoundTrip | src/ai/ai.service.ts:236 | decoding the encoding of whole groups gives the bytes back |
| Slug.Collapse | src/blog/blog.service.ts:299 | the result has only slug characters and no double `-`, is empty only for empty input, and starts with `[a-z0-9]` exactly when the input does |
| Slug.CollapseAppend | src/blog/blog.service.ts:299 | a string cut right after a `[a-z0-9]` character collapses piece by piece, since no run crosses that character |
| Slug.CollapseSep | src/blog/blog.service.ts:299 | a maximal run of characters outside `[a-z0-9]` (followed by `[a-z0-9]` or by the end) becomes one `-` and the rest collapses on its own |
| Slug.CollapseRun | src/blog/blog.service.ts:299 | a non-empty run of characters outside `[a-z0-9]` becomes one `-`, and a single `[a-z0-9]` character stays; with `CollapseAppend` and `CollapseSep` this fixes the whole result |
| Slug.CollapseKeepsAlnums | src/blog/blog.service.ts:299 | collapsing keeps every `[a-z0-9]` character, in order |
| Slug.SlugifyKeepsAlnums | src/blog/blog.service.ts:294-302 | `slugify` keeps the `[a-z0-9]` characters of the lower-cased title in order: a prefix of them after the 80-character cut, all of them when the cut does not bite |
| Slug.StripDiacritics | src/blog/blog.service.ts:296-297 | never longer; no diacritic is left; text without one is unchanged; a lone diacritic is removed |
| Slug.StripDiacriticsAppend | src/blog/blog.service.ts:296-297 | stripping distributes over concatenation, so each character is kept or dropped on its own and the kept ones stay in order |
| Slug.SlugifyShape | src/blog/blog.service.ts:294-302 | `slugify` gives only `[a-z0-9-]`, no leading `-`, no `--`, at most 80 characters (ASCII input) |
| Slug.SlugifyTrailingDashOnlyFromCut | src/blog/blog.service.ts:300-301 | without the 80-character cut there is never a trailing `-` |
| Slug.SlugifyCanonical | src/blog/blog.service.ts:294-302 | a canonical slug is a fixed point of `slugify` |
| Slug.SlugifyOfShaped | src/blog/blog.service.ts:294-302 | on a slug-shaped string, `slugify` only drops a trailing `-` |
| Slug.SlugifyTwice | src/blog/blog.service.ts:298-305 | the second pass removes the trailing `-` the cut may leave, and its result is canonical |
| Slug.SlugifyNotIdempotent | src/blog/blog.service.ts:298-301 | a concrete 81-character title whose slug changes on a second pass |
| Slug.CandidateInjective | src/blog/blog.service.ts:317 | different suffixes give different candidates |
| Slug.FirstFree | src/blog/blog.service.ts:316-317 | the least suffix at or above the start whose candidate is free |
| Slug.UniqueSlugSpec | src/blog/blog.service.ts:313-318 | the result is never observed; it starts with `clean`; it is `clean` when free, else `clean-i` for the least free `i >= 2` |
| Slug.UniqueSlugPrefixSufficient | src/blog/blog.service.ts:308 | slugs not starting with `clean` cannot change the result |
| Slug.Probe | src/blog/blog.service.ts:313-318 | the probe loop computes the specified slug, which is free and starts with `clean` |
| BlogService.Observed | src/blog/blog.service.ts:306-312 | the query only returns slugs starting with `clean` |
| BlogService.UniqueSlugInFresh | src/blog/blog.service.ts:304-319 | the allocated slug differs from every other row's slug; the excluded row is ignored |
| BlogService.QueryPrefixSufficient | src/blog/blog.service.ts:306-318 | probing only the prefix query equals probing every slug |
| BlogService.CreateSlugSpec | src/blog/blog.service.ts:43-44 | `create`'s slug is fresh; a canonical trimmed given slug is kept when free; otherwise the title is slugified twice |
| BlogService.UpdateKeepsOwnSlug | src/blog/blog.service.ts:126-130 | an update passing a row's own canonical slug keeps it |
| BlogService.Bump | src/blog/blog.service.ts:166-169 | `read` adds one to `readsCount`, any other type one to `viewsCount`; nothing else changes |
| BlogService.BumpKeepsUnique | src/blog/blog.service.ts:170-174 | counting an access keeps slugs unique |
| BlogService.SocialRequest | src/blog/blog.service.ts:262-269 | the social request carries the new id and the Instagram text; a LinkedIn text exactly when the generated one is truthy |
| BlogService.Publish | src/blog/blog.service.ts:239-270 | failures change nothing and give `Failed to generate blog with AI`; success inserts one row with a fresh unique slug and sends the social request |
| BlogService.GenerateStep | src/blog/blog.service.ts:217-275 | `generateWithAi` for a given AI result: any failure leaves the table and gives the one error; success adds exactly the created row |
| BlogService.InsertKeepsUnique | src/blog/blog.service.ts:253 | inserting a row with an unused slug keeps slugs unique |
| BlogService.GenerateStepKeepsUnique | src/blog/blog.service.ts:239-256 | a generation keeps slugs unique |
| BlogService.CoverUploadedIff | src/blog/blog.service.ts:224-237 | the cover is uploaded exactly when image data and file name are both present |
| BlogService.LinkedInEndsWithPermalink | src/blog/blog.service.ts:260-264 | the LinkedIn text ends with `baseUrl/slug` |
| BlogService.GeneratedLinkedInLinks | src/blog/blog.service.ts:260-269 | the LinkedIn text sent ends with the new post's permalink |
| BlogService.BlogStore.EnsureUniqueSlug | src/blog/blog.service.ts:304-319 | returns the specified slug, unused by any row other than the excluded one |
| BlogService.BlogStore.AddAccessById | src/blog/blog.service.ts:164-188 | a missing row is an internal error with no change; otherwise one counter is bumped and the access logged (if logging succeeds) |
| BlogService.BlogStore.AddAccessBySlug | src/blog/blog.service.ts:190-215 | an empty slug is BadRequest before any change; an unknown slug is an internal error; otherwise the row with that slug is bumped and its counters are returned with the slug |
| BlogService.BlogStore.GenerateWithAi | src/blog/blog.service.ts:217-275 | the new table and result are `GenerateStep` of the old table; slugs stay unique |
| BlogService.BlogStore.CreateFromAi | src/blog/blog.service.ts:239-270 | the create stage equals `Publish` |
| BlogService.BlogStore.GenerateManyWithAi | src/blog/blog.service.ts:277-293 | the prompts are processed in order; the result is the successes of `Batch` |
| BlogService.BlogStore.GenerateNext | src/blog/blog.service.ts:279-290 | one loop turn: prompt `i` runs on the table the earlier prompts left, and a success is appended, so the table and the results are those of `Batch` over one more prompt |
| BlogService.Batch | src/blog/blog.service.ts:279-291 | one outcome per prompt, each on the table the previous prompts left |
| BlogService.BatchKeepsUnique | src/blog/blog.service.ts:277-293 | a batch keeps slugs unique and returns no more posts than prompts |
| BlogService.BatchNewIdsFresh | src/blog/blog.service.ts:277-293 | a batch never removes a row |
| SocialPostService.Requests | src/social-post/social-post.service.ts:21-35 | one create per truthy text, LinkedIn first, each with the blog id, its platform and the text unchanged |
| SocialPostService.Settle | src/social-post/social-post.service.ts:37 | one settled outcome per create, in issue order |
| SocialPostService.CreateManyForBlog | src/social-post/social-post.service.ts:20-41 | issues exactly `Requests` and returns the fulfilled posts in order |
| SocialPostService.NothingToPost | src/social-post/social-post.service.ts:36 | nothing is issued or returned without a truthy text |
| SocialPostService.CreatedFromIssued | src/social-post/social-post.service.ts:37-40 | every returned post is a fulfilled create; at most two |
| SocialPostService.AllFulfilled | src/social-post/social-post.service.ts:37-40 | when all creates succeed, all posts are returned, in order |
| SocialPostService.AllRejected | src/social-post/social-post.service.ts:37-40 | rejected creates are dropped, never thrown |
| AiService.AsString | src/ai/ai.service.ts:276-283 | `typeof v === 'string' ? v : undefined` keeps exactly string values |
| AiService.Converse | src/ai/ai.service.ts:51-72 | the configured model first; exactly one retry with `gpt-5` on a missing-model failure; any other failure is rethrown |
| AiService.PartTexts | src/ai/ai.service.ts:78 | each part's text, or `''` |
| AiService.ResponseTextParts | src/ai/ai.service.ts:74-79 | newline-free parts come back from the joined text |
| AiService.StripFences | src/ai/ai.service.ts:294 | never longer; text without a "```json" opening and without a closing fence is unchanged; without the opening, only a closing fence comes off |
| AiService.StripFencesPieces | src/ai/ai.service.ts:294 | with a "```json" opening (with or without its newline), the text is that opening, the result, and the closing fence when there is one |
| AiService.FencedAnswer | src/ai/ai.service.ts:292-295 | a ```` ```json ```` fenced answer parses from its body |
| AiService.UntaggedFenceKept | src/ai/ai.service.ts:294 | an untagged opening fence is not stripped |
| AiService.SlugCandidate | src/ai/ai.service.ts:86-97 | a string slug with a non-blank trim, untrimmed; otherwise the slugified title, or an error when the title is not text |
| AiService.SlugCandidateShape | src/ai/ai.service.ts:86-97 | a generated candidate is slug-shaped |
| AiService.FirstTimes | src/ai/ai.service.ts:118 | index of the first `x`/`X`, or -1 |
| AiService.Dims | src/ai/ai.service.ts:118-121 | a match is digits, `x` or `X`, then digits |
| AiService.DimsOfShape | src/ai/ai.service.ts:118-121 | every string of that shape matches with its two numbers |
| AiService.DimsPrinted | src/ai/ai.service.ts:118-121 | printed `WxH` reads back as `(W, H)` |
| AiService.NamedDims | src/ai/ai.service.ts:199-200 | the size names read as their sides; `1200x630` for `auto` |
| AiService.NormalizeSizeName | src/ai/ai.service.ts:110-117 | the four allowed sizes come back unchanged |
| AiService.NormalizeSizePrinted | src/ai/ai.service.ts:118-125 | a printed `WxH` is square, landscape or portrait by its sides; a zero side is landscape |
| AiService.NormalizeSizeUnmatched | src/ai/ai.service.ts:119 | text of no `WxH` shape is `1536x1024` |
| AiService.PlaceholderDims | src/ai/ai.service.ts:199-200 | placeholder dimensions are positive |
| AiService.PlaceholderDimsParsed | src/ai/ai.service.ts:199-200 | the table agrees with splitting the size text at `x` |
| AiService.InferExt | src/ai/ai.service.ts:251-265 | an extension exactly when there is data |
| AiService.CoverFilename | src/ai/ai.service.ts:275 | `cover.<ext>` exactly when there is data |
| AiService.PngRecognised | src/ai/ai.service.ts:261 | PNG bytes are named png by their base64 prefix |
| AiService.JpegRecognised | src/ai/ai.service.ts:262 | JPEG bytes are named jpg by their base64 prefix |
| AiService.SvgTagRecognised | src/ai/ai.service.ts:263 | text starting `<svg ` is named svg |
| AiService.XmlPrologNamedPng | src/ai/ai.service.ts:261-264 | data starting `PD94` without a hint is named `cover.png` |
| AiService.PngHintNamesPng | src/ai/ai.service.ts:256-258 | a `png` content-type hint names the data `cover.png` whatever its bytes |
| AiService.SvgHintNamesSvg | src/ai/ai.service.ts:256-259 | an SVG content-type hint names the data `cover.svg` |
| AiService.FontSize | src/ai/ai.service.ts:226 | the title font size lies in 24..48 and is `w/24` in between |
| AiService.SmallFontSize | src/ai/ai.service.ts:233 | the secondary size is at least 14 and `floor(0.6 f)` |
| AiService.RemoveAngles | src/ai/ai.service.ts:222 | no angle brackets remain, and every other character is kept |
| AiService.Take | src/ai/ai.service.ts:222 | `slice(0, n)` is the prefix of length `min(n, len)` |
| AiService.SafeTitle | src/ai/ai.service.ts:221-222 | at most 80 characters and no angle brackets |
| AiService.SvgDocumentHead | src/ai/ai.service.ts:227-235 | the placeholder starts with the XML declaration |
| AiService.SvgDocumentGroupTag | src/ai/ai.service.ts:231 | the `<g>` start tag sits right after the prefix |
| AiService.SvgBase64Head | src/ai/ai.service.ts:236 | the placeholder's base64 starts `PD94` |
| AiService.GroupTagAttribute | src/ai/ai.service.ts:231 | the font-family value ends at the family's first `"` |
| AiService.GroupTagAsWrittenBreaks | src/ai/ai.service.ts:231 | as written, the value ends before `Helvetica Neue` and is followed by `H`, which makes the start tag malformed |
| AiService.GroupTagQuotedWellFormed | src/ai/ai.service.ts:231 | with the inner family quoted with `'`, the value is the whole list and the tag closes |
| AiService.EnvFlag | src/ai/ai.service.ts:103-104 | an unset flag is on |
| AiService.NativeStage | src/ai/ai.service.ts:137-193 | disabled issues nothing; b64 is taken first; the hint is recorded before the ok check; a URL body is used only when fetched |
| AiService.PlaceholderStageSpec | src/ai/ai.service.ts:195-243 | runs only without data and when enabled, then always sets data: the remote body when fetched, else the SVG |
| AiService.Generate | src/ai/ai.service.ts:36-290 | any failure is the one `Falha ao gerar post com IA` error; the cover is the source's chain, SVG branch included |
| AiService.AskModel | src/ai/ai.service.ts:50-72 | the chat step computes `Converse` |
| AiService.NativeImage | src/ai/ai.service.ts:137-193 | the native step computes `NativeStage` |
| AiService.PlaceholderImage | src/ai/ai.service.ts:195-243 | the placeholder step computes `PlaceholderStage` with the source's SVG branch: no content-type hint, the font list as written |
| AiService.GenerateBlogPost | src/ai/ai.service.ts:36-290 | the imperative run computes `Generate`, the source's run |
| AiService.GenerateFailsIff | src/ai/ai.service.ts:81-84 | the run fails exactly when the answer is not accepted |
| AiService.GenerateOutput | src/ai/ai.service.ts:268-285 | an accepted answer yields its fields, the slug candidate, the source's cover chain's data and a file name exactly when that data is truthy |
| AiService.PlaceholderAlwaysCover | src/ai/ai.service.ts:198-243 | with placeholders on `imageBase64` is always set, and truthy unless the remote placeholder answered with an empty body |
| AiService.NoPlaceholderNoCover | src/ai/ai.service.ts:244-248 | with placeholders off and no native image: no data, no file name, no error |
| AiService.NativeImageFirst | src/ai/ai.service.ts:152-156 | a native b64 image is used as it is |
| AiService.PlaceholderFetchOnlyWhenNeeded | src/ai/ai.service.ts:198-209 | the remote placeholder is fetched only when needed; it is the last call, and goes to the configured or default URL |
| AiService.SvgBranch | src/ai/ai.service.ts:216-242 | the failure branch sets the SVG's base64 |
| AiService.SvgPlaceholderNamedPngAsWritten | src/ai/ai.service.ts:240-275 | as written, the SVG placeholder is named `cover.png` |
| AiService.SvgPlaceholderNamedSvg | src/ai/ai.service.ts:240-275 | in the corrected chain, which records the SVG's content type, it is named `cover.svg` |
| AiService.CorrectedDiffersOnlyOnSvg | src/ai/ai.service.ts:198-243 | the corrected chain makes the same calls and gives the same cover except where the local SVG is drawn |
| AiService.StaleHintNamesPlaceholder | src/ai/ai.service.ts:166-167 | a hint set by a failed native fetch still names the placeholder |
| Backfill.Matching | scripts/backfill-slugs.ts:18-21 | the query only returns slugs starting with `clean` |
| Backfill.SlugCorrectedFresh | scripts/backfill-slugs.ts:16-28 | with every observed slug kept, the slug is unused by other rows and starts with `clean` |
| Backfill.AsWrittenAgreesOnNonEmpty | scripts/backfill-slugs.ts:23 | the `filter(Boolean)` only matters for an empty `clean` |
| Backfill.Assign | scripts/backfill-slugs.ts:33-35 | one update: only that row changes, and it gets the allocated slug |
| Backfill.Run | scripts/backfill-slugs.ts:32-37 | the loop with every update accepted keeps the set of row ids |
| Backfill.RunTouchesOnlyPending | scripts/backfill-slugs.ts:31-36 | rows that were not pending are unchanged; pending rows keep their title and get a slug |
| Backfill.NoNullSlugLeft | scripts/backfill-slugs.ts:31-37 | when every row without a slug is pending and the run is not stopped by a rejected write, no null slug is left |
| Backfill.AssignFreshKeepsUnique | scripts/backfill-slugs.ts:34-35 | a fresh slug keeps slugs unique |
| Backfill.RunCorrectedUnique | scripts/backfill-slugs.ts:16-37 | with the corrected allocation, all slugs after a run are pairwise distinct |
| Backfill.PunctuationSlugifiesEmpty | scripts/backfill-slugs.ts:6-14 | `!` and `?` slugify to `''` |
| Backfill.AsWrittenEmptyClean | scripts/backfill-slugs.ts:22-24 | as written, an empty `clean` is always returned as `''` |
| Backfill.AssignEmptyClean | scripts/backfill-slugs.ts:22-35 | as written, a pending row whose title slugifies to `''` is offered `''`, and the update is rejected exactly when another row already holds `''` |
| Backfill.EmptySlugCollision | scripts/backfill-slugs.ts:23-44 | as written, with two punctuation-only titles and no `''` in the table, the first row gets `''`, the second is offered `''` too, its update is rejected and the run stops there with the second row's slug still null |
| Backfill.SameSlugTwice | scripts/backfill-slugs.ts:32-37 | two pending rows offered the same unused slug: the first write is accepted, the second rejected, and the run stops at the second row |
| Backfill.Write | scripts/backfill-slugs.ts:35 | the update is rejected exactly when another row already holds the slug (the unique slug index); otherwise only that row's slug changes |
| Backfill.WriteKeepsUnique | scripts/backfill-slugs.ts:35 | an accepted update keeps the slugs unique, whatever slug was offered |
| Backfill.Script | scripts/backfill-slugs.ts:30-44 | the run from a given pending row on, stopping at the first rejected update: it keeps the row ids, and a stop is reported at one of the remaining pending positions |
| Backfill.ScriptIsRun | scripts/backfill-slugs.ts:30-44 | a completed run leaves `Run`'s table; a stopped one leaves the table reached before the rejected row, whose offered slug another row already held |
| Backfill.ScriptKeepsUnique | scripts/backfill-slugs.ts:30-44 | whatever the allocation, a run keeps the slugs unique |
| Backfill.ScriptCorrectedCompletes | scripts/backfill-slugs.ts:16-44 | with the corrected allocation no write is rejected and the run completes with `Run`'s table |
| Backfill.ScriptAsWrittenCompletes | scripts/backfill-slugs.ts:16-44 | as written, the run completes when no pending base slugifies to `''` |
| Backfill.AbortLeavesRest | scripts/backfill-slugs.ts:32-44 | a stopped run leaves the rejected row and every later pending row as they were |
| Backfill.FreshWriteAccepted | scripts/backfill-slugs.ts:34-35 | a slug no other row holds is accepted, and the update is `Assign` |
| Backfill.SlugAsWrittenFresh | scripts/backfill-slugs.ts:16-28 | as written, the slug is unused by other rows and starts with `clean` when `clean` is not empty; an empty `clean` comes back as `''` |
| Backfill.RunAgreesOnNonEmpty | scripts/backfill-slugs.ts:23-36 | the script's run equals the corrected run when no pending base slugifies to `''` |
| Backfill.RunAsWrittenUnique | scripts/backfill-slugs.ts:16-37 | so the script's run leaves slugs unique when no pending base slugifies to `''` |
| Backfill.BlogTable.EnsureUniqueSlug | scripts/backfill-slugs.ts:16-28 | computes the script's slug, `filter(Boolean)` included |
| Backfill.BlogTable.AssignSlug | scripts/backfill-slugs.ts:33-35 | allocates the script's slug, then the update: the table is `Write`'s result when it is accepted and unchanged when it is rejected |
| Backfill.BlogTable.FillMissing | scripts/backfill-slugs.ts:30-44 | the loop's table and `failed` flag are `Script` of the pending rows with the script's allocation: completed, or stopped at the row after the last log line; one log line per written row, holding its final slug |
| Backfill.BlogTable.FillNext | scripts/backfill-slugs.ts:32-37 | one loop turn is one step of `Script`, with a log line exactly when the write is accepted |
| Dashboard.IsoDateFields | src/dashboard/dashboard.service.ts:364-372 | a day label is `YYYY-MM-DD` and its fields read back as the date |
| Dashboard.WeekLabel | src/dashboard/dashboard.service.ts:376 | a week label is the day label plus ` (wk)`, 15 characters |
| Dashboard.MonthLabel | src/dashboard/dashboard.service.ts:380-383 | a month label is the year, `-`, and the two-digit month |
| Dashboard.BucketLabel | src/dashboard/dashboard.service.ts:369-384 | the label branch computes `Label` |
| Dashboard.BuildBuckets | src/dashboard/dashboard.service.ts:361-389 | the loop computes `Buckets` |
| Dashboard.BucketsContiguous | src/dashboard/dashboard.service.ts:363-386 | the first bucket starts at `start`, each starts where the previous one ended, every `from <= end` |
| Dashboard.BucketsOrdered | src/dashboard/dashboard.service.ts:361-389 | buckets are disjoint and in order |
| Dashboard.BucketsCover | src/dashboard/dashboard.service.ts:365-387 | every instant from `start` to `end` lies in some bucket |
| Dashboard.FirstBucket | src/dashboard/dashboard.service.ts:391-398 | the first bucket holding `ts`, or -1 exactly when none does |
| Dashboard.BucketIndex | src/dashboard/dashboard.service.ts:391-398 | the loop computes `FirstBucket` |
| Dashboard.BucketUnique | src/dashboard/dashboard.service.ts:391-398 | at most one built bucket holds `ts`, and one does exactly when `start <= ts` and `ts` is before the last bucket's end |
| Dashboard.Series | src/dashboard/dashboard.service.ts:97-98 | one point per bucket |
| Dashboard.SeriesSnoc | src/dashboard/dashboard.service.ts:100-102 | one more timestamp increments its bucket only |
| Dashboard.TotalIncrement | src/dashboard/dashboard.service.ts:102 | an increment adds one to the total exactly when the index is valid |
| Dashboard.SeriesTotal | src/dashboard/dashboard.service.ts:97-107 | a series sums to the timestamps that landed, never more than the inputs |
| Dashboard.Tally | src/dashboard/dashboard.service.ts:186-191 | the counting loop computes `Series` |
| Dashboard.CreatedTimes | src/dashboard/dashboard.service.ts:101 | one created time per row |
| Dashboard.PublishedTimes | src/dashboard/dashboard.service.ts:103-104 | no more published times than rows |
| Dashboard.PublishedTimesFromRows | src/dashboard/dashboard.service.ts:103-106 | only set `publishedAt` values are counted |
| Dashboard.Timeseries | src/dashboard/dashboard.service.ts:97-107 | both series are `Series` of the created and the set published times |
| Dashboard.RangeRoundTrip | src/dashboard/dashboard.service.ts:348-358 | digits then `d`/`w`/`m`/`y` in either case give that shift; `w` is 7n days; leading zeros are allowed |
| Dashboard.RangeFallback | src/dashboard/dashboard.service.ts:349-351 | anything else is 30 days back |
| Dashboard.AccessLast30 | src/dashboard/dashboard.service.ts:302-309 | views and reads are the last `view`/`read` group counts; total is their sum |
| Dashboard.LastCountOfGroups | src/dashboard/dashboard.service.ts:302-307 | an absent group counts 0; with unique ids, a group's count is taken |
| Dashboard.CountWhere | src/dashboard/dashboard.service.ts:44-48 | a count never exceeds the table |
| Dashboard.CountSplits | src/dashboard/dashboard.service.ts:57-61 | with and without a field add up to the total |
| Dashboard.MissingAreComplements | src/dashboard/dashboard.service.ts:57-61 | each missing count is the number of blogs lacking that field |
| Dashboard.AllTagsLowerNonEmpty | src/dashboard/dashboard.service.ts:126-129 | counted tags are lowercase and non-empty |
| Dashboard.Frequencies | src/dashboard/dashboard.service.ts:125-132 | each tag's count is its number of occurrences; keys are the tags seen |
| Dashboard.InsertByCount | src/dashboard/dashboard.service.ts:134 | insertion keeps non-increasing counts and is a permutation plus the new entry |
| Dashboard.SortByCount | src/dashboard/dashboard.service.ts:134 | `sort((a, b) => b[1] - a[1])` sorts by non-increasing count and permutes |
| Dashboard.SortKeepsDistinct | src/dashboard/dashboard.service.ts:133-134 | sorting keeps tags distinct |
| Dashboard.SliceEnd | src/dashboard/dashboard.service.ts:135 | the slice end is within the length and the limit, and is the length when the limit allows |
| Dashboard.TopListed | src/dashboard/dashboard.service.ts:133-135 | listed entries are table entries with their counts, distinct, sorted, at most `limit` |
| Dashboard.TopAllWhenRoom | src/dashboard/dashboard.service.ts:133-135 | with room for every tag, every tag is listed |
| Dashboard.TopLeftOutNotMore | src/dashboard/dashboard.service.ts:133-135 | a tag left out counts no more than any listed one |
| Dashboard.TopTags | src/dashboard/dashboard.service.ts:120-136 | the nested loops and sort compute `TopTagsOf` |
| Dashboard.TopTagsCorrect | src/dashboard/dashboard.service.ts:125-136 | the list has distinct lowercase tags with their occurrence counts, sorted, at most `limit`; all tags when there is room; left-out tags count no more |
| Queues.ConnectionFor | src/queues/queues.service.ts:8-25 | `{url}` untrimmed exactly when `REDIS_URL` is non-blank; otherwise host/user/password, timeout 5000, tls exactly when `REDIS_TLS` is `true` |
| Queues.UrlWins | src/queues/queues.service.ts:9-12 | a URL makes the rest of the environment irrelevant |
| Queues.PortOf | src/queues/queues.service.ts:16 | unset or empty port is 6379; a printed port reads as itself |
| Queues.TlsAnyCase | src/queues/queues.service.ts:13 | TLS exactly when the value lowercases to `true`; `TRUE` and `True` switch it on |
| Queues.Defaults | src/queues/queues.service.ts:44-48 | the default keys |
| Queues.MergeOptions | src/queues/queues.service.ts:44-50 | every given key overrides wholesale; other defaults stay |
| Queues.DefaultJobOptions | src/queues/queues.service.ts:45-48 | default retention, two attempts, exponential backoff from 2000 ms |
| Queues.BackoffReplacedWholesale | src/queues/queues.service.ts:48-49 | a given `backoff` replaces the whole default |
| Queues.QueueRegistry.Queue | src/queues/queues.service.ts:31-38 | registers a new queue under the name only once; returns the registered one; other entries untouched |
| Queues.QueueRegistry.Add | src/queues/queues.service.ts:42-52 | adds a job named after the queue with the merged options |
| Queues.SameQueueTwice | src/queues/queues.service.ts:31-38 | two calls for a name return the same queue |
| AiBlogQueue.ConcurrencyOf | src/queues/workers/ai-blog.queue.ts:33 | unset concurrency is 1; a printed number reads as itself |
| AiBlogQueue.StatusOf | src/queues/workers/ai-blog.queue.ts:50-63 | unknown is `not_found` only; result only when completed; reason only when failed; progress only for other states with numeric progress |
| AiBlogQueue.StatusByState | src/queues/workers/ai-blog.queue.ts:55-62 | each state reports its own field and no other |
| AiBlogQueue.AiBlogQueue.OnModuleInit | src/queues/workers/ai-blog.queue.ts:21-35 | the worker runs on `ai-blog` with the registry's connection and the configured concurrency |
| AiBlogQueue.AiBlogQueue.Process | src/queues/workers/ai-blog.queue.ts:25-30 | the job's data goes unchanged to `generateWithAi` and its result is returned |
| AiBlogQueue.AiBlogQueue.Enqueue | src/queues/workers/ai-blog.queue.ts:45-48 | adds to `ai-blog` with the default options and replies with `String(job.id)` |
| AiBlogQueue.AiBlogQueue.GetStatus | src/queues/workers/ai-blog.queue.ts:50-63 | computes `StatusOf` of the looked-up job |
| AuthGuard.IsPublic | src/firebase/guards/firebase-auth.guard.ts:20-23 | the handler's mark, when set, overrides the class's; unset is not public |
| AuthGuard.ExtractToken | src/firebase/guards/firebase-auth.guard.ts:44-50 | a token only from a truthy header; the token holds no space |
| AuthGuard.ExtractTokenExactly | src/firebase/guards/firebase-auth.guard.ts:44-50 | a token `t` comes out exactly when the header is `Bearer ` + `t` with no space in `t` |
| AuthGuard.TokenShape | src/firebase/guards/firebase-auth.guard.ts:48-49 | a token is what follows the leading `Bearer ` |
| AuthGuard.SchemeIsExact | src/firebase/guards/firebase-auth.guard.ts:49 | `bearer` in lower case, or two spaces, give no token |
| AuthGuard.EmptyBearerToken | src/firebase/guards/firebase-auth.guard.ts:48-49 | `Bearer ` gives the empty token |
| AuthGuard.Decide | src/firebase/guards/firebase-auth.guard.ts:19-42 | allowed without a user exactly when public; a user only from a verified extracted token |
| AuthGuard.PublicIgnoresHeader | src/firebase/guards/firebase-auth.guard.ts:20-26 | a public route passes whatever the header and verifier |
| AuthGuard.MissingToken | src/firebase/guards/firebase-auth.guard.ts:29-33 | no header, a malformed one, or `Bearer ` give 401 `Token not provided` |
| AuthGuard.VerifiedToken | src/firebase/guards/firebase-auth.guard.ts:35-41 | a rejected token gives 401 `Invalid token`; an accepted one passes with the decoded token |
| AuthGuard.CanActivate | src/firebase/guards/firebase-auth.guard.ts:19-42 | returns true or throws per `Decide`; sets `request.user` only on verified success |
| S3.ObjectKey | src/s3/s3.service.ts:33-35 | `folder/now-name` with a folder, `now-name` without |
| S3.KeyShape | src/s3/s3.service.ts:33-35 | the key starts with `folder/` (or the time and `-`) and ends with `-name` |
| S3.KeysDifferInTime | src/s3/s3.service.ts:33-35 | same folder and name at different milliseconds give different keys |
| S3.UrlShape | src/s3/s3.service.ts:39 | the URL ends with the key; removing the key's first occurrence leaves the bucket URL when the key does not occur earlier |
| S3.ResultOf | src/s3/s3.service.ts:40-45 | the result carries the key, the URL, the file's size and original name |
| S3.Base64File | src/s3/s3.service.ts:61-69 | the file is named `filename` and sized by the decoded bytes |
| S3.Notify | src/s3/s3.service.ts:46 | every listener, in order, gets the same result |
| S3.S3Service.On | src/s3/s3.service.ts:27-29 | the listener is appended |
| S3.S3Service.Upload | src/s3/s3.service.ts:31-52 | sends `PutObject`; on success every listener is notified and then the result returned; on failure nothing is emitted and the error is `Failed to upload file` |
| S3.S3Service.UploadBase64 | src/s3/s3.service.ts:54-75 | uploads an octet-stream file named `filename` and sized by the decoded bytes |
| Files.RowOf | src/files/files.service.ts:21-30 | name, folder, key, URL and size as uploaded; extension is the last `.` segment, original case; baseUrl is the URL with the key's first occurrence removed |
| Files.RowExtension | src/files/files.service.ts:24 | `stem.ext` gives extension `ext` |
| Files.Base64Ext | src/files/files.service.ts:45 | the extension is the lowercased last segment; the `jpg` fallback is never taken |
| Files.MimeOfName | src/files/files.service.ts:45-53 | svg, jpg/jpeg and png in any case map to their image types; anything else is octet-stream |
| Files.MimeCaseInsensitive | src/files/files.service.ts:45-53 | two names whose last segments agree up to case get the same MIME type |
| Files.NoDotNoJpeg | src/files/files.service.ts:45 | a name without a dot is its own extension, so `photo` is octet-stream |
| Files.FilesService.Upload | src/files/files.service.ts:18-36 | the S3 upload, then the row; either failure gives `Failed to upload file` |
| Files.FilesService.UploadBase64 | src/files/files.service.ts:38-68 | uploads the decoded bytes under `filename` with the extension's MIME type; the row's size is the byte count |
| Files.RowUrlSplits | src/files/files.service.ts:25-28 | for an S3 upload, baseUrl is the bucket URL and baseUrl + file == url |
| Cors.TrimmedEntries | src/main.ts:21-22 | at most one entry per part; every entry is non-empty and already trimmed |
| Cors.TrimmedEntriesMembers | src/main.ts:21-22 | an entry is exactly a non-empty trim of some part |
| Cors.WhitelistEntries | src/main.ts:19-22 | unset lists nothing; an entry is exactly a non-empty trimmed comma-separated piece; an entry holds no comma |
| Cors.WhitelistOfJoin | src/main.ts:19-22 | trimmed comma-free origins joined by commas are listed exactly, in order |
| Cors.OriginDecision | src/main.ts:26-31 | allowed exactly without an origin or with a listed one; the refusal is `Not allowed by CORS: <origin>` |
| Cors.OriginPolicy | src/main.ts:19-31 | an origin is allowed exactly when some piece trims to it; unset or comma-holding origins are refused |

## Left out

- Prisma, Mongo, S3, Firebase Admin, OpenAI, LangChain, BullMQ and `fetch`: their outcomes are inputs, not behaviour.
- Backfill.Write: of the update's failures only the unique slug index is modelled (the service's `update({ where: { slug } })` at src/blog/blog.service.ts:197-198 needs `slug` to be unique); other database errors are not.
- Logging (`Logger`, `console.log`): not modelled.
- Concurrency, and the async interleaving of awaited calls: the model is sequential.
- Unicode: `normalize('NFD')` and the `\p{Diacritic}` removal are modelled on ASCII only. On ASCII, `^` and `` ` `` are the only characters with the Diacritic property, and the model removes them. Other non-ASCII characters count as non-alphanumeric.
- `toLowerCase` is modelled on ASCII only.
- The CRUD methods of `BlogService` (`create` payload, `findAll`, `findOne`, `update` payload, `remove`) are not modelled beyond their slug allocation: they are Prisma calls.
- `FilesService.getSignedUrl` and `S3Service.getSignedUrl` are presigner calls and are not modelled.
- `Buffer.from(base64, 'base64')`: its lenient decoding is not modelled; the decoded bytes are an input.
- NormalizeSize: sides are exact integers. The source's `parseInt` gives doubles, so sides above 2^53 can round to equal values, and digit strings too long for a double give `Infinity`, which `Number.isFinite` sends to `1536x1024`.
- NormalizeSizePrinted: stated only for sides up to 2^53, where `parseInt` is exact; larger sides are not covered, for the reason above.
- Take: counts Unicode scalar values, while `slice` counts UTF-16 code units. Titles with characters outside the Basic Multilingual Plane are cut at a different place.
- SafeTitle: the 80-character cut is the `Take` cut, so it counts scalar values rather than UTF-16 code units, for the reason above.
- PlaceholderTargetFor: the default URL's `.jpg?text=` query is not part of the target. That query is the first 60 UTF-16 units of the title, URI-encoded, and the target records only the dimensions. A cut that splits a surrogate pair makes `encodeURIComponent` throw, which sends the source to the SVG without a fetch. The model does not capture that throw.
- AiService.Generate: the image prompt text (`imagePrompt` with its Portuguese suffix) is not part of the image call.
- AiService.Generate: `metaTags` is taken from the parsed answer as a list or `[]`. JSON values other than strings are represented by their truthiness, their array-ness and their printed form.
- Dashboard: `Date` is modelled by a `Calendar`. A `Calendar` gives each interval's next instant, plus the UTC date and the local date of an instant. Time zones, DST and `setMonth` overflow live inside those inputs.
- Dashboard.IsoDateFields: `toISOString` years of five or more digits (with a sign) are not modelled; the label is stated for years below 10000.
- Dashboard.ParseRangeStart: the range gives a `Shift` (days, months or years back), not a `Date`.
- Dashboard.ParseRangeStart: `parseInt` on digit strings too long for a double is exact in the model.
- Dashboard.TopTags: `metaTags` is a list of strings, since Prisma returns `String[]`; the `|| []` and `tag || ''` null guards are not modelled.
- Dashboard.TopTagsCorrect: the order among tags with equal counts is not stated. The sort is stable and keeps first-seen order, but this is not proved.
- Dashboard.TopTags: `Number(limit)` is an integer. NaN and fractional limits are not modelled. A negative limit slices from the end, as `slice` does.
- Dashboard: `topAuthors`, `topRead`, `totalReads`, `_countByStatus` and the `overview` counts are Prisma queries or aggregations. `_avgTimeToPublishDays` is floating point and `toFixed`. None of them is modelled beyond the missing-count arithmetic.
- Dashboard: `estimateTimeseries` and `readsTimeseries` are modelled by the bucket counting they share (`Tally`); their Mongo queries are inputs.
- Queues: the BullMQ `Worker` runtime, its `completed`/`failed` listeners and retries are not modelled. A queue is its name, its connection and its creation order.
- Queues.ConnectionFor: `Number(REDIS_PORT)` for text other than blanks or plain decimal digits (hex, exponents, signs, `Infinity`) is kept as uninterpreted text, not converted.
- AiBlogQueue.ConcurrencyOf: the same applies to `Number(AI_QUEUE_CONCURRENCY)`.
- AuthGuard: `verifyIdToken` is an input: the decoded token or a failure.
- S3: `Date.now()` is an input. The `PutObject` request's outcome is a boolean.
- S3: listeners are identified by number. What a listener does when called is not modelled; the call log records that it was called with the result.
- Files.FilesService.Upload: the Prisma `File` row id and the returned model are not modelled; the result is the data passed to `create`.
- Cors: `helmet`, the Swagger set-up, `credentials: true` and the listen port are configuration only.

## Findings

| source | as written | input that shows it | evidently intended | confidence | as-written member | corrected member |
|---|---|---|---|---|---|---|
| scripts/backfill-slugs.ts:23 | `.filter(Boolean)` drops the empty slug `''` from the observed set, so an empty `clean` is never seen as taken | two blogs with null slugs titled `!` and `?`, no row holding `''`: the first gets `''`; the second is offered `''` as well, the unique slug index rejects its update, and the script exits with code 1, leaving that row and every later one with a null slug | every null slug is backfilled with a unique slug, as in the service, which keeps all observed slugs | not executed | Backfill.EmptySlugCollision | Backfill.ScriptCorrectedCompletes |
| src/ai/ai.service.ts:240-275 | the SVG branch sets no content-type hint; the SVG's base64 starts `PD94`, which matches no prefix | placeholders on, no native image, the remote fetch fails: the SVG is named `cover.png` | the comment says the file is to be named `.svg` downstream | not executed | AiService.SvgPlaceholderNamedPngAsWritten | AiService.SvgPlaceholderNamedSvg |
| src/ai/ai.service.ts:231 | `\"` inside the template literal is a plain `"` inside the double-quoted `font-family` attribute | any SVG placeholder: the value ends before `Helvetica Neue`, and the `H` after it breaks the start tag (XML 1.0 section 3.1) | the family quoted with `'`, so the whole list is one attribute value | not executed | AiService.GroupTagAsWrittenBreaks | AiService.GroupTagQuotedWellFormed |

The service members (`AiService.Generate` and everything built on it, and the backfill table) follow the code as written. Each corrected definition stands beside them, with its property proved.
