# AffordableStuffStore content studio: verified core

A Dafny model of the logic in the FlashFusion content studio of the
AffordableStuffStore repository, with proofs about it:

- **the generation-job store** (`WorkerService`). It is a `Map` of job records that
  runs through `queued → processing → completed | queued (retry) | failed`,
  retries with exponential backoff, and supports cancellation, time-based cleanup
  and filtered listings;
- **the security helpers**:
  - HTML escaping;
  - log redaction by key name, with e-mail masking;
  - the per-key sliding-window rate limiter;
  - the SSRF guard for URLs;
  - the Content-Security-Policy header;
- **the brand-kit validator and linter**, and **the FFPack exporter**. The FFPack
  part covers the export, the structural validation, the importer's required-field
  check and the download file name;
- **the prompt utilities**: `fuzzyMatch` and `generatePromptText`;
- **the monitoring metrics store** of the FlashFusion protocol service. It does
  find-or-create, upsert by key, merge by id, retention filtering, and the top-3
  peak-hour ranking;
- **the prompt hash and generation response** of the asset generation service;
- **the event aggregation** of the insights worker;
- **the CSRF double-submit check** of the web middleware, and its base16 token
  (section 8 of RFC 4648, lower-case alphabet).

## How the source appears in the model

- Each source file with state becomes a module holding a class:
  - `WorkerService`, with `Job` objects whose fields are updated in place;
  - `ProtocolService`, whose `metrics` lists are reassigned;
  - `RateLimitTracker`, with its `requests` map.

  Each method states its whole new state. The invariants are `Valid()` predicates
  that every method keeps.
- Loops stay loops, proved against a specification function:
  - the hash fold, `HashPrompt`;
  - the event counting, `ProcessEvents`;
  - the fuzzy scan, `FuzzyMatch`;
  - the validator passes, `ValidateBrandKit` and `ValidateFFPack`;
  - the cleanup pass, `CleanupJobs`;
  - the prompt assembly, `GeneratePromptText`.
- Pure code becomes functions and lemmas.
- Things outside the program become parameters:
  - clocks, the current hour and time zone, random bytes and random id suffixes;
  - how an asynchronous attempt turns out;
  - the production flag;
  - the opaque transforms: the contrast check, and the regex-based card, JWT and
    script stripping.
- JavaScript values are a `Json` datatype. An object is its entries in
  `Object.entries` order. A missing optional field is `None`.
- `processJob` is split at its one `await`:
  - `StartAttempt` runs the part before it;
  - `FinishAttempt` runs the part after it, given how the attempt turned out;
  - `RetryTimerFires` is the `setTimeout` callback.

  Ghost state records the pending timers and the attempts in flight. This is what
  makes the attempt ceiling provable.

## Where the model follows the code against the design intent

The job engine was described as a hardened design, but the code does less. The
model follows the code:

- A successful attempt does not clear an `error` left by an earlier failed attempt
  (src/services/worker-service.ts:65-68).
- `cancelJob` records `"Cancelled by user"`. It does not stop a pending retry timer.
  An attempt already in flight still overwrites the cancelled record when it
  finishes (the success branch at :65, the failure branch at :71-91). A timer that
  fires resets the cancelled job to `processing` (:86, then :57). So a finished or
  cancelled job is not stable.
- `maxRetries` is a ceiling on attempts: three attempts in all, with waits of 5000
  and 10000 ms.

## Model

| member | source | states |
|---|---|---|
| WorkerService.ErrorMessage | src/services/worker-service.ts:79 | a thrown `Error` is recorded with its own message; any other thrown value with "Unknown error" |
| WorkerService.RetryDelay | src/services/worker-service.ts:76 | the wait after the n-th failure is at least the 5000 ms base delay |
| WorkerService.RetryDelaysIncrease | src/services/worker-service.ts:74-76 | each retry waits strictly longer than the one before it |
| WorkerService.DefaultRetrySchedule | src/services/worker-service.ts:12-13 | with the default ceiling of 3, the waits are 5000 ms after the first failure and 10000 ms after the second |
| WorkerService.Job.constructor | src/services/worker-service.ts:27-39 | a new record is `queued`, with no retries, no error and no result, and is created and updated at the same instant |
| WorkerService.ExpiredKeys | src/services/worker-service.ts:174-177 | a key is dropped by cleanup exactly when its job is completed or failed and was updated strictly more than `olderThanMs` ago |
| WorkerService.Kept | src/services/worker-service.ts:173-178 | the key order after deleting a set of keys: exactly the keys not deleted, in their old order |
| WorkerService.ByOrgAll | src/services/worker-service.ts:135-137 | the organisation listing holds exactly the stored jobs of that organisation |
| WorkerService.ByOrg | src/services/worker-service.ts:135-137 | the listing walks the Map order and holds only, and every one of, the organisation's stored jobs |
| WorkerService.ByStatus | src/services/worker-service.ts:142-146 | the listing walks the Map order and holds only, and every one of, the stored jobs with that status |
| WorkerService.ByStatusAll | src/services/worker-service.ts:142-146 | the status listing holds exactly the stored jobs with that status |
| WorkerService.WorkerService.constructor | src/services/worker-service.ts:11 | the store starts empty, with no timers and no attempts in flight |
| WorkerService.WorkerService.Put | src/services/worker-service.ts:41 | `jobs.set` overwrites an existing key in place and appends a new key at the end of the Map order |
| WorkerService.WorkerService.CreateJob | src/services/worker-service.ts:20-45 | the map gains exactly the new id, whose record carries the inputs, retryCount 0 and maxRetries 3; the first attempt starts before `createJob` returns, so the record comes back `processing` |
| WorkerService.WorkerService.StartAttempt | src/services/worker-service.ts:50-59 | an id no longer stored changes nothing; otherwise the record is marked `processing` at `now`, whatever its status, and one more attempt is in flight |
| WorkerService.WorkerService.RetryTimerFires | src/services/worker-service.ts:86 | a pending timer goes away and re-runs the start of `processJob` for its id |
| WorkerService.WorkerService.FinishAttempt | src/services/worker-service.ts:62-98 | success: `completed` with `asset_<now>`, the old error kept; failure: retryCount + 1 and the error recorded, then `queued` behind a timer of `RetryDelay` while below the ceiling, else `failed`; the record is written back even if it was deleted meanwhile |
| WorkerService.WorkerService.Complete | src/services/worker-service.ts:65-68 | the success branch sets `completed` and the result id and leaves retryCount and error alone |
| WorkerService.WorkerService.RecordFailure | src/services/worker-service.ts:71-97 | the failure branch counts the failure and records the message, then requeues with the backoff delay or gives up at the ceiling |
| WorkerService.WorkerService.GetJob | src/services/worker-service.ts:128-130 | an explicit not-found for an unknown id, else the stored record |
| WorkerService.WorkerService.GetJobsByOrg | src/services/worker-service.ts:135-137 | exactly the stored jobs of the organisation, in Map order |
| WorkerService.WorkerService.GetJobsByStatus | src/services/worker-service.ts:142-146 | exactly the stored jobs with the status, in Map order |
| WorkerService.WorkerService.CancelJob | src/services/worker-service.ts:151-164 | true exactly for a stored `queued` or `processing` job, which becomes `failed` with "Cancelled by user"; otherwise nothing changes |
| WorkerService.WorkerService.Delete | src/services/worker-service.ts:178 | `jobs.delete` removes the key from the map and from the Map order |
| WorkerService.WorkerService.CleanupStep | src/services/worker-service.ts:174-180 | one iteration deletes the visited key exactly when its job is expired |
| WorkerService.WorkerService.Sweep | src/services/worker-service.ts:173-181 | the loop over the keys deletes exactly the expired ones, keeps the order of the rest and counts the deletions |
| WorkerService.WorkerService.CleanupJobs | src/services/worker-service.ts:169-184 | the store loses exactly the expired jobs, every other job is untouched, and the result is the number removed |
| WorkerService.AlwaysFailingScenario | src/services/worker-service.ts:71-91 | a job whose every attempt throws is retried after 5000 and 10000 ms, then ends `failed` with retryCount 3, "Unknown error" for a non-`Error` throw, and no timer or attempt left |
| WorkerService.EventualSuccessScenario | src/services/worker-service.ts:65-86 | two failures and a success: `completed` with a result after three attempts, still carrying the second failure's error |
| WorkerService.CancelScenario | src/services/worker-service.ts:151-163 | cancelling twice gives true then false, and the attempt already in flight still overwrites the cancellation with `completed` (:65-68) |
| WorkerService.CancelledRetryScenario | src/services/worker-service.ts:86 | a job cancelled while its retry timer is pending is back in `processing` when the timer fires (:57) |
| WorkerService.FailThenRetry | src/services/worker-service.ts:71-86 | a failed attempt below the ceiling followed by its timer gives the next attempt, with the error and the backoff delay recorded |
| Security.ReplaceAllAppend | src/utils/security.ts:189-193 | a global one-character replacement distributes over concatenation |
| Security.EscapeEach | src/utils/security.ts:187-194 | character-by-character escaping leaves no `< > " '` and leaves text without the five characters unchanged |
| Security.LaterReplacementsKeep | src/utils/security.ts:190-193 | the replacements after `&` leave the entities they insert alone |
| Security.EscapeHtmlAmp | src/utils/security.ts:189 | `&` becomes `&amp;` |
| Security.EscapeHtmlLt | src/utils/security.ts:190 | `<` becomes `&lt;` |
| Security.EscapeHtmlGt | src/utils/security.ts:191 | `>` becomes `&gt;` |
| Security.EscapeHtmlQuot | src/utils/security.ts:192 | `"` becomes `&quot;` |
| Security.EscapeHtmlApos | src/utils/security.ts:193 | `'` becomes `&#039;` |
| Security.EscapeHtmlOne | src/utils/security.ts:187-194 | the chain of replacements escapes a single character to its entity, or leaves it |
| Security.EscapeHtmlAppend | src/utils/security.ts:187-194 | escaping distributes over concatenation |
| Security.EscapeHtmlIsPerChar | src/utils/security.ts:187-194 | the replacement chain, `&` first, equals escaping each character on its own, so nothing is escaped twice |
| Security.EscapeEachAmpersands | src/utils/security.ts:187-194 | every `&` of the escaped text starts one of the five entities |
| Security.EscapeHtmlSafe | src/utils/security.ts:187-194 | the output has none of `< > " '`, every `&` starts an entity, and input without the five characters is returned unchanged |
| Security.UnescapeEscapeHtml | src/utils/security.ts:187-194 | escaping loses nothing: reading the entities back gives the input |
| Security.SanitizeUserInput | src/utils/security.ts:200-211 | whatever the stripping pass leaves, the result is its escape and holds none of `< > " '` |
| Security.Pattern | src/utils/security.ts:13-24 | each sensitive pattern has one to three spellings (`[_-]?` gives three) |
| Security.PatternCodeUnits | src/utils/security.ts:13-24 | the patterns' words are ASCII, so matching their characters is matching their UTF-16 code units |
| Security.SearchFrom | src/utils/security.ts:80 | the search from `lastIndex`, a code-unit index into the key, finds nothing exactly when no spelling occurs at or after it |
| Security.TestGlobal | src/utils/security.ts:80 | a `g`-flag test searches the key's UTF-16 code units from `lastIndex`; a miss resets `lastIndex` to 0 |
| Security.IsSensitiveKeyAsWritten | src/utils/security.ts:79-81 | the as-written test threads the ten patterns' `lastIndex` values from call to call |
| Security.FreshPatternsAgree | src/utils/security.ts:79-81 | with fresh patterns, the as-written test gives the case-insensitive substring answer |
| Security.AstralKeyMovesLastIndex | src/utils/security.ts:79-81 | `lastIndex` counts code units: after `"\u{1F600}password"` the first pattern's `lastIndex` is 10, so the next key `"123456789password"`, sensitive as it is, matches nothing |
| Security.ShortKeyMissedFrom10 | src/utils/security.ts:79-81 | with the first pattern's `lastIndex` at 10, a key shorter than 18 code units without the letters t, i, f, n, c matches no pattern |
| Security.PasswordAtSensitive | src/utils/security.ts:14 | a key holding `password` anywhere is sensitive |
| Security.StaleLastIndexMissesKey | src/utils/security.ts:79-81 | `password` is sensitive and is found on the first call, but the `lastIndex` that match leaves makes the second call miss it |
| Security.PasswordFirstTest | src/utils/security.ts:14 | a fresh test of `password` matches the first pattern and leaves its `lastIndex` at 8 |
| Security.PasswordSecondTest | src/utils/security.ts:13-24 | with the first pattern's `lastIndex` at 8, `password` matches no pattern |
| Security.RunEnd | src/utils/security.ts:29 | the greedy character-class run ends at the first character outside the class |
| Security.LastTld | src/utils/security.ts:29 | backtracking picks the last `.` followed by two or more letters |
| Security.EmailMatchAt | src/utils/security.ts:29 | a match of `EMAIL_PATTERN` starting at an index ends after it and within the text |
| Security.EmailMatchShape | src/utils/security.ts:29 | a match is a local part, exactly one `@` and a domain of domain characters |
| Security.MaskEmailKeepsDomain | src/utils/security.ts:90-100 | the mask is the first two local characters (none when shorter), `***@` and the unchanged domain; the `***@invalid` branch is never taken on a match |
| Security.RedactNoAt | src/utils/security.ts:90 | text without `@` holds no address and is unchanged by the e-mail pass |
| Security.SanitizeString | src/utils/security.ts:86-109 | without `@` only the card and JWT redaction changes the text |
| Security.MatchMasked | src/utils/security.ts:90-100 | every e-mail match is replaced by its masked form, with the domain unchanged |
| Security.SanitizeForLog | src/utils/security.ts:45-74 | nullish, boolean and number values come back unchanged, strings are sanitized, arrays keep their length, objects keep their keys in order |
| Security.SanitizeForLogRedacts | src/utils/security.ts:61-67 | in the result, every sensitive key at any depth holds only "***REDACTED***" |
| Security.InWindow | src/utils/security.ts:272 | a timestamp is kept exactly when `now - t < windowMs` |
| Security.InWindowTwice | src/utils/security.ts:272 | filtering the window twice is filtering it once |
| Security.InWindowAppend | src/utils/security.ts:272 | the window filter distributes over concatenation, so it keeps the order of the timestamps |
| Security.RateLimitTracker.constructor | src/utils/security.ts:258-262 | an empty tracker with the given limit and window |
| Security.RateLimitTracker.Default | src/utils/security.ts:258 | the default tracker allows 100 requests per hour |
| Security.RateLimitTracker.GetRemaining | src/utils/security.ts:287-293 | `max(0, limit - in-window count)`, with no state change: zero exactly when the window is full |
| Security.RateLimitTracker.IsAllowed | src/utils/security.ts:267-282 | refuses, storing nothing, exactly when the window is full; otherwise stores the in-window timestamps plus `now` for that key only; no key ever holds more than `limit` timestamps |
| Security.RateLimitTracker.Reset | src/utils/security.ts:298-300 | removes only that key, after which it has `max(0, limit)` requests left |
| Security.AllowedConsumesOne | src/utils/security.ts:272-279 | after an accepted request, the key has one more request in its window (with a positive window) |
| Security.IsUrlSafe | src/utils/security.ts:312-344 | true exactly for a parsed http/https URL whose host is not a private or metadata host and, with a non-empty allowlist, ends with an allowed domain |
| Security.AllowlistIsPlainSuffix | src/utils/security.ts:337 | the allowlist check is a plain suffix test: `evilexample.com` passes for `example.com` |
| Security.MetadataHostRefused | src/utils/security.ts:330 | the cloud metadata address is refused whatever the allowlist |
| Security.CspHeaderOf | src/utils/security.ts:231-235 | one directive gives just its own `name sources` line |
| Security.CspHeaderAppend | src/utils/security.ts:231-235 | each further directive adds `; ` and its own line |
| BrandKitValidation.FormattedColorIsValid | src/utils/brandkit-validation.ts:13-15 | every 24-bit colour written as `#` and six zero-padded hex digits is accepted |
| BrandKitValidation.HexColorLength | src/utils/brandkit-validation.ts:13-15 | an accepted colour starts with `#` and has 4 or 7 characters |
| BrandKitValidation.HexColorIgnoresCase | src/utils/brandkit-validation.ts:14 | `[A-Fa-f0-9]` accepts either case: a colour passes exactly when its lower-cased form does |
| BrandKitValidation.FindUsage | src/utils/brandkit-validation.ts:89-90 | `find` returns a colour with the usage exactly when there is one, and it is the first colour with that usage |
| BrandKitValidation.ValidateBrandKit | src/utils/brandkit-validation.ts:40-158 | the entries are the name, colour, font, logo and guideline checks in that order, and `valid` holds exactly when none has severity error |
| BrandKitValidation.CheckColors | src/utils/brandkit-validation.ts:53-101 | the colour section: an error for a missing or empty list, else the primary warning, the per-colour entries and the contrast warning |
| BrandKitValidation.CheckEachColor | src/utils/brandkit-validation.ts:71-86 | the `forEach` adds each colour's hex and name errors in index order |
| BrandKitValidation.CheckFonts | src/utils/brandkit-validation.ts:104-134 | the font section: a warning for a missing or empty list, else each font's name, family and weights entries |
| BrandKitValidation.CountsNoErrors | src/utils/brandkit-validation.ts:155 | the count of error entries is zero exactly when no entry is an error |
| BrandKitValidation.NoErrorsAppend | src/utils/brandkit-validation.ts:155 | a concatenation has no errors exactly when neither part has any |
| BrandKitValidation.ValidIff | src/utils/brandkit-validation.ts:44-157 | a kit is valid exactly when it has a non-blank name, a non-empty colour list of well-formed colours, and no font with a blank name or family; warnings never make it invalid |
| BrandKitValidation.NameNoErrors | src/utils/brandkit-validation.ts:44-50 | the name check errs exactly for a missing or blank name |
| BrandKitValidation.ColorsNoErrors | src/utils/brandkit-validation.ts:53-101 | the colour checks err exactly for a missing or empty list or a colour with a bad hex or blank name |
| BrandKitValidation.FontsNoErrors | src/utils/brandkit-validation.ts:104-134 | the font checks err exactly for a font with a blank name or family; a missing list is only a warning |
| BrandKitValidation.InvalidHexReported | src/utils/brandkit-validation.ts:72-78 | an invalid hex of colour i is reported as an error on `colors[i].hex`, with the value in the message |
| BrandKitValidation.IndexedFieldsDistinct | src/utils/brandkit-validation.ts:74 | different list entries are reported on different fields |
| BrandKitValidation.ContrastWarningNeedsBoth | src/utils/brandkit-validation.ts:89-100 | the low-contrast warning appears only when both a primary and a neutral colour exist and the contrast check refused them |
| BrandKitValidation.FontEachNoContrast | src/utils/brandkit-validation.ts:104-134 | the font section never adds the contrast warning |
| BrandKitValidation.ColorEachNoContrast | src/utils/brandkit-validation.ts:71-86 | the per-colour entries are all errors |
| BrandKitValidation.LintBrandKit | src/utils/brandkit-validation.ts:163-201 | only warnings and at most three, in check order (colours, fonts, tone): one for fewer than 3 or more than 10 colours, one for more than 3 fonts, one for a missing tone or one that splits into fewer than 10 pieces |
| BrandKitValidation.ToneRuleCountsSpaces | src/utils/brandkit-validation.ts:192 | a non-empty tone passes exactly when it holds at least nine spaces |
| FFPackExport.AssetTypes | src/utils/ffpack-export.ts:33 | the asset types, one per asset, in order |
| FFPackExport.PackMetadataOf | src/utils/ffpack-export.ts:31-34 | `totalAssets` is the asset count; `assetTypes` lists each occurring type exactly once |
| FFPackExport.ExportFFPack | src/utils/ffpack-export.ts:12-53 | version `1.0.0`, the name and description kept, one pack asset per asset in order (type, name, provenance and metadata copied, non-text content as `[Binary Data]`), a brand kit exactly when one is given, presets exactly when a non-empty list is given |
| FFPackExport.ExportedTypesInFirstOrder | src/utils/ffpack-export.ts:33 | `assetTypes` is in first-appearance order |
| FFPackExport.AssetsJson | src/utils/ffpack-export.ts:24-30 | the exported assets as plain values, one per asset |
| FFPackExport.ValidateFFPack | src/utils/ffpack-export.ts:125-156 | the messages are the header checks then `Asset i: missing …` per asset, `valid` exactly when there are none, and a nullish asset throws |
| FFPackExport.CheckAssets | src/utils/ffpack-export.ts:139-149 | the `forEach` collects every asset's messages in order, or the error of the first nullish asset |
| FFPackExport.AssetEachStopsAtError | src/utils/ffpack-export.ts:139-149 | once an asset throws, the whole validation throws that error |
| FFPackExport.ValidIff | src/utils/ffpack-export.ts:125-156 | a pack is valid exactly when its version and name are truthy, `assets` is an array, and every asset has a truthy type, name and provenance |
| FFPackExport.PackAssetJsonReads | src/utils/ffpack-export.ts:24-30 | an exported asset always has a type and a provenance, and has a name exactly when it is non-empty |
| FFPackExport.PackJsonReads | src/utils/ffpack-export.ts:19-35 | an exported pack has a version and name exactly when they are non-empty, and its assets as an array |
| FFPackExport.ExportPassesValidation | src/utils/ffpack-export.ts:19-30 | with a non-empty pack name and non-empty asset names, the export passes `validateFFPack` |
| FFPackExport.PackPassesValidation | src/utils/ffpack-export.ts:125-156 | any pack with a version, a name and named assets passes validation |
| FFPackExport.ParseFFPack | src/utils/ffpack-export.ts:83-98 | an accepted value is returned as it was read |
| FFPackExport.ParseRequiresFields | src/utils/ffpack-export.ts:87-89 | the importer refuses exactly the values whose version, name or assets is falsy |
| FFPackExport.ParsedPassesHeader | src/utils/ffpack-export.ts:87-95 | a value the importer accepts passes the validator's header checks, and each of its assets has a provenance |
| FFPackExport.ExportParses | src/utils/ffpack-export.ts:19-35 | an exported pack with a non-empty name reads back unchanged |
| FFPackExport.DropWhiteSpace | src/utils/ffpack-export.ts:72 | a suffix of the name that does not start with white space |
| FFPackExport.CollapseWhiteSpace | src/utils/ffpack-export.ts:72 | no white space survives `replace(/\s+/g, '-')`, and the text does not grow |
| FFPackExport.Slug | src/utils/ffpack-export.ts:72 | the slug has no white space and no upper-case ASCII letter |
| FFPackExport.DownloadFileName | src/utils/ffpack-export.ts:72 | the file name is the slug followed by `.ffpack.json` |
| FFPackExport.CollapseNoWhiteSpace | src/utils/ffpack-export.ts:72 | text without white space is not changed by the replacement |
| FFPackExport.SlugIdempotent | src/utils/ffpack-export.ts:72 | the slug of a slug is the slug |
| FlashFusionUtils.Scanned | src/utils/flashfusion.ts:170-176 | the greedy scan never gets past the end of the query |
| FlashFusionUtils.FuzzyMatch | src/utils/flashfusion.ts:160-179 | true exactly when the UTF-16 code units of the lower-cased query are a subsequence of those of the lower-cased text |
| FlashFusionUtils.SubstringIsSubseq | src/utils/flashfusion.ts:167 | the substring shortcut never changes the answer |
| FlashFusionUtils.ScannedIff | src/utils/flashfusion.ts:170-178 | the scan reaches the end of the query exactly when the query is a subsequence |
| FlashFusionUtils.SubseqLength | src/utils/flashfusion.ts:172 | a subsequence is never longer than the text |
| FlashFusionUtils.SubseqTrans | src/utils/flashfusion.ts:160-179 | a subsequence of a subsequence is a subsequence |
| FlashFusionUtils.SubseqToLower | src/utils/flashfusion.ts:163-164 | lower-casing keeps subsequences |
| FlashFusionUtils.SubseqCodeUnits | src/utils/flashfusion.ts:170-176 | characters in order give code units in order |
| FlashFusionUtils.CharacterMatchMatches | src/utils/flashfusion.ts:160-179 | a query whose lower-cased characters occur in order in the lower-cased text matches |
| FlashFusionUtils.SurrogateHalvesMatch | src/utils/flashfusion.ts:170-176 | the scan compares code units: `"\u{1F601}"` matches `"\u{1F400}\u{20601}"` through surrogate halves of two different characters, though it is not a character subsequence |
| FlashFusionUtils.EmptyQueryMatches | src/utils/flashfusion.ts:161 | the empty query matches every text |
| FlashFusionUtils.LongQueryFails | src/utils/flashfusion.ts:160-179 | a query whose `length` exceeds the text's never matches |
| FlashFusionUtils.ShorterQueryMatches | src/utils/flashfusion.ts:160-179 | deleting characters from a matching query keeps it matching |
| FlashFusionUtils.MatchIgnoresCase | src/utils/flashfusion.ts:163-164 | the match ignores ASCII case |
| FlashFusionUtils.GeneratePromptText | src/utils/flashfusion.ts:99-124 | the non-empty sections rendered in order, joined with a blank line |
| FlashFusionUtils.RenderedUnfold | src/utils/flashfusion.ts:107-121 | the parts are Context, Task, Constraints and Tone, each present only when non-empty |
| FlashFusionUtils.RenderedCount | src/utils/flashfusion.ts:105-121 | there are as many parts as non-empty sections |
| FlashFusionUtils.RenderedParts | src/utils/flashfusion.ts:107-121 | each non-empty section appears as `**Label:**` and a newline, then its text |
| FlashFusionUtils.EmptyPrompt | src/utils/flashfusion.ts:123 | the prompt is empty exactly when every section is |
| FlashFusionUtils.TaskOnlyPrompt | src/utils/flashfusion.ts:111-113 | a prompt with only a task is `**Task:**`, a newline and the task |
| FlashFusionProtocol.FindIndex | src/services/flashfusion-protocol.ts:306-308 | the first index whose key matches, or none when no item has the key |
| FlashFusionProtocol.TrackedEntries | src/services/flashfusion-protocol.ts:268-300 | a new user gets one entry at the end, with activity 1, peak hour and active hours the current hour; an existing user's activity rises by exactly 1 and the current hour is among its active hours; other users' entries are untouched |
| FlashFusionProtocol.TrackedKeepsUnique | src/services/flashfusion-protocol.ts:268-300 | one entry per user stays so, and active hours never repeat |
| FlashFusionProtocol.TouchedDistinct | src/services/flashfusion-protocol.ts:296-300 | the current hour is added only when absent |
| FlashFusionProtocol.UpsertProperties | src/services/flashfusion-protocol.ts:305-329 | an upsert grows the list by one exactly when the key is new, replaces the item with the key otherwise, leaves other keys alone and keeps keys unique |
| FlashFusionProtocol.MergeTechDebtLaws | src/services/flashfusion-protocol.ts:340-343 | an empty update changes nothing, merging twice is merging once, and for each of the eight fields a value given wins and a field left out is kept |
| FlashFusionProtocol.MergeIncidentLaws | src/services/flashfusion-protocol.ts:357-360 | the same laws for each of the ten incident fields, and an explicit `undefined` clears an optional field |
| FlashFusionProtocol.MergeGapLaws | src/services/flashfusion-protocol.ts:377-380 | the same laws for each of the eight documentation-gap fields |
| FlashFusionProtocol.UpdatedDebtProperties | src/services/flashfusion-protocol.ts:336-346 | the length is kept; the first item with the id becomes its merge with the updates and every other index, later items with the same id included, is unchanged; nothing changes when no item has the id |
| FlashFusionProtocol.UpdatedIncidentsProperties | src/services/flashfusion-protocol.ts:353-363 | the length is kept; the first incident with the id becomes its merge with the updates and every other index is unchanged; nothing changes when no incident has the id |
| FlashFusionProtocol.UpdatedGapsProperties | src/services/flashfusion-protocol.ts:370-383 | the length is kept; the first gap with the id becomes its merge with the updates and every other index is unchanged; nothing changes when no gap has the id |
| FlashFusionProtocol.RecentIncidentsMembers | src/services/flashfusion-protocol.ts:412-414 | an incident is kept exactly when it started after the cutoff |
| FlashFusionProtocol.RetainedDebtMembers | src/services/flashfusion-protocol.ts:417-419 | debt is kept exactly when it is not resolved or was identified after the cutoff |
| FlashFusionProtocol.RecentIncidentsAppend | src/services/flashfusion-protocol.ts:412-414 | the incident filter keeps relative order |
| FlashFusionProtocol.RetainedDebtAppend | src/services/flashfusion-protocol.ts:417-419 | the debt filter keeps relative order |
| FlashFusionProtocol.UnresolvedDebtKept | src/services/flashfusion-protocol.ts:417-419 | unresolved debt is never removed |
| FlashFusionProtocol.HoursFrom | src/services/flashfusion-protocol.ts:164 | `Object.entries` lists the counted hours of the day in ascending order |
| FlashFusionProtocol.HoursFromCovers | src/services/flashfusion-protocol.ts:164 | every counted hour of the day is listed by `Object.entries` |
| FlashFusionProtocol.InsertByCount | src/services/flashfusion-protocol.ts:165 | one insertion step of the sort adds exactly the inserted hour |
| FlashFusionProtocol.SortByCount | src/services/flashfusion-protocol.ts:165 | the sort is a permutation of the hours |
| FlashFusionProtocol.SortRanked | src/services/flashfusion-protocol.ts:165 | the stable sort by descending count orders ties by the smaller hour |
| FlashFusionProtocol.Ranking | src/services/flashfusion-protocol.ts:164-165 | the ranking lists only counted hours |
| FlashFusionProtocol.RankingCovers | src/services/flashfusion-protocol.ts:164-165 | every counted hour of the day is ranked |
| FlashFusionProtocol.PeakHoursRanked | src/services/flashfusion-protocol.ts:164-169 | at most three distinct counted hours, by descending count, ties by the smaller hour |
| FlashFusionProtocol.PeakHoursComplete | src/services/flashfusion-protocol.ts:166 | fewer than three peak hours only when every counted hour is one |
| FlashFusionProtocol.PeakHoursBeatTheRest | src/services/flashfusion-protocol.ts:164-169 | every peak hour has a count at least that of every hour not chosen |
| FlashFusionProtocol.CollectedCounts | src/services/flashfusion-protocol.ts:159-169 | one collection adds 1 to the current hour's count, leaves other hours alone and ranks the peak hours afresh |
| FlashFusionProtocol.UpdatedPeaksProperties | src/services/flashfusion-protocol.ts:137-169 | a time zone's pattern is created at most once and at the end, other time zones are untouched, and time zones stay unique |
| FlashFusionProtocol.FirstCollection | src/services/flashfusion-protocol.ts:137-169 | the first collection of a fresh service leaves one pattern, for the time zone, with a count of 1 in the current hour, which is its only peak hour |
| FlashFusionProtocol.ProtocolService.constructor | src/services/flashfusion-protocol.ts:22-28 | with no saved metrics every list starts empty; when the configuration enables monitoring (the default, :39), the initial collection of `startMonitoring` (:110-111, :121-123) records the current hour in the time zone's new peak pattern, and the invariant holds |
| FlashFusionProtocol.ProtocolService.TrackCreatorBehavior | src/services/flashfusion-protocol.ts:268-303 | the behaviour list becomes `Tracked` of the old one, nothing else changes, and the invariant is kept |
| FlashFusionProtocol.ProtocolService.UpdatePeakPatterns | src/services/flashfusion-protocol.ts:137-170 | the pattern list becomes `UpdatedPeaks` of the old one for the current hour of the day, and the invariant is kept |
| FlashFusionProtocol.ProtocolService.AddPODSuccessRate | src/services/flashfusion-protocol.ts:305-316 | an upsert keyed by channel, keeping channels unique |
| FlashFusionProtocol.ProtocolService.UpdateIntegrationHealth | src/services/flashfusion-protocol.ts:318-329 | an upsert keyed by channel name, keeping names unique |
| FlashFusionProtocol.ProtocolService.AddTechDebt | src/services/flashfusion-protocol.ts:331-334 | appends exactly the item at the end |
| FlashFusionProtocol.ProtocolService.AddIncident | src/services/flashfusion-protocol.ts:348-351 | appends exactly the item at the end |
| FlashFusionProtocol.ProtocolService.AddDocumentationGap | src/services/flashfusion-protocol.ts:365-368 | appends exactly the item at the end |
| FlashFusionProtocol.ProtocolService.UpdateTechDebt | src/services/flashfusion-protocol.ts:336-346 | merges the updates into the first item with the id, else nothing |
| FlashFusionProtocol.ProtocolService.UpdateIncident | src/services/flashfusion-protocol.ts:353-363 | merges the updates into the first incident with the id, else nothing |
| FlashFusionProtocol.ProtocolService.UpdateDocumentationGap | src/services/flashfusion-protocol.ts:370-383 | merges the updates into the first gap with the id, else nothing |
| FlashFusionProtocol.ProtocolService.ClearOldData | src/services/flashfusion-protocol.ts:406-422 | replaces incidents and tech debt by their retained parts and leaves the other lists alone |
| FlashFusionProtocol.TrackKeepsValid | src/services/flashfusion-protocol.ts:268-300 | tracking keeps one entry per user and repeat-free active hours |
| FlashFusionProtocol.PeaksKeepValid | src/services/flashfusion-protocol.ts:137-169 | collecting in an hour of the day keeps time zones unique and counts only hours of the day |
| FlashFusionProtocol.PodUpsertKeepsValid | src/services/flashfusion-protocol.ts:305-316 | the success-rate upsert keeps the invariant |
| FlashFusionProtocol.HealthUpsertKeepsValid | src/services/flashfusion-protocol.ts:318-329 | the health upsert keeps the invariant |
| AssetGeneration.ToInt32 | src/services/asset-generation.ts:25-26 | the signed 32-bit integer congruent to the input modulo 2^32 |
| AssetGeneration.ToInt32Congruent | src/services/asset-generation.ts:25-26 | congruent numbers wrap to the same 32-bit value |
| JsString.CodeUnits | src/services/asset-generation.ts:22-23 | `charCodeAt` and `length` see one or two 16-bit code units per character |
| JsString.CodeUnitsAppend | src/services/asset-generation.ts:22-23 | the code units of a concatenation are those of its parts, in order |
| JsString.CodeUnitsCons | src/utils/flashfusion.ts:170-176 | a string's code units are its first character's, then the rest's |
| JsString.CodeUnitsBmp | src/utils/security.ts:80 | a string of characters below U+10000 has one code unit per character, its own value |
| JsString.CodeUnitsToLowerLength | src/utils/flashfusion.ts:163-164 | lower-casing keeps `length` |
| AssetGeneration.ShiftStepIsStep | src/services/asset-generation.ts:25-26 | `(h << 5) - h + c` then `hash & hash` is `31 * h + c` wrapped to 32 bits |
| AssetGeneration.HashAppend | src/services/asset-generation.ts:22-27 | the hash of `s + [c]` is one step applied to the hash of `s` |
| AssetGeneration.HashPrompt | src/services/asset-generation.ts:18-30 | the loop computes the fold of the step over the code units, written as hex of its absolute value |
| AssetGeneration.PromptHashShape | src/services/asset-generation.ts:29 | one to eight lower-case hex digits, never signed, no leading zero; the empty prompt hashes to "0" |
| AssetGeneration.PromptHashReadsBack | src/services/asset-generation.ts:29 | read back as hex, the hash is the absolute value of the 32-bit fold |
| AssetGeneration.EstimatedTime | src/services/asset-generation.ts:250-259 | the estimate is between 2 and 5 seconds |
| AssetGeneration.EstimatedTimeOrder | src/services/asset-generation.ts:251-256 | text < image < music < video, so the table is one-to-one |
| AssetGeneration.Generate | src/services/asset-generation.ts:196-207 | the response is `queued`, with the estimate for the request's type and a `job_` id |
| AssetGeneration.JobIdInjective | src/services/asset-generation.ts:197 | a job id determines its timestamp and its suffix |
| InsightsWorker.CountOf | apps/workers/insights/src/index.ts:53-56 | a type's count is at most the number of events |
| InsightsWorker.CountsMeaning | apps/workers/insights/src/index.ts:53-56 | a type has an entry exactly when some event has it, and the entry is that type's number of events |
| InsightsWorker.CountsSumToTotal | apps/workers/insights/src/index.ts:53-56 | the counts add up to the number of events |
| InsightsWorker.UserIds | apps/workers/insights/src/index.ts:65 | exactly the truthy user ids, in order |
| InsightsWorker.UniqueCountMeaning | apps/workers/insights/src/index.ts:64-66 | the unique-user count is the number of distinct non-empty ids, at most the number of events |
| InsightsWorker.AnonymousEventIgnored | apps/workers/insights/src/index.ts:53-66 | an event without a user id, or with an empty one, counts toward its type but not toward the users |
| InsightsWorker.ProcessEvents | apps/workers/insights/src/index.ts:49-74 | the loop's counts and the user count give the two insights, `event_counts` then `unique_users` |
| InsightsWorker.EmptyInsights | apps/workers/insights/src/index.ts:49-74 | no events give `{}` and a count of 0 |
| InsightsWorker.InsightsMeaning | apps/workers/insights/src/index.ts:49-74 | two insights in order; every occurring type has its exact count; no other type appears |
| Middleware.HexByte | apps/web/src/middleware.ts:23 | each byte gives two lower-case hex digits that decode back to it |
| Middleware.HexByteIsPadStart | apps/web/src/middleware.ts:23 | the digits are `toString(16).padStart(2, '0')` |
| Middleware.HexEncode | apps/web/src/middleware.ts:22-24 | two characters per byte |
| Middleware.HexEncodeDigits | apps/web/src/middleware.ts:22-24 | every character of the token is a lower-case hex digit |
| Middleware.HexRoundTrip | apps/web/src/middleware.ts:22-24 | decoding the token gives back the bytes |
| Middleware.HexEncodeInjective | apps/web/src/middleware.ts:22-24 | different bytes give different tokens |
| Middleware.HandleRequest | apps/web/src/middleware.ts:4-35 | a 403 "Invalid CSRF token" exactly when the check rejects; otherwise a new cookie exactly when none was sent |
| Middleware.SafeMethodsPass | apps/web/src/middleware.ts:8 | GET and HEAD are never rejected |
| Middleware.NoCookieRejected | apps/web/src/middleware.ts:8-14 | a state-changing request without the cookie is always rejected, before any cookie is issued |
| Middleware.UnsafeMethodPassesIff | apps/web/src/middleware.ts:8-15 | a state-changing request passes exactly when header and cookie hold the same non-empty token |
| Middleware.NewSessionCookie | apps/web/src/middleware.ts:17-32 | a new session gets `csrf-token`: 64 lower-case hex characters that decode to the random bytes, httpOnly, SameSite strict, one day, secure in production |
| FlashFusionTypes.AssetTypeName | src/types/flashfusion.ts:13 | every asset type has a non-empty name |
| JsSet.Dedup | src/utils/ffpack-export.ts:33 | a `Set` built from a list holds each element once, and only the list's elements |
| JsSet.DedupOrder | src/utils/ffpack-export.ts:33 | a `Set` iterates in first-insertion order |
| JsString.ParseNatToString | src/services/asset-generation.ts:29 | `toString(16)` and `toString(10)` of a non-negative integer read back to it |
| JsString.SplitCount | src/utils/brandkit-validation.ts:192 | `split` gives one piece more than there are separators |
| JsString.JoinSplit | src/utils/brandkit-validation.ts:192 | joining the pieces of a split gives back the string |

## Left out

- Persistence and timers of the protocol service are left out: `localStorage`, the periodic `setInterval` collection, console alerts and the JSON export and import with a date reviver (src/services/flashfusion-protocol.ts:31-135, 235-264, 424-438). They are browser I/O. A saved configuration enters the constructor only as its `enabled` flag, and saved metrics are not modelled.
- FlashFusionProtocol.ProtocolService.constructor: of the initial `collectMetrics`, only `updatePeakPatterns` is modelled. The threshold update, the `lastUpdated` stamp, saving and the alert check are left out, as above.
- The protocol service's `getPerformanceData` and `updateScalabilityThresholds` are left out (src/services/flashfusion-protocol.ts:172-233). They are simulated floating-point thresholds. The `scalabilityThresholds` list and the `lastUpdated` stamp they write are not part of the metrics record.
- The protocol service's `getConfig`, `updateConfig` and `getMetrics` are left out. `getMetrics` hands out the live object, and that aliasing is not modelled. The retention period enters `ClearOldData` only through its cutoff.
- FlashFusionProtocol.ProtocolService.TrackCreatorBehavior and UpdatePeakPatterns take the current instant, the local hour and the time zone as parameters, in place of `new Date()`, `getHours()` and `Intl`. Dates are integer timestamps.
- FlashFusionProtocol.ProtocolService.UpdatePeakPatterns requires the hour to be an hour of the day. That is what `getHours()` returns. The ranking lists only such hours.
- A `Partial<…>` update is a record of options. An explicit `undefined` is expressible only for the optional fields of the record. A required field set to `undefined` by a caller is not modelled.
- The sort of the peak hours is modelled by a stable insertion sort. `Array.prototype.sort` is stable, and its comparator only sees counts.
- WorkerService: `cleanupJobs`'s default age of 24 hours is a value the caller passes as `olderThanMs`.
- WorkerService: `executeJob`'s wait and simulated failure, and `console` output, are left out (src/services/worker-service.ts:104-123). They use `setTimeout` and `Math.random`. How an attempt turns out is a parameter.
- WorkerService: job ids and timestamps come from `Date.now` and `Math.random`, so they are parameters. The model requires a fresh id: the source does not check, and a colliding id would overwrite the stored record.
- The `getWorkerService` singleton is left out. It is module-level plumbing.
- The asynchronous interleaving of the job engine is a sequence of method calls, each of which runs to completion. This is the semantics of the single-threaded event loop. Real time between the calls is not modelled.
- Security.SanitizeUserInput takes the regex stripping of `<script>` blocks, event-handler attributes and `javascript:` as a parameter (src/utils/security.ts:202-205). Only the final escape is modelled.
- Security.SanitizeString takes the card-number and JWT replacements as a parameter (src/utils/security.ts:103-106).
- `SecureLogger` is left out (src/utils/security.ts:114-181). It formats and writes to the console.
- `SECURITY_HEADERS` is left out (src/utils/security.ts:240-247). It is a constant table.
- Security.IsUrlSafe takes the result of `new URL(url)` as a parsed protocol and hostname, or none when the constructor throws. WHATWG URL parsing, which also normalises hosts, is not modelled.
- Security.SanitizeForLog: objects are their own enumerable entries. Class instances, `Date`s, functions, symbols and cyclic values are not modelled. Numbers are integers.
- Lower-casing and case-insensitive matching are modelled on ASCII letters only. `toLowerCase` on other letters is not modelled.
- The contrast check `hasGoodContrast` is left out (src/utils/brandkit-validation.ts:20-35). It is floating-point luminance arithmetic and enters the validator as an opaque predicate.
- The FFPack download and file import are left out (src/utils/ffpack-export.ts:58-78, 103-120): DOM, `Blob`, `FileReader` and JSON text. The exporter and the validator work on parsed values, and the importer's date conversion keeps instants as they are.
- Token estimation is left out (src/utils/flashfusion.ts:8-43). It uses floating point and `Math.ceil`. Clipboard and file helpers, `formatDate` and `generateId` are browser or clock code.
- Asset generation: the mock generators and `processGenerationJob` are left out (src/services/asset-generation.ts:35-185, 209-248). They use canvas, `Blob` and timers. The clock and the random job-id suffix of `generate` are parameters.
- JsString.CodeUnits maps each Unicode scalar value to UTF-16. Lone surrogates in a JavaScript string cannot be written as Dafny characters.
- The insights worker's `generateInsights` and `main` are left out (apps/workers/insights/src/index.ts:16-47, 76-86). They are Supabase I/O on a timer.
- InsightsWorker: event counts are a map, so the key order of the `eventCounts` object is not modelled. Neither are event types named like `Object.prototype` members (such as `toString`): in the source their count reads as a string concatenation.
- Middleware: the random bytes from `crypto.getRandomValues` and the production flag from `NODE_ENV` are parameters. The route matcher `config` is left out (apps/web/src/middleware.ts:37-48). It is framework configuration.

## Findings

| source | as written | input that shows it | evidently intended | confidence | as-written member | corrected member |
|---|---|---|---|---|---|---|
| src/utils/security.ts:79-81 | the shared `SENSITIVE_PATTERNS` carry the `g` flag, so each `.test` starts at the `lastIndex` the previous match left and the answer depends on earlier calls | `isSensitiveKey("password")` twice in a row: the first call is true and leaves `lastIndex` 8, the second is false, so a second log of `{password: …}` is not redacted | a case-insensitive substring test of the key that gives the same answer every time | not executed | Security.StaleLastIndexMissesKey | Security.SanitizeForLogRedacts |

The corrected test is `Security.IsSensitiveKey`. `SanitizeForLog` uses it. `Security.FreshPatternsAgree` shows that it agrees with the as-written test on freshly compiled patterns. The stale index counts UTF-16 code units, like every regular-expression index without the `u` flag. `Security.AstralKeyMovesLastIndex` shows a key with an emoji moving it one place further than its character count.
