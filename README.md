# User-profile tracker: a Dafny model

This project models the profile tracker of a chatbot agent plugin. The tracker follows three facts about each user: name, location and occupation. It is made of two hooks that the host agent runtime calls for every inbound message:

- **Evaluator** (`src/evaluators/userDataEvaluator.ts`). Its gate, `validate`, reads the first stored profile record of the user. It asks for extraction unless that record parses to an object whose three fields are truthy and whose stored `isComplete` flag is set. Its `handler` starts from that record, or from an all-null default with confidence 0. It asks a language model for an extraction. When the model's confidence is strictly higher than the stored one, it writes a new record whose three fields all come from the extraction, nulls included. It then writes a completion notice when the record is complete and its confidence is above 0.8.
- **Provider** (`src/providers/userDataProvider.ts`). It reads the cached profile, or an all-null default on a miss. It lists the missing fields in the fixed order name, location, occupation. It builds a guidance text: a "Known Information" block, then a "Missing Information" block with one fixed question per missing field.

Modules:

- `Wrappers` (`wrappers.dfy`): `Option` and `Result`.
- `UserDataTypes` (`user_data.dfy`): the `UserData` record and JavaScript truthiness of its fields (`Known`: non-null and non-empty).
- `UserDataEvaluator` (`evaluator.dfy`): the host's memory tables as the class `MemoryStore`, the gate `Validate`, the merge `MergedRecord`, the handler's decision `Decide`, and the imperative `Handler`, which reads the store, calls the model and writes through `CreateMemory`. `Handler` is proved equal to `Decide` and `AfterWrite`, and the lemmas are stated about those two functions.
- `UserDataProvider` (`provider.dfy`): `GetCacheKey`, `IsDataComplete`, the methods `GetMissingFields` and `GenerateGuidance` (local mutation, as in the source), each proved against a specification function (`MissingFields`, `Guidance`), and the read-only method `Get`.
- `ProfileConsistency` (`consistency.dfy`): facts that relate the two hooks' definitions.

Abstractions:

- The model call (`generateObject`) is a function parameter `extract: Content -> ModelReply`. It receives the current data, which the source splices into the prompt in place of `{{currentData}}` (userDataEvaluator.ts:240-243). The template also holds a `{{recentMessages}}` placeholder (userDataEvaluator.ts:76), but nothing replaces it, so the model never sees the message text; the current data is the call's only input. It may throw, report `success: false`, or return an extraction.
- A memory's `content.text` is represented by what `JSON.parse` makes of it (`Content`): text that does not parse, `null`, another JSON value, a profile object, or a completion notice. A record the handler writes is read back as itself.
- `Date.now()` is the parameter `now`. Every timestamp of one handler run uses that one value.
- The provider's `runtime.cacheManager` is the parameter `cache`. It is either a map from keys to profiles or a store whose read throws.

The model follows the code:

- The provider rethrows a failing cache read as "Failed to process user data". It does not return a degraded result.
- The handler returns `true` on every normal completion, whether or not it wrote anything. It returns `false` only when something throws.
- The gate needs the stored `isComplete` flag as well as three truthy fields.
- The only merge policy in the code is the confidence-gated one, so no fill-once merge is modelled.
- Writes add a new memory; they are not upserts. The model lists the newest memory first (see "Left out").

The evaluator writes to memory tables and the provider reads the cache manager, and the code never connects the two. So no round trip between the hooks is stated. `ProfileConsistency` relates only their definitions: the cache key equals the data table name, and both hooks judge completeness the same way.

The cache key and table name `character/userId/data` are injective when the character name has no `/` (`CacheKeyInjective`). A `/` in the character name lets two users share one key (`CacheKeyCollision`).

## Model

| member | source | states |
|---|---|---|
| UserDataEvaluator.Validate | src/evaluators/userDataEvaluator.ts:184-208 | with no record the gate runs; a first record that does not parse, is null or is not a profile object makes it run; it skips exactly when the three fields are truthy and the stored `isComplete` flag is true |
| UserDataEvaluator.FirstExtractionAgainstDefault | src/evaluators/userDataEvaluator.ts:224-252 | with no stored record the merge is against the default with confidence 0: the run fails exactly when the model call throws, and a record is written exactly when the reply succeeded with positive confidence |
| UserDataEvaluator.MergedRecord | src/evaluators/userDataEvaluator.ts:254-274 | under the confidence gate all three fields come from the extraction (nulls included), confidence becomes the new value, and the recomputed flag agrees with the new fields; `lastUpdated` is the current time |
| UserDataEvaluator.Decide | src/evaluators/userDataEvaluator.ts:219-319 | the run fails exactly when parsing throws, the model call throws, or a successful reply meets a stored null; a record is written exactly when the reply succeeded with strictly higher confidence than the stored one; the written record holds the extraction's fields, its confidence, the time and the recomputed flag |
| UserDataEvaluator.Handler | src/evaluators/userDataEvaluator.ts:211-320 | the result is `Decide`'s; the store is unchanged unless a record is written, and then it gains the record (and a notice when due); afterwards the gate is open exactly when the written flag is false |
| UserDataEvaluator.MemoryStore.CreateMemory | src/evaluators/userDataEvaluator.ts:277-286 | the new memory is prepended to its table and no other table changes |
| UserDataEvaluator.DataAndStatusTablesDiffer | src/evaluators/userDataEvaluator.ts:290-293 | the status table is never the data table |
| UserDataEvaluator.WrittenRecordReadFirst | src/evaluators/userDataEvaluator.ts:277-286 | after a write, the record just written is the first one the data table lists for the room |
| UserDataEvaluator.ConfidenceStrictlyIncreases | src/evaluators/userDataEvaluator.ts:252-267 | each write makes the confidence of the first stored record strictly greater than before |
| UserDataEvaluator.ReplayWritesNothing | src/evaluators/userDataEvaluator.ts:252 | replaying the extraction that was just written succeeds and writes nothing: equal confidence is not an improvement |
| UserDataEvaluator.GateAfterWrite | src/evaluators/userDataEvaluator.ts:269-273 | after a write, the gate stays open exactly when the extraction lacked a truthy name, location or occupation |
| UserDataEvaluator.WritesTouchOnlyOwnTables | src/evaluators/userDataEvaluator.ts:289-310 | the status table changes exactly when a record is written whose three extracted fields are truthy and whose confidence exceeds 0.8; no table other than the user's data and status tables changes |
| UserDataEvaluator.DataTableName | src/evaluators/userDataEvaluator.ts:176 | definition of the `name/userId/data` table; properties in `DataAndStatusTablesDiffer` and `ProfileConsistency.CacheKeyIsDataTable` |
| UserDataEvaluator.StatusTableName | src/evaluators/userDataEvaluator.ts:292 | definition of the `name/userId/status` table; properties in `DataAndStatusTablesDiffer` and `WritesTouchOnlyOwnTables` |
| UserDataEvaluator.DefaultRecord | src/evaluators/userDataEvaluator.ts:227-235 | definition of the all-null default with confidence 0 and `isComplete` false; properties in `FirstExtractionAgainstDefault` |
| UserDataEvaluator.CurrentData | src/evaluators/userDataEvaluator.ts:224-235 | definition of `currentData`: the parsed first record, the default when there is none, nothing when parsing throws; properties in `Decide` and `ConfidenceStrictlyIncreases` |
| UserDataEvaluator.Improves | src/evaluators/userDataEvaluator.ts:252 | definition of the strict confidence comparison; properties in `Decide`, `ConfidenceStrictlyIncreases` and `ReplayWritesNothing` |
| UserDataEvaluator.StatusDue | src/evaluators/userDataEvaluator.ts:289 | definition of the notice condition (complete and confidence above 0.8); properties in `WritesTouchOnlyOwnTables` |
| UserDataEvaluator.AfterWrite | src/evaluators/userDataEvaluator.ts:277-310 | definition of the tables after the data write and the optional notice write; properties in `Handler`, `WrittenRecordReadFirst`, `GateAfterWrite` and `WritesTouchOnlyOwnTables` |
| UserDataProvider.GetCacheKey | src/providers/userDataProvider.ts:4-6 | definition of the cache key; properties in `CacheKeyInjective`, `CacheKeyCollision` and `ProfileConsistency.CacheKeyIsDataTable` |
| UserDataProvider.IsDataComplete | src/providers/userDataProvider.ts:8-10 | definition of completeness; properties in `CompleteIffAllKnown` and `MissingEmptyIffComplete` |
| UserDataProvider.KnownInfo | src/providers/userDataProvider.ts:24-28 | definition of the known "key: value" lines; properties in `KnownInfoExact` and `KnownInfoNonEmptyIff` |
| UserDataProvider.Prompt | src/providers/userDataProvider.ts:37-43 | definition of the fixed question per field (a key that is neither tracked nor an `Object.prototype` property joins as empty text); properties in `GenerateGuidance` and `OnlyNameKnownScenario` |
| UserDataProvider.DefaultUserData | src/providers/userDataProvider.ts:56-62 | definition of the all-null default profile; properties in `CacheMissMissesAll` and `Get` |
| UserDataProvider.CompleteIffAllKnown | src/providers/userDataProvider.ts:8-10 | a profile is complete exactly when every tracked field is truthy |
| UserDataProvider.GetMissingFields | src/providers/userDataProvider.ts:12-17 | the list holds exactly the untruthy fields, in the order name, location, occupation, with no field twice and at most three entries; it is empty exactly when the profile is complete |
| UserDataProvider.MissingFieldsExact | src/providers/userDataProvider.ts:12-17 | a field is listed exactly when it is tracked and not truthy; the list has at most three entries |
| UserDataProvider.MissingFieldsOrdered | src/providers/userDataProvider.ts:12-17 | the list keeps the declared field order and has no duplicates |
| UserDataProvider.MissingEmptyIffComplete | src/providers/userDataProvider.ts:8-17 | no field is missing exactly when `isDataComplete` holds |
| UserDataProvider.KnownInfoExact | src/providers/userDataProvider.ts:24-28 | the known lines are exactly the "key: value" lines of the truthy fields; known lines and missing fields together number three |
| UserDataProvider.KnownInfoNonEmptyIff | src/providers/userDataProvider.ts:24-30 | there is a known line exactly when some tracked field is truthy |
| UserDataProvider.GenerateGuidance | src/providers/userDataProvider.ts:20-47 | the text opens with "Known Information:" exactly when some field is known; the missing block is appended exactly when the list is non-empty, with one prompt per field in order; the text is empty exactly when nothing is known and nothing is missing |
| UserDataProvider.GuidanceShape | src/providers/userDataProvider.ts:20-47 | the guidance is the known block followed, when fields are missing, by the missing header and one prompt per missing field; it opens with "Known Information:" exactly when some field is known and is empty exactly when nothing is known or missing |
| UserDataProvider.GuidanceStartsKnownIff | src/providers/userDataProvider.ts:21-32 | the guidance opens with the known block exactly when some field is truthy |
| UserDataProvider.GuidanceEmptyIff | src/providers/userDataProvider.ts:21-46 | the guidance is empty exactly when nothing is known and nothing is missing |
| UserDataProvider.Get | src/providers/userDataProvider.ts:50-82 | a failing cache read is rethrown; otherwise the profile is the cached one or the default, `missingInfo` is its missing list, `isComplete` is true exactly when that list is empty (regardless of the stored flag), `needsUpdate` is its negation, and a cache miss reports all three fields missing |
| UserDataProvider.CacheMissMissesAll | src/providers/userDataProvider.ts:56-65 | the default profile misses name, location and occupation in that order, is incomplete and has no known line |
| UserDataProvider.ReportIgnoresStoredFlag | src/providers/userDataProvider.ts:70-75 | the stored `isComplete` flag changes neither the missing list, nor completeness, nor the guidance |
| UserDataProvider.CacheKeyInjective | src/providers/userDataProvider.ts:4-6 | keys of '/'-free character names determine both the character and the user |
| UserDataProvider.CacheKeyCollision | src/providers/userDataProvider.ts:4-6 | a '/' inside a character name lets two different (character, user) pairs share one key |
| UserDataProvider.OnlyNameKnownScenario | src/providers/userDataProvider.ts:12-46 | a profile with only the name "Alex" misses location and occupation, and its guidance lists "name: Alex" and the two matching questions |
| ProfileConsistency.CacheKeyIsDataTable | src/providers/userDataProvider.ts:4-6 | the provider's cache key is the evaluator's data table name |
| ProfileConsistency.GateSkipsOnlyCompleteProfiles | src/evaluators/userDataEvaluator.ts:194-204 | the gate skips extraction only when the first record is a profile the provider calls complete |
| ProfileConsistency.WrittenFlagAgreesWithProvider | src/evaluators/userDataEvaluator.ts:269-273 | every written record's flag equals the provider's completeness of its fields, so it is never true while a field is missing |

## Left out

- The character files `src/CypherNomad.ts` and `src/CloserDealsDan.ts` hold only persona text, with no behaviour.
- The prompt template, the schema and the examples of the evaluator are text handed to the model. The model call itself is the parameter `extract`.
- `JSON.parse` and `JSON.stringify` are library code. The model represents a memory's text by its parsed form and assumes a written record parses back to itself. The model treats every stored `confidence` that is not a number as absent, so `Improves` is false against it and nothing is written. That matches JavaScript for a missing key (`undefined`), a plain object, and a string that is neither blank nor numeric, all of which coerce to NaN. It differs where JavaScript's `>` coerces the stored value to a number: `null`, `false`, the empty or blank string and the empty array all become 0, so a record storing one of them is overwritten by any extraction with positive confidence; `true` becomes 1. Numeric strings and one-element arrays, which also coerce to numbers, are not modelled either, nor NaN, nor truthy non-string field values.
- Confidences are exact `real` numbers. The rounding of JavaScript doubles is not modelled.
- The handler's `try` also catches failures of `getMemories` and `createMemory`. In the model, store reads and writes always succeed, so a write that throws halfway (data record written, notice not) is not represented.
- The host decides the order of `getMemories` and what `createMemory`'s `unique` flag does, and neither is visible here. The model lists the newest memory of a table first and adds every write. The lemmas about later runs (`ConfidenceStrictlyIncreases`, `ReplayWritesNothing`, `GateAfterWrite`) rely on that order.
- The default's `extractionMethod: "ambiguous"` key only reaches the prompt, so it is not modelled.
- `agentId` is the character name, as the source casts it. Several `Date.now()` calls in one run collapse into the one parameter `now`.
- UserDataProvider.Prompt: `prompts` is an ordinary object literal, so a key inherited from `Object.prototype` (`constructor`, `toString`, `valueOf`, `__proto__`) renders as that property's text in the source, while `Prompt` gives "". The one call site passes only `getMissingFields` output, which holds tracked fields only (`MissingFieldsExact`), so the program never reaches those keys.
- `generateGuidance` walks `Object.entries` of the cached object. The model assumes key order name, location, occupation, and a cached object with no keys beyond `UserData`'s. An extra truthy key such as `confidence` would add a line in the source.
- Logging, async sequencing and races between messages are not modelled. Each hook call is one sequential step.
