# Voting application: a Dafny model of its core

The voting application takes one vote per voter for a favourite programming language. Each
vote holds a name, an email, a language, a reason and a submission time. It shows the running
results as per-language counts, percentages and time-ordered lists. This project models the
logic underneath and proves what that logic promises:

- **Form validation** (`validation.dfy`).
  - `Validation` gives an exact characterisation of the email regular expression
    `^[^\s@]+@[^\s@]+\.[^\s@]+$`.
  - `FormValidation` holds the per-field validator and the lookup of a field's message.
- **JavaScript string primitives** (`jsstrings.dfy`): `trim` with the ECMAScript white-space
  set, ASCII `toLowerCase`, and `indexOf`.
- **Form reducer** (`form_slice.dfy`): the seven-action form state machine, first as a
  reference function `Reduce`, then as a class whose methods assign the fields. The model
  proves that an error and a success message are never shown together.
- **Results reducer** (`results_slice.dfy`).
  - The aggregation is written once (percentages, grouping by language, sorting each group
    by time) as three loops. Each loop is proved against a reference function.
  - Around it sits the loading/error state machine of the foreground fetch, the background
    refresh and the manual actions.
- **Tally and grouping** (`tally.dfy`, `grouping.dfy`).
  - The per-language count loop shared by the data store and the results endpoint.
  - The stable time sort and the grouping, with their permutation and ordering facts.
- **Server side.**
  - The `DataStore` class (`data_store.dfy`), with its case-insensitive upsert that always
    takes a fresh id.
  - The submissions endpoint (`submissions_route.dfy`), with validation and an exact-email
    upsert that keeps the old id.
  - The results endpoint (`results_route.dfy`).
  - The two endpoints and the store each own a separate list, as in the application.

Time and id generation are explicit parameters: `now` stands for `Date.now()` /
`new Date()`, and `freshId` for `Date.now().toString()`. Timestamps are integers, and the
ISO-8601 strings of the application are read as the instants they denote. Percentages are
exact whole hundredths of a percent: 66.67 % is `6667`.

## Model

| member | source | states |
|---|---|---|
| Validation.IsValidEmail | src/utils/validation.ts:13-16 | the computed email test: a non-empty plain part before the first `@`, and after it a plain domain of at least three characters with a dot strictly inside; proved equal to the pattern by `IsValidEmailMatchesPattern` |
| Validation.IsValidEmailMatchesPattern | src/utils/validation.ts:13-16 | `isValidEmail(s)` holds exactly when `s` is `L@D`, with `L` non-empty and free of `@` and white space, and `D` free of both and holding a dot with a character on each side (both directions) |
| Validation.ValidEmailHasNoSpace | src/app/api/submissions/route.ts:46-60 | an email that passes the pattern contains no white space, so `email.trim()` returns it unchanged |
| Validation.EmailAccepted | src/utils/validation.ts:13-16 | "test@example.com" is valid |
| Validation.EmailAcceptedDottedLocal | src/utils/validation.ts:13-16 | "user.name@domain.co.uk" is valid: dots may appear in the local part and more than once in the domain |
| Validation.EmailAcceptedTagged | src/utils/validation.ts:13-16 | "test+label@example.org" is valid |
| Validation.EmailRejectedWithoutAt | src/utils/validation.ts:13-16 | "", "invalid" and "test.example.com" are not valid |
| Validation.EmailRejectedMissingPart | src/utils/validation.ts:13-16 | "@example.com" and "test@" are not valid |
| Validation.EmailRejectedNoDot | src/utils/validation.ts:13-16 | "test@example" is not valid |
| Validation.NeedsDot | src/utils/validation.ts:14 | no string without a dot is valid |
| JsStrings.Trim | src/utils/validation.ts:22 | `trim` gives the empty string exactly when the input is all white space; otherwise its result neither begins nor ends with white space |
| JsStrings.TrimIsSlice | src/utils/validation.ts:22 | `trim` returns the input with a white-space prefix and a white-space suffix cut off |
| JsStrings.TrimNoSpace | src/app/api/submissions/route.ts:60 | trimming a string without white space leaves it unchanged |
| JsStrings.ToLower | src/lib/dataStore.ts:46 | `toLowerCase`, ASCII only: same length, each capital `A`-`Z` becomes its lower-case letter, no capital left, every non-capital kept |
| JsStrings.IndexOf | src/utils/validation.ts:14 | the position of the first occurrence of the character, or -1 exactly when it does not occur |
| FormValidation.ValidationErrors | src/utils/validation.ts:18-48 | reference definition of the validator's result: the name, email, language and reason errors in that order; its meaning is proved by `ValidIff`, `ErrorsInFieldOrder` and `FieldErrorsFromOwnValue` |
| FormValidation.ValidateFormData | src/utils/validation.ts:18-48 | the pushes produce exactly `ValidationErrors(data)`: per field, the "required" message for an empty trimmed value, otherwise the length or format message |
| FormValidation.ValidIff | src/utils/validation.ts:22-45 | no errors exactly when the trimmed name has at least 2 characters, the trimmed email is valid, the language is not empty and the trimmed reason has at least 10 characters |
| FormValidation.ErrorsInFieldOrder | src/utils/validation.ts:18-47 | at most one error per field, always in the order name, email, language, reason, so at most four |
| FormValidation.FieldErrorsFromOwnValue | src/utils/validation.ts:21-45 | a field's errors are a function of that field's value alone |
| FormValidation.FieldErrorsIndependent | src/utils/validation.ts:21-45 | changing other fields neither adds nor removes an error of a field |
| FormValidation.GetFieldError | src/utils/validation.ts:50-53 | the message of the first error naming the field, and none exactly when no error names it |
| FormValidation.GetFieldErrorIsFirstOfField | src/utils/validation.ts:50-53 | `getFieldError` returns the first of the field's own errors |
| FormValidation.FieldMessage | src/utils/validation.ts:18-53 | after validation, the message found for a field is the first message that field's own check produces |
| FormValidation.WhitespaceOnlyIsRequired | src/utils/validation.ts:21-45 | a name, email or reason of white space only draws the "required" message, never the length or format one |
| FormValidation.LanguageNotTrimmed | src/utils/validation.ts:36-38 | the language is checked without trimming: any non-empty value passes, and only "" draws its message |
| FormValidation.GetFieldErrorExamples | src/utils/validation.ts:50-53 | the lookup examples: first match found, an absent field and an empty list give none |
| FormValidation.ErrorsFor | src/utils/validation.ts:51 | the errors naming a field, in order, all taken from the list |
| Form.Reduce | src/store/slices/formSlice.ts:18-68 | no action makes an error and a success message appear together |
| Form.Run | src/store/slices/formSlice.ts:14-70 | the state reached by dispatching a sequence of actions in order, one reducer call per action |
| Form.NeverBothMessages | src/store/slices/formSlice.ts:4-68 | from the initial state, no sequence of actions reaches a state with an error and a success message both set |
| Form.RunKeepsOneMessage | src/store/slices/formSlice.ts:18-68 | the invariant "not both messages" is kept by every sequence of actions |
| Form.RunConcat | src/store/slices/formSlice.ts:14-70 | dispatching two sequences one after the other is dispatching their concatenation |
| Form.RunSnoc | src/store/slices/formSlice.ts:14-70 | dispatching one more action applies the reducer to the state reached so far |
| Form.SetFormValueWritesOneField | src/store/slices/formSlice.ts:25-30 | `setFormValue` writes the named field only, keeps `isLoading` and `successMessage`, and clears `error` only when it holds a non-empty message |
| Form.ClearFormResets | src/store/slices/formSlice.ts:51-58 | `clearForm` restores the initial state except `isLoading`, and from an idle state gives the initial state |
| Form.FormSlice.constructor | src/store/slices/formSlice.ts:4-12 | the initial state: empty fields, not loading, no messages, and an empty dispatch history |
| Form.FormSlice.SetFormValue | src/store/slices/formSlice.ts:18-31 | the named field takes the value, the others keep theirs, a non-empty error is cleared; the new state is `Reduce` of the old; the action is added to the dispatch history and no error and success message are both set |
| Form.FormSlice.SubmitVoteRequest | src/store/slices/formSlice.ts:33-37 | loading, both messages cleared, fields unchanged; the action is added to the dispatch history and no error and success message are both set |
| Form.FormSlice.SubmitVoteSuccess | src/store/slices/formSlice.ts:39-43 | not loading, the success message set, the error cleared; the action is added to the dispatch history and no error and success message are both set |
| Form.FormSlice.SubmitVoteFailure | src/store/slices/formSlice.ts:45-49 | not loading, the error set, the success message cleared; the action is added to the dispatch history and no error and success message are both set |
| Form.FormSlice.ClearForm | src/store/slices/formSlice.ts:51-58 | fields and messages emptied, `isLoading` unchanged; the action is added to the dispatch history and no error and success message are both set |
| Form.FormSlice.SetFormError | src/store/slices/formSlice.ts:60-63 | the error set, the success message cleared, fields and `isLoading` unchanged; the action is added to the dispatch history and no error and success message are both set |
| Form.FormSlice.ClearMessages | src/store/slices/formSlice.ts:65-68 | both messages cleared, fields and `isLoading` unchanged; the action is added to the dispatch history and no error and success message are both set |
| Tally.CountLanguages | src/lib/dataStore.ts:60-66 | the dictionary has exactly the languages present as keys, each mapped to its number of votes |
| Tally.Counts | src/lib/dataStore.ts:60-66 | reference definition of the tally: every language present mapped to its number of votes, no other key |
| Tally.CountsSumToTotal | src/app/api/results/route.ts:48-53 | the counts add up to the number of votes |
| Tally.PresentIffCounted | src/app/api/results/route.ts:48-51 | a language is a key exactly when it has at least one vote |
| Tally.CountsAppend | src/app/api/results/route.ts:50 | one more vote adds one to its language's count, creating the entry at 1 |
| Tally.MapSumRemove | src/app/api/results/route.ts:48-53 | the sum of a dictionary's values does not depend on the order its keys are taken in |
| Grouping.OfLanguage | src/store/slices/resultsSlice.ts:52-58 | the submissions of one language, as many as it has votes, all of that language |
| Grouping.OfLanguageOccurrences | src/store/slices/resultsSlice.ts:52-58 | each submission of the language occurs in it as often as in the input, and no other does |
| Grouping.SortByTime | src/store/slices/resultsSlice.ts:61-67 | the stable ascending sort by time, as insertion sort; proved sorted, a permutation and stable by the lemmas below |
| Grouping.SortIsSorted | src/store/slices/resultsSlice.ts:61-67 | the time sort yields an ascending sequence |
| Grouping.SortIsPermutation | src/store/slices/resultsSlice.ts:61-67 | the time sort is a permutation of its input |
| Grouping.SortIsStable | src/store/slices/resultsSlice.ts:61-67 | submissions with equal times keep their input order |
| Grouping.InsertKeepsSorted | src/store/slices/resultsSlice.ts:61-67 | inserting into a sorted sequence keeps it sorted |
| Grouping.Grouped | src/store/slices/resultsSlice.ts:51-67 | reference definition of `groupedSubmissions`: one entry per language present, holding its submissions sorted by time |
| Grouping.GroupedKeys | src/store/slices/resultsSlice.ts:51-58 | the groups' keys are exactly the languages present, so no submissions give no groups |
| Grouping.GroupIsOrderedPermutation | src/store/slices/resultsSlice.ts:51-67 | each group is sorted by time, stable, holds only its language, and is a permutation of that language's submissions |
| Grouping.GroupOccurrences | src/store/slices/resultsSlice.ts:52-58 | a submission occurs in its own language's group as often as in the input, and in no other group |
| Grouping.EveryInItsGroup | src/store/slices/resultsSlice.ts:52-58 | every submission lands in the group of its language |
| Grouping.GroupSizesSumToTotal | src/store/slices/resultsSlice.ts:52-58 | the group sizes are the per-language counts and add up to the number of submissions |
| Results.Percent | src/store/slices/resultsSlice.ts:43-47 | `Math.round(count / total * 100 * 100) / 100` in whole hundredths, computed exactly; characterised by `PercentIsNearest` |
| Results.Percentages | src/store/slices/resultsSlice.ts:41-48 | reference definition of `languagePercentages`: the keys of the counts, each its rounded share when the total is positive and 0 otherwise |
| Results.PercentIsNearest | src/store/slices/resultsSlice.ts:43-47 | the percentage is the hundredth nearest to `count / total * 100`, halves rounded up |
| Results.PercentInRange | src/store/slices/resultsSlice.ts:43-47 | a share of at most all votes lies between 0 and 100 percent |
| Results.PercentExamples | src/store/slices/resultsSlice.ts:43-47 | 2 of 3 gives 66.67, 1 of 3 gives 33.33, 1 of 1 gives 100 |
| Results.TalliedSharesInRange | src/store/slices/resultsSlice.ts:41-48 | for counts tallied from a list, every language present has a share between 0 and 100 percent |
| Results.EmptyPayload | src/store/slices/resultsSlice.ts:41-58 | an empty payload gives no percentages and no groups |
| Results.ComputePercentages | src/store/slices/resultsSlice.ts:41-48 | exactly the keys of `languageCounts`, each the rounded share when the total is positive and 0 otherwise |
| Results.GroupByLanguage | src/store/slices/resultsSlice.ts:51-58 | one key per language present, each holding that language's submissions in input order |
| Results.SortGroups | src/store/slices/resultsSlice.ts:60-67 | the same keys, each group replaced by its stable time sort |
| Results.Aggregate | src/store/slices/resultsSlice.ts:40-67 | the percentages and the sorted groups of the payload, as the reference functions define them |
| Results.ThreeVoteExample | src/store/slices/resultsSlice.ts:41-67 | two javascript votes at 10:00 and 09:00 and one python vote give 66.67 and 33.33, and the javascript group is ordered 09:00 then 10:00 |
| Results.ResultsSlice.constructor | src/store/slices/resultsSlice.ts:5-13 | the initial state: no votes, empty dictionaries and lists, not loading, no error |
| Results.ResultsSlice.WritePayload | src/store/slices/resultsSlice.ts:32-67 | the writes shared by the three success cases: totals, counts and submissions from the payload, its percentages and groups, the error cleared, `isLoading` untouched |
| Results.ResultsSlice.FetchResultsRequest | src/store/slices/resultsSlice.ts:19-22 | loading and no error, data unchanged |
| Results.ResultsSlice.FetchResultsSuccess | src/store/slices/resultsSlice.ts:24-68 | totals, counts and submissions are the payload's, with its percentages and groups; not loading, no error |
| Results.ResultsSlice.FetchResultsFailure | src/store/slices/resultsSlice.ts:70-73 | not loading, the error is the message, previous data kept |
| Results.ResultsSlice.ClearResultsError | src/store/slices/resultsSlice.ts:75-77 | only the error is cleared |
| Results.ResultsSlice.FetchResultsPending | src/store/slices/resultsSlice.ts:82-85 | loading and no error, data unchanged |
| Results.ResultsSlice.FetchResultsFulfilled | src/store/slices/resultsSlice.ts:86-123 | the same new state as `fetchResultsSuccess` |
| Results.ResultsSlice.FetchResultsRejected | src/store/slices/resultsSlice.ts:124-127 | not loading, the error is the rejection value, previous data kept |
| Results.ResultsSlice.RefreshPending | src/store/slices/resultsSlice.ts:130-133 | the background refresh only clears the error; `isLoading` is untouched |
| Results.ResultsSlice.RefreshFulfilled | src/store/slices/resultsSlice.ts:134-170 | the data of a foreground success, the error cleared, `isLoading` untouched |
| Results.ResultsSlice.RefreshRejected | src/store/slices/resultsSlice.ts:171-174 | the state is unchanged |
| Store.FindIndex | src/lib/dataStore.ts:45-47 | the first index whose email equals the given one after lower-casing both, or -1 exactly when there is none |
| Store.SameEmail | src/lib/dataStore.ts:45-47 | two emails are the same to the store when their lower-case forms are equal |
| Store.SameEmailIgnoresCase | src/lib/dataStore.ts:45-47 | "John@Example.com" and "john@example.com" are the same email, "john@example.com" and "jane@example.com" are not |
| Store.Find | src/lib/dataStore.ts:72-76 | the `find` lookup: none exactly when no email matches ignoring case, otherwise a stored record whose email matches |
| Store.Upsert | src/lib/dataStore.ts:44-55 | reference definition of the upsert: the count is unchanged when some email matches ignoring case and grows by one otherwise, and every index holds the new record or its old record |
| Store.UpsertReplaces | src/lib/dataStore.ts:45-52 | with a case-insensitive match, the record at the first matching index is replaced, the count is unchanged and every other index is untouched |
| Store.UpsertAppends | src/lib/dataStore.ts:53-55 | with no match, the record is appended, the count grows by one and the earlier records are unchanged |
| Store.UpsertKeepsDistinct | src/lib/dataStore.ts:45-55 | emails distinct after lower-casing stay distinct |
| Store.FindAfterUpsert | src/lib/dataStore.ts:72-76 | right after the upsert, a lookup by any spelling of the email returns the new record |
| Store.SeedsDistinct | src/lib/dataStore.ts:6-31 | the three demonstration records have distinct emails |
| Store.DataStore.constructor | src/lib/dataStore.ts:6-31 | the store starts with the three demonstration records |
| Store.DataStore.GetAllSubmissions | src/lib/dataStore.ts:33-35 | a copy equal to the stored list, the store unchanged |
| Store.DataStore.AddSubmission | src/lib/dataStore.ts:37-58 | returns the input fields with the fresh id and the time, even on update; the list becomes the upsert of that record; distinct emails stay distinct |
| Store.DataStore.GetLanguageCounts | src/lib/dataStore.ts:60-66 | one key per language present, its number of votes, all adding up to the number of votes |
| Store.DataStore.GetTotalVotes | src/lib/dataStore.ts:68-70 | the number of stored records |
| Store.DataStore.FindByEmail | src/lib/dataStore.ts:72-76 | the first record whose email matches ignoring case, or none exactly when no record matches |
| SubmissionsApi.EmailIndex | src/app/api/submissions/route.ts:55 | the first index whose email is exactly the given one, or -1 exactly when there is none |
| SubmissionsApi.PostOutcome | src/app/api/submissions/route.ts:32-90 | reference definition of `POST`: the reply and the list afterwards, with the checks in the handler's order; its meaning is proved by `PostRefusals`, `PostUpdates`, `PostAppends`, `PostReportsStoredId` and `PostKeepsDistinct` |
| SubmissionsApi.PostRefusals | src/app/api/submissions/route.ts:32-90 | an unparsable body gives 500, a missing or empty field 400 "All fields are required", a bad email 400 "Invalid email format"; each leaves the list alone, and every other body succeeds |
| SubmissionsApi.PostUpdates | src/app/api/submissions/route.ts:55-73 | an exact email match replaces that record in place with the old id, trimmed name and reason, the sent email and language; the count is unchanged and the "updated" message is returned |
| SubmissionsApi.PostAppends | src/app/api/submissions/route.ts:55-82 | with no match, the trimmed record is appended under the fresh id and the "submitted" message returned |
| SubmissionsApi.PostReportsStoredId | src/app/api/submissions/route.ts:66-82 | the `submissionId` of a success is the id of a stored record holding the sent email |
| SubmissionsApi.PostKeepsDistinct | src/app/api/submissions/route.ts:55-82 | exactly distinct emails stay distinct |
| SubmissionsApi.BlankNameStoredEmpty | src/app/api/submissions/route.ts:38-62 | the emptiness check runs before trimming, so a name of blanks is accepted and stored as "" |
| SubmissionsApi.SubmissionsRoute.constructor | src/app/api/submissions/route.ts:5-30 | the list starts with the three demonstration records |
| SubmissionsApi.SubmissionsRoute.Post | src/app/api/submissions/route.ts:32-90 | the reply and the new list are those of `PostOutcome` |
| SubmissionsApi.SubmissionsRoute.Get | src/app/api/submissions/route.ts:92-97 | always 405 "Method not allowed", the list unchanged |
| ResultsApi.ResultsRoute.constructor | src/app/api/results/route.ts:6-31 | the list starts with the three demonstration records |
| ResultsApi.ResultsRoute.GetLatestSubmissions | src/app/api/results/route.ts:34-41 | the stored list itself |
| ResultsApi.ResultsRoute.Get | src/app/api/results/route.ts:43-67 | each language present counted, counts adding up to the total, the total equal to the length, the list returned unchanged and in order |
| ResultsApi.ResultsRoute.Post | src/app/api/results/route.ts:69-74 | always 405 "Method not allowed", the list unchanged |
| ResultsApi.ResultsRoute.UpdateSubmissions | src/app/api/results/route.ts:77-79 | the list becomes exactly `xs`, so the next `GET` tallies `xs` |

## Left out

- Network and asynchrony: `fetch`, JSON parsing and the thunks, including their 500 ms delay
  and rejection messages, are not modelled. The reducers take the payload or message a thunk
  would deliver.
- Next.js request and response objects: each handler returns a status and a body value.
- The request body: `RequestBody.Malformed` stands for the two bodies that make `POST` throw
  before validation, a JSON parse failure and a `null` body. Any other body that is not an
  object (a number, a string, a boolean, an array) destructures to absent fields and is
  `Fields(None, None, None, None)`, which draws the 400 "All fields are required".
- JSON field values that are not strings, such as numbers or booleans, are not modelled; each
  field is absent or a string.
- SubmissionsApi.PostOutcome: the 500 path for a truthy non-string field (`name.trim` is not a
  function) is not modelled, because fields are strings.
- ResultsApi.ResultsRoute.Get: the 500 path is not modelled, because nothing in the handler
  can throw on a list of well-formed records.
- `console.error` and `console.warn` calls are left out: they have no effect on state.
- Results.ComputePercentages: works on exact rational hundredths, not on IEEE doubles, so it
  ignores the floating-point error of `Math.round(x * 100 * 100) / 100`.
- Grouping.SortByTime: timestamps are integers, so the `NaN` that invalid dates give the
  comparator is not modelled.
- Store.SameEmail: `toLowerCase` is ASCII-only here; the full Unicode case mapping is not
  modelled.
- JsStrings.Trim: works on code points; lone surrogates and UTF-16 code-unit lengths are not
  modelled, so `.length` is the number of characters.
- Dictionary keys are own properties. A language named like an `Object.prototype` member, such
  as `constructor`, would be looked up on the prototype, and this is not modelled.
- Results.ResultsSlice.RefreshRejected: the warning it logs is not modelled.
- Store.DataStore.GetAllSubmissions, Store.DataStore.AddSubmission,
  ResultsApi.ResultsRoute.GetLatestSubmissions and ResultsApi.ResultsRoute.UpdateSubmissions:
  lists and records are values here, so aliasing is not modelled. `getLatestSubmissions`
  returns the module's array itself, and `updateSubmissions` keeps the caller's array.
  `getAllSubmissions` copies the array but shares its records, and `addSubmission` stores and
  returns the same record object. Mutation through a returned array or record is not
  modelled, so the model does not tell a copy from the list itself.
- The key order of JavaScript objects is not modelled, because dictionaries are maps.
- Uniqueness of `Date.now()` ids is not assumed or modelled.
- Telemetry, configuration, browser storage and all UI components are not part of this model.
- Concurrency between requests is not part of this model.
