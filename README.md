# PathFinder core, modelled in Dafny

PathFinder recommends extracurricular activities to students. This project models the parts of its Django backend and React frontend that decide what gets stored and what gets shown.

- **Catalog identity.** The catalog row (`SuggestionModel`) and how its `external_id` is derived from a spreadsheet row.
- **Spreadsheet import.** The `sync_sheet` command: rows are mapped to payloads, unusable rows are skipped, and the rest are upserted inside one transaction.
- **Tagging.** The `add_missing_tags` command rebuilds each row's tags from a language-model classification. It relies on the classification schema of `reco_schema.py`.
- **Profile views.** Saved-item toggle, saved-status check, saved-items listing and the onboarding-profile update. Raised errors pass through REST framework's default exception handler and then the project's own handler. As written, only not-found errors come out as the project's error envelope (see Findings).
- **Rating upsert.** One rating per user and suggestion.
- **Onboarding.** Both onboarding pages share the same Back, Next and Skip stepper. Step 2 selects interests; Step 3 collects goals.
- **Home pages.** The classic home page sorts, paginates and toggles sort direction. The redesigned one removes duplicates from the fetched list.
- **Review panel.** The item's review panel.
- **String helpers.** The helpers in `stringUtils.js`: truncation, the avatar colour hash, initials, and media URLs.

Python and JavaScript behaviour that matters is written out: `str.strip` and `String.prototype.trim` (each with its own whitespace set), `split`, `int()`, slicing with negative ends, ECMAScript ToInt32 and shifts, `toString(16)`, and Python and JavaScript truthiness. Persistent tables and page state are classes whose methods change fields. Pure logic is functions with lemmas. The source's loops are methods with loop invariants, each proved against a specification function.

Parameters stand in for outside effects:
- Django's `slugify` is a function parameter.
- The language-model call is a function from a row's name and description to the decoded reply.
- The clock behind `auto_now` timestamps is a parameter: the time of each save, for the import and for the tagging command.
- `localeCompare` is a comparator parameter.
- `VITE_API_URL` is an optional string.
- Fetched data arrives as method arguments.

## Model

| member | source | states |
|---|---|---|
| Catalog.SlugBase | backend/suggestions/models.py:6 | the slug base is the lower-cased name, a hyphen, then the lower-cased category; the hyphen sits right after the name |
| Catalog.SlugFromNameCategory | backend/suggestions/models.py:5-7 | the derived id is a prefix of the slug and at most 64 characters: all of the slug when it fits, exactly 64 characters when it does not |
| Catalog.ExternalIdFromRow | backend/suggestions/models.py:20-23 | a non-empty explicit id is returned stripped; otherwise the id is the slug of name and category, and a row lacking either key raises (None) |
| Catalog.DerivedIdDeterministic | backend/suggestions/models.py:23 | without an explicit id, rows that agree on name and category get the same id |
| Catalog.ExplicitIdIgnoresNameAndCategory | backend/suggestions/models.py:21-22 | with an explicit id, changing the name and category cells does not change the id |
| Catalog.ExplicitIdNotTruncated | backend/suggestions/models.py:11-22 | an explicit 65-character id comes back with all 65 characters, though the column holds 64 |
| Strings.TrimIsInnerSlice | backend/suggestions/models.py:22 | a stripped string is a contiguous slice of the input with no whitespace at either end, and everything cut away is whitespace |
| Strings.TrimIdempotent | backend/suggestions/models.py:22 | stripping twice is stripping once |
| Strings.SplitPiecesSeparatorFree | backend/suggestions/management/commands/sync_sheet.py:71 | no piece of a split contains the separator |
| Strings.JoinSplit | backend/suggestions/management/commands/sync_sheet.py:71 | joining the pieces of a split with the separator gives back the input |
| SyncSheet.Cell | backend/suggestions/management/commands/sync_sheet.py:71-74 | `row.get(key, "")`: the cell when present, "" otherwise |
| SyncSheet.BlankCategoryIsOneEmptyPiece | backend/suggestions/management/commands/sync_sheet.py:70-72 | a blank category cell is stored as the one-element list `[""]`, not `[]` |
| SyncSheet.CategoryPiecesClean | backend/suggestions/management/commands/sync_sheet.py:71-72 | every stored category piece has no comma and no whitespace at either end |
| SyncSheet.Decide | backend/suggestions/management/commands/sync_sheet.py:64-78 | a row raises exactly when the id derivation raises; it is skipped exactly when the id or the stripped name is empty; otherwise it upserts its id with the `MAPPING` payload |
| SyncSheet.SyncCounts | backend/suggestions/management/commands/sync_sheet.py:62-87 | after a successful import, `upserts` counts the accepted rows and `incoming_ext_ids` is exactly their ids |
| SyncSheet.LastIndex | backend/suggestions/management/commands/sync_sheet.py:80-86 | the position of the last accepted row carrying an id, present exactly when some row carries it |
| SyncSheet.LastEntryAppend | backend/suggestions/management/commands/sync_sheet.py:80-86 | a further save becomes its id's last entry, stamped with that save's time, and changes no other id's |
| SyncSheet.SyncStore | backend/suggestions/management/commands/sync_sheet.py:80-86 | after a successful import, each incoming id holds the payload of the last row carrying it, with `created_at` re-stamped to the time of that save (`auto_now`, create and update alike); every other stored entry, timestamp included, is unchanged |
| SyncSheet.SyncMeaning | backend/suggestions/management/commands/sync_sheet.py:59-87 | the count, the id set and the stored, re-stamped table of a successful import, together |
| SyncSheet.DistinctIdsBound | backend/suggestions/management/commands/sync_sheet.py:86-87 | distinct incoming ids never exceed `upserts`; they are equal exactly when no accepted id repeats |
| SyncSheet.KeyErrorAborts | backend/suggestions/management/commands/sync_sheet.py:62-64 | one row that raises aborts the whole import |
| SyncSheet.SuggestionTable.Handle | backend/suggestions/management/commands/sync_sheet.py:59-91 | the loop computes the import's result: the re-stamped table and count on success; on a raise, the table is rolled back as `transaction.atomic` does |
| RecoSchema.ParseInterestArea | backend/suggestions/management/commands/reco_schema.py:12-25 | a recognised string is the label of the value it names |
| RecoSchema.ParseActivityType | backend/suggestions/management/commands/reco_schema.py:28-40 | a recognised string is the label of the value it names |
| RecoSchema.ParseSkillFocus | backend/suggestions/management/commands/reco_schema.py:43-62 | a recognised string is the label of the value it names |
| RecoSchema.InterestAreaRoundTrip | backend/suggestions/management/commands/reco_schema.py:12-25 | every `interest_area` enum string is recognised as its own value |
| RecoSchema.ActivityTypeRoundTrip | backend/suggestions/management/commands/reco_schema.py:28-40 | every `activity_type` enum string is recognised as its own value |
| RecoSchema.SkillFocusRoundTrip | backend/suggestions/management/commands/reco_schema.py:43-62 | every `skill_focus` enum string is recognised as its own value |
| RecoSchema.LabelsRoundTrip | backend/suggestions/management/commands/reco_schema.py:12-62 | the three vocabularies together: each label maps back to its value, so the labels are distinct |
| RecoSchema.SkillsOf | backend/suggestions/management/commands/reco_schema.py:43-62 | decoding keeps the number of skill items, and each item is the label of its decoded value |
| RecoSchema.FromJson | backend/suggestions/management/commands/reco_schema.py:9-69 | a reply decodes exactly when the schema accepts it (exact keys, enum strings, at least one skill) |
| RecoSchema.ClassificationRoundTrip | backend/suggestions/management/commands/reco_schema.py:9-69 | a classification with at least one skill encodes to a reply that decodes back to it; every accepted reply is the encoding of its decoding |
| AddMissingTags.EnsureList | backend/suggestions/management/commands/add_missing_tags.py:85-90 | a list is returned unchanged, a string becomes a one-element list, and anything else becomes [] |
| AddMissingTags.EnsureListIdempotent | backend/suggestions/management/commands/add_missing_tags.py:85-90 | normalising an already normalised list changes nothing |
| AddMissingTags.Lookup | backend/suggestions/management/commands/add_missing_tags.py:50-54 | the subscript succeeds exactly on an object that has the key, and gives that key's value |
| AddMissingTags.TagsOf | backend/suggestions/management/commands/add_missing_tags.py:50-55 | tags are built exactly when the reply has `classification` and its three keys |
| AddMissingTags.SkillTags | backend/suggestions/management/commands/add_missing_tags.py:54 | one string tag per skill, in order |
| AddMissingTags.TagsOfClassification | backend/suggestions/management/commands/add_missing_tags.py:51-55 | the tags are interest area, activity type, then the skills, in that order: 2 + number of skills |
| AddMissingTags.ValidReplyTags | backend/suggestions/management/commands/add_missing_tags.py:51-55 | every schema-valid reply gives at least 3 tags: its interest area, its activity type, then its skills |
| AddMissingTags.RetagReplacesTags | backend/suggestions/management/commands/add_missing_tags.py:56-57 | previous tags and the previous timestamp play no part; the tags are replaced wholesale, `created_at` becomes the save time (`auto_now`), and every other field is kept |
| AddMissingTags.SuggestionRows.AddMissingTags | backend/suggestions/management/commands/add_missing_tags.py:44-57 | the rows before the first failing row are retagged and saved, each stamped with its save time; that row and the ones after it are untouched |
| Api.DefaultResponse | backend/pathfinder_api/utils.py:14 | the default handler gives no response for DoesNotExist; it gives 400 for a validation error and 404 for not-found; only the not-found body has a `detail` key; either body carries the raised message |
| Api.Envelope | backend/pathfinder_api/utils.py:20-23 | the error body has exactly the keys status ("error"), status_code and message |
| Api.EnvelopeInjective | backend/pathfinder_api/utils.py:20-23 | two envelopes are equal exactly when their codes and messages are equal |
| Api.CustomExceptionHandler | backend/pathfinder_api/utils.py:14-25 | a missing response passes through; a body without `detail` makes the handler raise; otherwise the body is the envelope of the kept status and the old detail |
| Api.Respond | backend/pathfinder_api/utils.py:9-25 | what a raised error ends as is the default response run through the handler as written (Api.AsWrittenOutcome) |
| Api.AsWrittenOutcomes | backend/pathfinder_api/utils.py:18-19 | as written, a validation error and DoesNotExist both end as a 500; only not-found reaches the client as a 404 envelope |
| Api.IntendedOutcomes | backend/pathfinder_api/utils.py:18-23 | reading the message from either body shape, a validation error is the 400 envelope of its message and not-found the 404 envelope; DoesNotExist stays a 500; on all but validation errors this agrees with the handler as written |
| Accounts.UserProfile.constructor | backend/accounts/models.py:4-13 | a new profile has the column defaults: empty saved list, `{}` basic information, `[]` interests and goals, null other goals, onboarding unfinished |
| Accounts.SaveItem | backend/accounts/views.py:189-218 | a missing id raises a validation error, then a missing profile raises not-found; otherwise the id is toggled in the saved list with the matching message, and no other column changes |
| Accounts.CheckItemSaved | backend/accounts/views.py:233-256 | same error order; on success, `is_saved` holds exactly when the id is saved, with the matching message |
| Accounts.SavedRowsExactly | backend/accounts/views.py:280 | a row is listed exactly when it is in the catalog and its id is saved |
| Accounts.SavedRowsInOrder | backend/accounts/views.py:280 | the listing is a subsequence of the catalog in the model's fixed table order |
| Accounts.SavedRowsDistinct | backend/accounts/views.py:280 | with unique catalog ids, no row is listed twice; the listed ids are exactly the saved ids that have a row |
| Accounts.SavedRowsIds | backend/accounts/views.py:280 | the listing's size is the number of saved ids that have a catalog row, however often an id was saved |
| Accounts.SavedItems | backend/accounts/views.py:271-292 | a missing profile raises a validation error "User not found"; otherwise every listed row is marked `is_saved`, in listing order |
| Accounts.UpdateUserInformation | backend/accounts/views.py:307-334 | the three required values are checked in order; a missing profile raises DoesNotExist; on success the four columns are stored as sent and onboarding is finished; the saved list and identity never change |
| PyInt.DecimalDigits | backend/social/views.py:22 | the decimal text of a natural number is a non-empty string of digits |
| PyInt.DigitsValueOfDecimal | backend/social/views.py:22 | reading back the digits of n gives n |
| PyInt.ParseIntOfString | backend/social/views.py:22 | `int(str(n)) == n` for every integer |
| PyInt.ParseIntRejects | backend/social/views.py:22 | "a", "" and "1__0" are rejected, as `int()` rejects them |
| PyInt.ParseIntAcceptsBlanksAndSign | backend/social/views.py:22 | surrounding blanks and a plus sign are accepted: " +3 " is 3 |
| Social.FirstMatch | backend/social/views.py:26-29 | the first row of the user and suggestion pair, or none when the pair has no row |
| Social.UpsertMeaning | backend/social/views.py:26-38 | a row is added only when the pair had none; only the pair's first row is changed, so other pairs' rows and later rows of the same pair keep their rating; afterwards the pair reads back the new rating |
| Social.UpsertOtherPairs | backend/social/views.py:26-38 | every other pair's rating reads back as before |
| Social.UpsertUniquePairs | backend/social/views.py:26-38 | an upsert keeps one row per pair |
| Social.AsWrittenStoresOutOfRange | backend/social/views.py:22-39 | as written, a rating of -1 is stored and the reply is success |
| Social.PostMeaning | backend/social/views.py:19-41 | a failed call writes nothing; a call succeeds exactly when the rating parses to a value in 1..5 and the id names a row, and then it upserts that rating |
| Social.PostKeepsTableValid | backend/social/models.py:15-17 | the intended view keeps every stored rating in 1..5 and one row per pair |
| Social.PostRejectsOutOfRange | backend/social/models.py:15-17 | the intended view answers a -1 rating with failure and writes nothing |
| Social.RatingTable.Rate | backend/social/views.py:19-41 | the view's steps give the intended reply and table |
| StringUtils.SliceTo | frontend/src/utils/stringUtils.js:9 | `slice(0, end)` is a prefix whose length counts a negative end from the back, clamped to 0 and to the length |
| StringUtils.TruncateString | frontend/src/utils/stringUtils.js:7-12 | a short string is kept; a longer one is its first maxLength characters plus "...", so maxLength + 3 characters |
| StringUtils.TruncateIdempotent | frontend/src/utils/stringUtils.js:7-12 | for a non-negative limit, truncating twice is truncating once |
| StringUtils.ToInt32 | frontend/src/utils/stringUtils.js:29 | the result is a signed 32-bit value congruent to the input modulo 2^32 |
| StringUtils.HexPairFormat | frontend/src/utils/stringUtils.js:37 | a byte's pair is exactly two lowercase hex digits, zero-padded, that read back as the byte |
| StringUtils.StringToColor | frontend/src/utils/stringUtils.js:23-41 | the two loops compute "#" followed by the pairs of hash bytes 0, 1 and 2 |
| StringUtils.HashBytesAreBits | frontend/src/utils/stringUtils.js:35-38 | the three bytes read by the sign-propagating shift are bits 0-7, 8-15 and 16-23 of the hash's 32-bit pattern |
| StringUtils.ColorPairs | frontend/src/utils/stringUtils.js:32-38 | the colour is "#" and the pairs of bytes 0, 1, 2 in that order |
| StringUtils.ColorFormat | frontend/src/utils/stringUtils.js:21-40 | the colour is "#" and six lowercase hex digits; each pair reads back as its hash byte |
| StringUtils.EmptyStringColor | frontend/src/utils/stringUtils.js:23-41 | the empty string's colour is "#000000" |
| StringUtils.AvatarTwoWords | frontend/src/utils/stringUtils.js:54-61 | "First Last ..." gets the initials of the first two words |
| StringUtils.AvatarOneWord | frontend/src/utils/stringUtils.js:59 | a single word gets its first character alone |
| StringUtils.AvatarEmptyFirstWord | frontend/src/utils/stringUtils.js:59 | an empty name, or one starting with a space, shows the text "undefined" first |
| StringUtils.ApiBaseUrl | frontend/src/utils/stringUtils.js:67 | none when unset; a URL ending in "/" loses exactly that last character, and any other URL is kept as it is |
| StringUtils.Origin | frontend/src/utils/stringUtils.js:86 | the base URL when it is non-empty, otherwise "http://localhost:8000" |
| StringUtils.ToAbsoluteMediaUrl | frontend/src/utils/stringUtils.js:78-88 | "" for a missing or empty input; an http(s) URL in any case mix as is; otherwise the origin followed by the path with a leading "/" |
| StringUtils.ToAbsoluteIdempotent | frontend/src/utils/stringUtils.js:78-88 | with an absolute origin, every non-empty result is absolute, so converting twice is converting once |
| StringUtils.FallbackOriginAbsolute | frontend/src/utils/stringUtils.js:86 | the fallback origin is an absolute URL |
| Stepper.AfterNext | frontend/src/pages/onBoarding/OnBoarding.jsx:58-76 | an unblocked Next advances the step, removes it from `skipped` and leaves every other step's mark alone; a blocked Next changes nothing |
| Stepper.AfterBack | frontend/src/pages/onBoarding/OnBoarding.jsx:78-80 | Back moves one step back and keeps `skipped` |
| Stepper.AfterSkip | frontend/src/pages/onBoarding/OnBoarding.jsx:82-93 | on the optional step, Skip advances and marks the step skipped; on any other step it does nothing |
| Stepper.PressKeepsValid | frontend/src/pages/onBoarding/OnBoarding.jsx:167-184 | with the buttons' disabled props, every click keeps the step within 0..3 and only the optional step ever skipped |
| Stepper.SkippedIffLastSkip | frontend/src/pages/onBoarding/OnBoarding.jsx:58-93 | after any click sequence, a step is skipped exactly when its last effective Skip or Next was a Skip |
| Onboarding.OnboardingPage.constructor | frontend/src/pages/onBoarding/OnBoarding.jsx:24-43 | the state starts from the user's non-empty values, with defaults otherwise, at step 0 with nothing skipped |
| Onboarding.OnboardingPage.HandleNext | frontend/src/pages/onBoarding/OnBoarding.jsx:58-76 | Next with no interest on step 1 shows the warning and changes no step state; otherwise it advances as the stepper does |
| Onboarding.OnboardingPage.HandleBack | frontend/src/pages/onBoarding/OnBoarding.jsx:78-80 | Back moves one step back; the collected values are kept |
| Onboarding.OnboardingPage.HandleSkip | frontend/src/pages/onBoarding/OnBoarding.jsx:82-93 | only step 2 can be skipped |
| Onboarding.OnboardingPage.Click | frontend/src/pages/onBoarding/OnBoarding.jsx:160-190 | a disabled button changes nothing; an enabled one moves the stepper as its handler does, a blocked Next shows the warning, and the step 2 error flag survives only a blocked Next; the collected values are kept and the page stays in a reachable state |
| Onboarding.OnboardingPage.ChangeInterest | frontend/src/pages/onBoarding/Step2.jsx:63-88 | the interests list, error flag and snackbar after a checkbox change, as Step 2 computes them |
| Onboarding.OnboardingPage.ChangeGoal | frontend/src/pages/onBoarding/Step3.jsx:61-69 | checking appends the goal; unchecking removes every occurrence; nothing else changes |
| Onboarding.OnboardingPage.SetOtherGoals | frontend/src/pages/onBoarding/Step3.jsx:83-84 | the text replaces `otherGoals`; nothing else changes |
| Onboarding.OnboardingPage.FinishingProps | frontend/src/pages/onBoarding/OnBoarding.jsx:148-155 | the finishing screen shows exactly at step 3 and receives the four collected values |
| LegacyOnboarding.LegacyOnboardingPage.HandleNext | frontend/src/pages/OnBoarding.jsx:23-32 | Next always advances and unmarks the current step |
| LegacyOnboarding.LegacyOnboardingPage.HandleBack | frontend/src/pages/OnBoarding.jsx:34-36 | Back moves one step back |
| LegacyOnboarding.LegacyOnboardingPage.HandleSkip | frontend/src/pages/OnBoarding.jsx:38-49 | only step 1 can be skipped |
| LegacyOnboarding.LegacyOnboardingPage.Click | frontend/src/pages/OnBoarding.jsx:95-116 | a disabled button does nothing, and the page stays in a reachable state |
| InterestStep.ChangeWarning | frontend/src/pages/onBoarding/Step2.jsx:63-88 | the "at least 1" warning appears exactly when the error flag is raised |
| InterestStep.SelectedMeaning | frontend/src/pages/onBoarding/Step2.jsx:63-88 | the value is selected afterwards exactly when it was not and fewer than three were; no other value changes; a full list refuses with the "up to 3" warning |
| InterestStep.SelectedKeepsBound | frontend/src/pages/onBoarding/Step2.jsx:65-87 | from at most three distinct interests, every change keeps at most three, all distinct |
| InterestStep.DeselectLastInterest | frontend/src/pages/onBoarding/Step2.jsx:67-79 | removing the only interest empties the list and raises the error |
| GoalsStep.ClickToggles | frontend/src/pages/onBoarding/Step3.jsx:60-69 | since the checkbox shows membership, a click toggles the goal |
| GoalsStep.ClickKeepsGoalsValid | frontend/src/pages/onBoarding/Step3.jsx:24-69 | clicks keep the goals a duplicate-free list of option values; other goals keep their presence |
| Seqs.RemoveAllIsSubsequence | frontend/src/pages/onBoarding/Step3.jsx:61-69 | removal keeps the other elements in order |
| Seqs.ToggleKeepsOthers | backend/accounts/views.py:201-214 | toggling one id leaves every other id's membership alone |
| Seqs.ToggleTwice | backend/accounts/views.py:201-214 | toggling an absent id twice restores the list |
| Seqs.ToggleNoDuplicates | backend/accounts/views.py:201-214 | toggling keeps a list free of duplicates |
| Home.Insert | frontend/src/pages/Home.jsx:103-127 | inserting adds exactly the one element |
| Home.Sort | frontend/src/pages/Home.jsx:99-127 | sorting is a permutation of the copied list |
| Home.InsertSorted | frontend/src/pages/Home.jsx:103-127 | under a consistent comparator, inserting into a sorted list keeps it sorted |
| Home.SortSorted | frontend/src/pages/Home.jsx:103-127 | under a comparator consistent on the list, the result is sorted by it |
| Home.SortedSuggestions | frontend/src/pages/Home.jsx:98-131 | the result is a permutation of the suggestions; an unknown sort key returns the copy unchanged |
| Home.AlphabeticalConsistent | frontend/src/pages/Home.jsx:102-105 | a total name order times ±1 is a consistent comparator |
| Home.AlphabeticalSorted | frontend/src/pages/Home.jsx:102-105 | alphabetical sorting is sorted in either direction, and descending is the negation of ascending |
| Home.NewestSorted | frontend/src/pages/Home.jsx:106-116 | when every item has a date, "newest" puts dates in non-increasing order |
| Home.OldestSorted | frontend/src/pages/Home.jsx:117-127 | when every item has a date, "oldest" puts dates in non-decreasing order |
| Home.MixedDatesCycle | frontend/src/pages/Home.jsx:108-116 | with some items undated, the comparator can order three items in a cycle, so it is not a consistent order |
| Home.FallbackPagination | frontend/src/pages/Home.jsx:60-69 | an unpaginated list of n items is page 1 of 1, with page size and total count both n |
| Home.ShownRange | frontend/src/pages/Home.jsx:213-230 | the range line appears exactly when there is more than one page |
| Home.FallbackHidesRange | frontend/src/pages/Home.jsx:60-69 | the unpaginated list never shows the range line |
| Home.ShownRangeCounts | frontend/src/pages/Home.jsx:226-230 | for a page that exists, 1 <= from <= to <= total, and the range covers min(page size, remaining items) items |
| Home.ShownRangeExample | frontend/src/pages/Home.jsx:226-230 | page 2 of 15 items, 10 per page, shows "11 to 15" |
| Home.ToggleMessageAsWrittenNamesOldDirection | frontend/src/pages/Home.jsx:169-177 | as written, toggling from ascending says "changed to ascending" |
| Home.ToggleMessage | frontend/src/pages/Home.jsx:169-177 | the corrected message names the direction the toggle switches to |
| Home.ToggleMessageNamesNewDirection | frontend/src/pages/Home.jsx:169-177 | for ±1, the corrected message names the new direction, the as-written one names the old direction, and the two differ |
| Home.HomePage.constructor | frontend/src/pages/Home.jsx:30-41 | the initial state: loading, no suggestions, alphabetical, ascending, page 1 of size 50 |
| Home.HomePage.Shown | frontend/src/pages/Home.jsx:98-131 | the rendered list is a permutation of the suggestions |
| Home.HomePage.ToggleDirection | frontend/src/pages/Home.jsx:169-177 | the direction is negated, the snackbar shows the corrected message, and nothing else changes |
| Home.HomePage.SetSortBy | frontend/src/pages/Home.jsx:160 | the sort key is replaced; nothing else changes |
| Home.HomePage.ApplyFetch | frontend/src/pages/Home.jsx:43-84 | a paginated reply stores its results and pagination; a plain list stores the fallback pagination; a failure keeps the list and shows the error; loading ends in every case |
| HomeRedesign.FindIndex | frontend/src/pages/HomeRedesign.jsx:35-37 | `findIndex`: the first index with the id, or -1 when no element has it |
| HomeRedesign.FindIndexAtMost | frontend/src/pages/HomeRedesign.jsx:32-38 | an element's id is first found at or before the element's own index |
| HomeRedesign.DedupSubsequence | frontend/src/pages/HomeRedesign.jsx:32-38 | the filter keeps elements in their original order |
| HomeRedesign.DedupIdsExactlyOnce | frontend/src/pages/HomeRedesign.jsx:32-38 | every id of the input appears in the output exactly once, and no other id appears |
| HomeRedesign.DedupFirstOccurrence | frontend/src/pages/HomeRedesign.jsx:32-38 | each kept element is the first occurrence of its id |
| HomeRedesign.KeptPrefixAllUnique | frontend/src/pages/HomeRedesign.jsx:32-38 | an input with distinct ids passes through unchanged |
| HomeRedesign.DedupIdempotent | frontend/src/pages/HomeRedesign.jsx:32-38 | removing duplicates twice is removing them once |
| HomeRedesign.HomeRedesignPage.constructor | frontend/src/pages/HomeRedesign.jsx:12-13 | not loading, no suggestions, no snackbar |
| HomeRedesign.HomeRedesignPage.Sections | frontend/src/pages/HomeRedesign.jsx:61-67 | one section per tag, in `tagsList` order, each given the whole deduplicated list |
| HomeRedesign.ErrorText | frontend/src/hooks/useApiError.js:23-31 | the error's own non-empty message, otherwise the default; never empty when the default is not |
| HomeRedesign.HomeRedesignPage.ApplyFetch | frontend/src/pages/HomeRedesign.jsx:23-51 | a reply stores its list with duplicates removed and keeps the snackbar; a failure keeps the list and opens the error snackbar with the error's message or "Failed to load suggestions. Please try again."; loading ends |
| ItemComments.FirstQualifying | frontend/src/components/item/ItemComments.jsx:41-48 | the first review with a non-blank comment or an image, or none when no review qualifies |
| ItemComments.AfterReviewsMeaning | frontend/src/components/item/ItemComments.jsx:39-51 | the flag is set afterwards exactly when it was set before or some review qualifies; a missing or empty list leaves it alone |
| ItemComments.AfterAllSticky | frontend/src/components/item/ItemComments.jsx:39-51 | once set, the flag stays set across later fetches |
| ItemComments.AfterAllMeaning | frontend/src/components/item/ItemComments.jsx:28-51 | over a series of fetches, the flag is set exactly when some fetch had a qualifying review |
| ItemComments.CommentText | frontend/src/components/item/ItemComments.jsx:169-170 | the shown text is never empty: the trimmed comment when it has text, "No comment" otherwise |
| ItemComments.CommentTextTrimmed | frontend/src/components/item/ItemComments.jsx:169-170 | the shown text has no surrounding whitespace |
| ItemComments.BlankCommentUpright | frontend/src/components/item/ItemComments.jsx:158-170 | a comment of one space is shown upright as "No comment", and it does not count as a comment |
| ItemComments.ImageLink | frontend/src/components/item/ItemComments.jsx:172-176 | a link is shown exactly when the image has a non-empty URL; an absolute URL is linked as is |
| ItemComments.CommentsPanel.constructor | frontend/src/components/item/ItemComments.jsx:28 | the flag starts cleared |
| ItemComments.CommentsPanel.Heading | frontend/src/components/item/ItemComments.jsx:84-198 | "User Review" exactly when the flag is set, "No comments yet" otherwise |
| ItemComments.CommentsPanel.OnReviews | frontend/src/components/item/ItemComments.jsx:39-51 | the loop stops at the first qualifying review, and the flag matches the effect's semantics |

## Left out

- The ranking pipeline remains out of scope. This covers its cache, the completion call (`async_completions`), and the HTTP fetch of the spreadsheet. Both are I/O; their results arrive as parameters.
- Logging and `stdout` output are left out.
- Concurrency and isolation of `transaction.atomic` are not modelled. Only its all-or-nothing effect is.
- Authentication and permission classes are left out, including `CheckItemSavedView`'s `is_authenticated` test (backend/accounts/views.py:235-236). Every view acts for a signed-in user.
- The `total_rating_score=0, total_ratings=0` lookup arguments of `update_or_create` (backend/suggestions/management/commands/sync_sheet.py:82-83) are not modelled. They are not columns of the `SuggestionModel` in backend/suggestions/models.py. The model keys the upsert on `external_id` alone.
- `SuggestionModel` in backend/suggestions/models.py has no `tags` column. The command assigns `suggestion.tags` anyway. The model treats `tags` as a stored field.
- `slugify` is a parameter. Its character rules are not modelled.
- Lower-casing (Python `lower`, JavaScript `toLowerCase`) covers ASCII letters only.
- Strings are sequences of Unicode scalar values, not UTF-16 code units. This matters for lengths, slices and `charCodeAt` outside the Basic Multilingual Plane.
- StringUtils.Hash: the accumulator is an exact integer, not an IEEE double. Hashes whose magnitude passes 2^53 may differ from the browser's.
- PyInt.ParseInt: only ASCII digits are accepted. Python also accepts other Unicode decimal digits.
- Request values and sheet cells are modelled as strings: `external_id` in Accounts.SaveItem and Accounts.CheckItemSaved, and the cells of `Catalog.Row`. The source receives these as arbitrary JSON or spreadsheet values and tests only their truthiness, so a number id would be stored as a number; `str(row["external_id"])` in backend/suggestions/models.py exists for non-string cells.
- Social.Post: a rating sent as a JSON number is not covered; the model parses the rating as text.
- Api.DefaultResponse: only the three exceptions the views raise are covered. Other REST framework exceptions, `Http404`, `PermissionDenied` and the `WWW-Authenticate`/`Retry-After` headers are not modelled.
- Accounts.SavedRows: the queryset at backend/accounts/views.py:280 has no `order_by`, and `SuggestionModel` declares no `Meta.ordering`, so the database may return rows in any order. The model fixes one order, the catalog sequence. Accounts.SavedRowsInOrder holds for that order only.
- Accounts.SavedItems: the `"status": "ok"` key of the reply (backend/accounts/views.py:287) is a constant and is not modelled. `Listing` carries only the message and the rows.
- React state batching, re-renders, and component remounts are not modelled.
- The shared snackbar is modelled as a field of each page.
- `localeCompare` is a parameter. The name-order proofs assume only that it is a total order.
- Home.HomePage.ToggleDirection: the page shows the corrected message Home.ToggleMessage, which names the new direction. The source names the old one (Home.ToggleMessageAsWritten, see Findings).
- Home: invalid dates (`NaN` differences) are not modelled.
- Home.Sort: JavaScript's `Array.prototype.sort` is modelled by a stable insertion sort. An engine may order items differently when the comparator is inconsistent, as in Home.MixedDatesCycle.
- Home.HomePage.ApplyFetch: the `isAuthenticated && res.data.results` test and the reply shape are folded into the choice of `Fetched` constructor. The unauthenticated paginated body is not modelled.
- HomeRedesign.HomeRedesignPage.ApplyFetch: a reply without `results` raises in the source and is treated as a failure whose message is the `TypeError`'s. The error's `message` is taken as given; the snackbar's severity and the `console.error` call are not modelled.
- ItemComments: the data-fetching hook (`useAsyncData`) and the `console.log` effect are not modelled. Fetched reviews arrive as arguments.
- Rendering and layout (JSX markup, styles, icons) are left out.

## Findings

| source | as written | input that shows it | evidently intended | confidence | as-written member | corrected member |
|---|---|---|---|---|---|---|
| backend/social/views.py:22-38 | the parsed rating is stored with `save()`/`get_or_create`, which do not run the 1..5 validators of backend/social/models.py:15-17 | rating "-1" for an existing suggestion: stored, reply success | reject ratings outside 1..5 with the failure reply | not executed | Social.PostAsWritten, Social.AsWrittenStoresOutOfRange | Social.Post, Social.PostRejectsOutOfRange, Social.PostKeepsTableValid |
| backend/pathfinder_api/utils.py:19 | `response.data["detail"]` assumes a dict body, but REST framework's default handler gives a `ValidationError("...")` a list body `["..."]`, so the lookup raises `TypeError` | `SaveItemView` with no `external_id` (backend/accounts/views.py:193-194): the request ends as a 500 | the 400 envelope with message "External ID is required", as backend/accounts/tests.py:123-132 expects | not executed | Api.Respond, Api.AsWrittenOutcome, Api.AsWrittenOutcomes | Api.IntendedOutcome, Api.IntendedOutcomes |
| frontend/src/pages/Home.jsx:169-177 | the snackbar text is computed from the direction before the toggle | direction 1 (ascending): the toggle switches to descending but says "changed to ascending" | name the direction the toggle switches to | not executed | Home.ToggleMessageAsWritten, Home.ToggleMessageAsWrittenNamesOldDirection | Home.ToggleMessage, Home.ToggleMessageNamesNewDirection |
