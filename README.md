# News summary survey — a Dafny model of the survey session

This project models the client-side core of a survey web application. In the
survey, respondents read news items (one video link plus four machine-written
summaries each, from the models gpt, pathumma, qwen and typhoon). For each
item they either pick the best summary (the *compare* flow) or score every
summary from 1 to 5 on four criteria (the *rate* flow). The respondent then
fills in a short demographics form, and the answers are written to a hosted
database.

The model covers these parts of the application:

- **The session store** (`store.dfy`, module `Store`). This is the object that
  holds the session id, the selected items, the cursor, the cached model order
  of each item and the answers. It is modelled as the class
  `Store.SurveyStore`. Each action replaces some fields and keeps the rest;
  this is stated as `State() == old(State()).(field := …)`. `Valid()` is the
  cursor invariant: inside the list, or 0 / -1 when the list is empty.
- **Catalog loading and selection** (`data.dfy`, module `Data`):
  - the nested loop that flattens the catalog document into three per-category
    lists;
  - the selection of `count / 3` items per category, in any order;
  - the per-item shuffle of the four model names;
  - the extraction of a YouTube video id from a link.
- **Saving a survey** (`supabase.dfy`, module `Supabase`):
  - a survey record is inserted first, then the answer rows;
  - a refused insert raises an error, and a record already written stays
    written;
  - the database is a class with three tables and a log of the insert
    requests sent;
  - the caller supplies the database's reply (`Ok` or `Error(message)`) to
    each insert.
- **The four pages' handlers.** Each page is a class over the shared store:
  - the start page (`start_page.dfy`);
  - the rating page (`rate_page.dfy`);
  - the choice page (`compare_page.dfy`);
  - the demographics form (`demographics_page.dfy`).
- **The shared value types** (`types.dfy`).

Inputs the code takes from outside become parameters:

- the generated session id;
- the fetched catalog document, or `None` when fetching or parsing fails;
- the database replies;
- the number of items to select (see "Left out").

Randomness becomes nondeterminism: a shuffle returns *some* permutation of
its input.

Behaviours of the code that the model makes explicit:

- `isLastNews` is true on an empty list whose cursor was advanced to -1.
- `reset` lists the eight fields of the store and nothing else, so the
  demographics slot of the model keeps its value (`Store.SurveyStore.Reset`).
- The rating page accepts an item whose model order is missing, because it
  validates an empty list of models (`RatePage.MissingOrderAccepted`,
  `RatePage.Page.HandleNext`).
- Going back on the rating page and scoring again appends a second answer for
  the same item (`RatePage.ResubmitAfterGoingBack`).
- The choice page saves with the configured `newsCount`. The rating flow saves
  with the number of selected items.
- The demographics form hands four arguments to a save that takes three, so
  the demographics are never written to the database
  (`DemographicsPage.Page.HandleSubmit`). Where the form keeps them in the
  store, the model uses an abstract slot (see "Left out").
- The choice page refuses an empty session id as well as a missing one
  (`!sessionId`).

## Model

| member | source | states |
|---|---|---|
| Types.Scores.With | lib/types.ts:18-27 | updating one criterion's score changes that criterion and no other |
| Types.ModelRatings.With | lib/types.ts:18-27 | replacing one model's scores changes that model's scores and no other model's |
| Types.ModelRatings.Entries | lib/supabase.ts:84 | the entries of a ratings record are exactly four (model, scores) pairs, one per model, in key order, each carrying that model's scores |
| Types.ModelIndex | lib/types.ts:1 | every model has a key position below 4 |
| Store.NextIndex | lib/store.ts:58-61 | one step forward, clamped to the last index: stays put at the last index, stays inside a non-empty list, becomes -1 on an empty one, preserves the cursor invariant |
| Store.PreviousIndex | lib/store.ts:63-66 | one step back, clamped to 0: never negative, stays at 0, preserves the cursor invariant for any list length |
| Store.SurveyStore.constructor | lib/store.ts:36-45 | a new store is in the initial state (newsCount 3, no mode or session, empty lists, cursor 0) and satisfies the cursor invariant |
| Store.SurveyStore.SetNewsCount | lib/store.ts:48 | only newsCount changes |
| Store.SurveyStore.SetMode | lib/store.ts:49 | only the mode changes |
| Store.SurveyStore.SetSessionId | lib/store.ts:50 | only the session id changes |
| Store.SurveyStore.SetSelectedNews | lib/store.ts:51 | the list is replaced and the cursor returns to 0; the invariant then holds for any list |
| Store.SurveyStore.SetShuffledModels | lib/store.ts:53-56 | the order of one item is set or overwritten; every other key keeps its order and no key disappears |
| Store.SurveyStore.NextNews | lib/store.ts:58-61 | only the cursor changes, to NextIndex of the old cursor and list length |
| Store.SurveyStore.PreviousNews | lib/store.ts:63-66 | only the cursor changes, to PreviousIndex of the old cursor |
| Store.SurveyStore.AddCompareAnswer | lib/store.ts:68-71 | the answer is appended and nothing else changes |
| Store.SurveyStore.AddRatingAnswer | lib/store.ts:73-76 | the answer is appended and nothing else changes |
| Store.SurveyStore.SetDemographics | app/demographics/page.tsx:78 | only the stored demographics change |
| Store.SurveyStore.Reset | lib/store.ts:78-88 | every field listed by reset returns to its initial value; the demographics are kept |
| Store.SurveyStore.IsLastNews | lib/store.ts:90-93 | true exactly when the cursor is at length-1; then the current item is the last one; on an empty list it is true exactly at cursor -1 |
| Store.SurveyStore.GetCurrentNews | lib/store.ts:95-98 | an item exactly when the cursor indexes the list, and then the item under the cursor; under the invariant, an item exactly when the list is non-empty |
| Data.Catalog.Push | lib/data.ts:20-25 | pushing onto one category's list appends to that list only |
| Data.CategoryOfKey | lib/data.ts:15 | a key names a category exactly when it is social, economy or technology, and each of those keys names the category of the same name |
| Data.FlattenNewsData | lib/data.ts:14-27 | the load fails exactly when some category object with at least one entry sits under a key that is not a category, and then reports the first such key; otherwise the result is the loaded catalog: each category's list is the document's items under that key, in document order |
| Data.PushEntries | lib/data.ts:18-26 | the inner forEach appends one object's entries, tagged with its category, to that category's list and leaves the other two lists alone |
| Data.LoadedCatalog | lib/data.ts:7-29 | each list of the loaded catalog is what the document files under that category |
| Data.LoadedCatalogWellTagged | lib/data.ts:20-25 | every item of a loaded catalog carries the category of the list it is in |
| Data.TaggedItemsStep | lib/data.ts:18-26 | one more entry of a category object appends exactly its tagged item |
| Data.FlattenedStep | lib/data.ts:14-27 | one more category object appends its tagged entries to its own list only |
| Data.FlattenedTagsItems | lib/data.ts:18-25 | each flattened item carries the category it was filed under and the id it was nested under, one item per id |
| Data.TaggedItemsTagged | lib/data.ts:20-25 | the items of one category object copy the entries' ids, links and summaries, in entry order |
| Data.ItemsPerCategory | lib/data.ts:36 | count/3 truncated toward zero, as slice truncates its end: for a non-negative count, 3k ≤ count < 3k+3; for a negative count, 3k-3 < count ≤ 3k ≤ 0 |
| Data.SliceTo | lib/data.ts:39-41 | slice(0, end) is a prefix: the end is clamped to the length, and a negative end counts back from the length |
| Data.Pool | lib/data.ts:38-42 | for a non-negative count, the pool's size is the sum over the three categories of min(length, count/3) |
| Data.SelectNewsItems | lib/data.ts:32-46 | the selection is a permutation of the pool (same items, same multiplicities) |
| Data.ShuffleModels | lib/data.ts:48-50 | the result is a permutation of the input |
| Data.CountCategoryAppend | lib/data.ts:38-42 | counting a category distributes over concatenation |
| Data.CountCategoryRemove | lib/data.ts:45 | removing one item lowers only its own category's count, by one |
| Data.CountCategoryPermutation | lib/data.ts:45 | reordering (the random sort) keeps every category's count |
| Data.CountCategoryUniform | lib/data.ts:20-22 | a list of one category counts all its items for that category and none for the others |
| Data.CountCategorySlice | lib/data.ts:39-41 | a slice of a well-tagged category list counts k items of that category and none of the others |
| Data.CountCategoryPool | lib/data.ts:38-42 | the pool holds count/3 items of each category when all three are long enough |
| Data.SelectionIsBalanced | lib/data.ts:32-46 | when count is a multiple of 3 and every category has count/3 items, the selection has count items, count/3 per category |
| Data.ShortCategoryContributesAll | lib/data.ts:39-41 | a category shorter than count/3 contributes all its items |
| Data.ModelOrderIsPermutation | lib/data.ts:48-50 | a shuffled copy of MODEL_NAMES names each of the four models exactly once |
| Data.ModelNamesOnce | lib/data.ts:58 | each model occurs once in MODEL_NAMES |
| Data.RunLengthBounded | lib/data.ts:53 | the id run starting at a position stays inside the link and consists of id characters only |
| Data.VideoIdFromNone | lib/data.ts:53-55 | the search fails exactly when no marker is followed by at least one id character |
| Data.VideoIdFromSome | lib/data.ts:53-55 | a found id is the maximal non-empty run of id characters after the leftmost marker match |
| Data.VideoIdFromNonEmpty | lib/data.ts:53 | a found id is never empty, since the pattern needs at least one id character (`+`) |
| Data.GetYouTubeVideoId | lib/data.ts:52-56 | null exactly when no marker is followed by an id character; otherwise a non-empty id made only of characters other than `&` and whitespace, the maximal such run after the leftmost match |
| Supabase.Database.constructor | lib/supabase.ts:5-7 | a new database has empty tables and no requests |
| Supabase.Database.InsertSurveyResponse | lib/supabase.ts:19-27 | one request is logged; the record is added only when the insert is accepted; other tables do not change |
| Supabase.Database.InsertCompareAnswers | lib/supabase.ts:44-46 | one request is logged; all rows or none are added; other tables do not change |
| Supabase.Database.InsertRatingAnswers | lib/supabase.ts:98-100 | one request is logged; all rows or none are added; other tables do not change |
| Supabase.CompareRows | lib/supabase.ts:35-40 | one row per answer, in order, carrying the session id, category, news id and chosen model |
| Supabase.CompareRowsAppend | lib/supabase.ts:35-40 | rows of later answers follow rows of earlier ones |
| Supabase.AnswerRows | lib/supabase.ts:84-93 | one answer gives four rows; the row for model m sits at m's key position and copies m's four scores, the session id, category and news id |
| Supabase.RatingRows | lib/supabase.ts:83-94 | the flatMap gives four rows per answer |
| Supabase.RatingRowsLayout | lib/supabase.ts:83-94 | four rows per answer; the row for answer i and model m sits at 4*i + m's key position and copies the four scores unchanged |
| Supabase.RatingRowsAppend | lib/supabase.ts:83-94 | rows of later answers follow rows of earlier ones |
| Supabase.SaveCompareResponse | lib/supabase.ts:9-55 | the survey record is inserted first; if it is refused, the save fails without touching the answers table; otherwise one row per answer is inserted, and a refusal fails the save while leaving the record in place; success returns the record |
| Supabase.SaveRatingResponse | lib/supabase.ts:57-109 | the same two-step save with mode rate and the flattened rating rows |
| StartPage.Page.constructor | app/page.tsx:11-13 | the page starts with no navigation and no alert |
| StartPage.Page.HandleStart | app/page.tsx:15-38 | the session id is always set; a failed load shows the alert and changes nothing else; otherwise the selection is a permutation of the pool of the loaded catalog, the cursor is 0, every selected item has a permutation of the four models, other cached orders are kept, and the page goes to /rate; if every cached order was a permutation of the four models, every one still is |
| StartPage.StartSelectionIsBalanced | app/page.tsx:22-24 | when the count is a multiple of 3 and each category of the document has count/3 items, the start page selects count items, count/3 of each category |
| StartPage.Ids | app/page.tsx:27-30 | every item's id is in the set, and every id in it belongs to some item |
| StartPage.ShuffleEach | app/page.tsx:27-30 | the forEach gives every item a permutation of the four models under its id, keeps every other key and changes no other field |
| StartPage.ShuffledEachStep | app/page.tsx:27-30 | one more item of the forEach keeps that property for the longer prefix |
| StartPage.ShuffledEachKeepsModelOrders | app/page.tsx:27-30 | after the forEach, every cached order is still a permutation of the four models |
| RatePage.ValidateRatings | app/rate/page.tsx:94-103 | true exactly when every model of the displayed order has all four criteria scored non-zero |
| RatePage.CriterionIndex | app/rate/page.tsx:96 | every criterion is one of the four checked |
| RatePage.EmptyOrderIsComplete | app/rate/page.tsx:55 | with no model order, any ratings count as complete |
| RatePage.RatingChanged | app/rate/page.tsx:84-90 | a star click sets exactly one (model, criterion) cell |
| RatePage.Page.constructor | app/rate/page.tsx:43-50 | the grid starts at all zeros, with no error |
| RatePage.Page.ModelsOrder | app/rate/page.tsx:54-55 | the page shows the current item's cached order; no current item, or one with no cached order, shows no models; when every cached order is a shuffle of the four models, the page shows the four models once each or none at all |
| RatePage.MissingOrderAccepted | app/rate/page.tsx:54-55 | an item with no cached order shows no models, and any grid, even all zeros, counts as complete for it |
| RatePage.Page.ResetOnIndexChange | app/rate/page.tsx:58-66 | a changed cursor resets the grid to zeros and clears the error; an unchanged one leaves both |
| RatePage.Page.HandleRatingChange | app/rate/page.tsx:79-92 | the grid becomes RatingChanged of the old grid and the error clears |
| RatePage.Page.HandleNext | app/rate/page.tsx:105-125 | incomplete ratings set the error and leave the store; complete ratings append one answer with the grid, then go to /demographics on the last item or advance the cursor |
| RatePage.Page.HandlePrevious | app/rate/page.tsx:127-131 | the cursor moves back by one only when it is positive |
| RatePage.RateEverything | components/StarRating.tsx:19-25 | clicking star v for every model and criterion sets every cell to v |
| RatePage.ResubmitAfterGoingBack | app/rate/page.tsx:112-131 | scoring item 2, going back to it and scoring again appends two answers for the same item, each with its own scores |
| ComparePage.AllAnswers | app/compare/page.tsx:99 | the submitted answers are the stored ones followed by the final pick |
| ComparePage.Page.constructor | app/compare/page.tsx:33-35 | no pick, no error, not submitting |
| ComparePage.Page.DisplayedOrder | app/compare/page.tsx:64 | with no order cached for the current item the page falls back to MODEL_NAMES; when every cached order is a shuffle of the four models, the page shows each of the four models exactly once, whether an order is cached or the fallback is used |
| ComparePage.Page.EnsureShuffled | app/compare/page.tsx:40-45 | only a current item with no cached order gets one, a permutation of the four models; existing orders are never replaced |
| ComparePage.Page.ResetOnIndexChange | app/compare/page.tsx:48-51 | a changed cursor clears the pick and the error |
| ComparePage.Page.SelectModel | app/compare/page.tsx:33 | the pick becomes the clicked model |
| ComparePage.Page.HandleNext | app/compare/page.tsx:66-84 | without a pick, the error is shown and the store is unchanged; otherwise one answer is appended and the cursor advances unless this is the last item |
| ComparePage.Page.HandleSubmit | app/compare/page.tsx:86-116 | the store never changes; without a pick, or with a missing or empty session id, the error is shown and nothing is saved; otherwise the stored answers plus the final pick are saved with newsCount; success goes to /thank-you, failure shows the error and re-enables submitting |
| ComparePage.RevisitShowsSameOrder | app/compare/page.tsx:40-45 | leaving the first item and coming back shows the same order as before, the one cached for that item |
| DemographicsPage.ValidateForm | app/demographics/page.tsx:44-55 | the first failing check is reported, in the order age in 1..120, gender, occupation; nothing is reported exactly when all pass |
| DemographicsPage.AgeBoundsInclusive | app/demographics/page.tsx:45 | the age bounds 1 and 120 are inclusive; 0, 150 and an empty age are refused |
| DemographicsPage.Page.constructor | app/demographics/page.tsx:31-35 | the form is pre-filled from the stored demographics, or empty |
| DemographicsPage.Page.HandleSubmit | app/demographics/page.tsx:57-100 | an invalid form shows the first error and neither stores nor saves; a valid one stores the demographics, then saves the rating answers with the number of selected items; success goes to /thank-you, a failure shows the save error; submitting ends false |

## Left out

- Fetching the catalog file, parsing JSON and creating the database client are I/O. The start page receives the parsed document, or `None` when any of this fails.
- Randomness: `Math.random` comparators are modelled as "some permutation". Whether the shuffles are uniform (they are not) is not modelled.
- Generating the session id (uuidv4) is a parameter.
- Rendering, the router and `useEffect` scheduling are not modelled. Navigation is recorded in a `route` field, and each effect is a method that the caller runs.
- The redirect effects that go back to `/` when no items are selected (rating and choice pages) or no answers exist (demographics page) are not modelled.
- Console logging and the texts of the error messages are left out. Errors are enumerations, and a database error carries its message.
- The columns the database adds to the returned survey record (id, timestamps) are not modelled. A successful save returns the record as sent.
- StartPage.Page.HandleStart: app/page.tsx:23 calls selectNewsItems without its count. In JavaScript `count / 3` is then NaN and every slice is empty. The model takes the count as a parameter instead, so it does not capture that the start page as written selects nothing.
- DemographicsPage.ValidateForm: receives the age already parsed, `None` for an empty field. parseInt on text that is not a number (NaN, which compares false and so passes the bounds check) is not modelled.
- Store.SurveyStore.SetDemographics: the store as written (lib/store.ts) has no demographics field and no `setDemographics` action, and lib/types.ts defines no Demographics type. The demographics page destructures both from the store (app/demographics/page.tsx:27-28), so as written the call at :78 would throw inside the `try`, and the save at :81 would not be reached. The model gives the store an abstract demographics slot that only this page writes, and models the handler as the page means it to work. What the app does with the action missing is not modelled.
- Concurrency: every handler is modelled as atomic. handleStart and both submits wait for the network (app/page.tsx:22, app/compare/page.tsx:109, app/demographics/page.tsx:81), and the start button is never disabled (app/page.tsx:122-128). A second click can therefore start handleStart again while the first run is still waiting. Interleavings of such runs are not modelled.
- DemographicsPage.Page.HandleSubmit: requires a session id. The source asserts one with `!`, and with none it would save a null session id.
- Data.FlattenNewsData: the order of entries is the order `Object.keys` enumerates them (integer-like ids first). The model takes that order as given in the input.
- Distinct ids: selection and shuffling do not prove that no item id repeats in the selection. The catalog is not required to have distinct ids.
- The thank-you page, which calls `reset` when the respondent clicks its back-to-home button, is not part of this model; `Store.SurveyStore.Reset` models the reset itself. The video embed component is not part of this model either; `getYouTubeVideoId` is modelled on its own.
- setNewsCount and setMode are modelled, but no page calls them, so the session keeps newsCount 3 and no mode.
