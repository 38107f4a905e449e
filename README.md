# Environmental inspection reports — a Dafny model

This project models the core of a small web app that construction firms use to
run environmental inspections on their building sites. An engineer opens a
report for a site. The report holds one result per checklist item: Conforme,
Não Conforme, Não Aplicável, or unanswered. Each result can carry photos, a
comment and an action plan. The report is saved as a draft or, once both
signature fields are filled in, as completed.

On every save the report is scored against the checklist catalog:
- each category scores the rounded percentage of compliant answers among its
  applicable ones, or 100 when nothing in it is applicable;
- the report scores the rounded mean of the category scores;
- the report's evaluation band is ÓTIMO, BOM, REGULAR or RUIM.

The screens show several derived views:
- the sites a user may see, with each site's latest score and its pending
  actions (non-compliant answers without a written action);
- one site's dashboard, with its latest report, per-category completeness and
  the older reports;
- the management dashboard, with per-site rows, totals, answer counts and a
  monthly score trend;
- the pending-actions list;
- the administration screen, which grants access to sites and creates sites.

The model is organised by file of the program:

| module | file | program file |
|---|---|---|
| `Types` | types.dfy | `types.ts` (and the `Profile` record of the admin screen) |
| `Order`, `Lists`, `Sorting` | order.dfy, lists.dfy, sorting.dfy | string `<`, `Array.prototype.filter`, `Array.prototype.sort` as the screens use them |
| `Checklist`, `Constants` | checklist.dfy, constants.dfy | `constants.ts` and the catalog walks every file repeats |
| `Scoring` | scoring.dfy | `calculateScores` of `services/dbApi.ts`, and the category loop `services/mockApi.ts` repeats (the two files differ only in the top band's spelling, which `MockApi.CalculateScores` keeps) |
| `Templates` | template.dfy | `getNewReportTemplate` of both services |
| `Storage` | storage.dfy | the stored report list and its keyed replace-or-append |
| `MockApi`, `DbApi` | mock_api.dfy, db_api.dfy | `services/mockApi.ts`, `services/dbApi.ts` |
| `ReportForm` | report_form.dfy | `components/ReportForm.tsx` (a class holding the draft) |
| `PendingActions`, `ProjectDashboard`, `Dashboard`, `App`, `AdminPanel` | one file each | the screens of the same names |

The stateful parts take the form of the code:
- `calculateScores` is a loop over the catalog (`Scoring.ScoreCategories`).
- `saveReport` and `saveLocalReport` are methods that update a `ReportStore`
  object standing for the browser's stored report list.
- The report form is a class whose methods update its `data` field.
- The trend's `dataByMonth` is built by a loop (`Dashboard.BuildDataByMonth`).

Each of these is proved equal to a specification function, and the
properties are proved about those functions.

The model follows the code, including in these points:
- Signatures are two plain strings. Completing a report needs only both
  strings to be non-empty. Editing and signing are not gated by role.
- `types.ts` declares neither `UserProfile` nor `UserRole`, although the admin
  screen and the site dashboard import them. `Types.Profile` and the roles
  admin / assistant / manager / viewer are taken from those two screens'
  use. `Types.Role` holds both vocabularies of the code base.
- The shell renders the site dashboard without a `userRole`
  (`App.tsx:173-181`), so the dashboard never offers its "new / continue
  inspection" button there (`App.DashboardReportsEffect`).
- The management dashboard and the pending-actions list receive every
  project and every report, not the user's filtered lists
  (`App.tsx:207-209`).

## Model

| member | source | states |
|---|---|---|
| `Types.IndexWhere` | components/ReportForm.tsx:75 | the first position whose element passes the test, or -1 exactly when none does |
| `Types.Decimal` | services/mockApi.ts:79 | the spelling of a timestamp in an id is a non-empty run of digits without a leading zero |
| `Types.DecimalInjective` | services/mockApi.ts:85 | different timestamps are spelled differently |
| `Order.LessTotal` | components/Dashboard.tsx:31 | any two different month or date strings are ordered one way or the other |
| `Order.LessTransitive` | components/Dashboard.tsx:31 | the string order used to sort months and dates is transitive |
| `Order.LessAsymmetric` | components/Dashboard.tsx:31 | no two strings sort before each other |
| `Lists.Filter` | components/PendingActions.tsx:47 | a filter never lengthens a list |
| `Lists.FilterMembers` | components/PendingActions.tsx:47 | a filter keeps exactly the elements that pass its test |
| `Lists.FilterAppend` | components/Dashboard.tsx:74 | filtering a concatenation is concatenating the filtered parts |
| `Lists.FilterAll` | App.tsx:36 | a filter returns its input exactly when every element passes |
| `Lists.FilterNone` | App.tsx:222 | a filter returns nothing exactly when no element passes |
| `Lists.FilterTwice` | components/AdminPanel.tsx:66 | filtering twice is filtering once by both tests |
| `Lists.FilterSplit` | components/Dashboard.tsx:89-90 | two complementary filters split the list's length between them |
| `Lists.FilterDrops` | components/AdminPanel.tsx:66 | a list holding an element that fails the test gets shorter |
| `Sorting.Insert` | components/PendingActions.tsx:40 | inserting adds exactly one element |
| `Sorting.SortBy` | components/PendingActions.tsx:40 | sorting keeps the length |
| `Sorting.InsertPermutes` | components/PendingActions.tsx:40 | inserting adds the element to the multiset and changes nothing else |
| `Sorting.InsertSorted` | components/PendingActions.tsx:40 | inserting into a sorted list keeps it sorted |
| `Sorting.SortPermutes` | components/ProjectDashboard.tsx:72 | the sorted list is a permutation of the input |
| `Sorting.SortSorted` | components/ProjectDashboard.tsx:72 | the sorted list is ordered by its key, newest or oldest first as asked |
| `Sorting.SortHead` | components/ProjectDashboard.tsx:72 | the head of the sorted list is an input element that no input element sorts before |
| `Sorting.FilterKeepsSorted` | components/PendingActions.tsx:43-48 | filtering a sorted list keeps it sorted |
| `Sorting.BeforeAsymmetric` | components/PendingActions.tsx:40 | no two keys are strictly before each other |
| `Sorting.NotBeforeTransitive` | components/PendingActions.tsx:40 | "not strictly before" is transitive, so the comparator is consistent |
| `Lists.Map` | services/mockApi.ts:34 | mapping keeps the length and applies the function at every position |
| `Checklist.ItemIds` | services/mockApi.ts:34 | one id per item, in item order |
| `Checklist.CategoryIds` | constants.ts:10-150 | one id per category, in catalog order |
| `Checklist.ItemIdsAppend` | services/mockApi.ts:34 | the ids of concatenated item lists are the concatenated ids |
| `Checklist.SubItemsAppend` | services/mockApi.ts:95 | flattening concatenated subcategory lists concatenates their items |
| `Checklist.AllItemsAppend` | services/mockApi.ts:95 | flattening concatenated catalogs concatenates their items |
| `Checklist.CategoryItemsInAllItems` | components/PendingActions.tsx:25-29 | an item of any category is an item of the catalog |
| `Checklist.AllItemsInSomeCategory` | components/PendingActions.tsx:25-29 | an item of the catalog belongs to some category |
| `Checklist.DistinctAppend` | constants.ts:18-145 | two duplicate-free id lists with nothing in common concatenate to a duplicate-free list |
| `Constants.ItemId` | constants.ts:18-145 | an item id is its prefix, a dash and two decimal digits that spell the item's number |
| `Constants.Numbered` | constants.ts:18-145 | a numbered run of items has as many items as asked |
| `Constants.Ids` | constants.ts:18-145 | a run of ids holds `prefix-NN` at each position, numbered consecutively |
| `Constants.NumberedIds` | constants.ts:18-145 | a numbered run of items has the matching run of ids |
| `Constants.ItemIdInjective` | constants.ts:18-145 | two item ids are equal only for the same prefix and the same number |
| `Constants.IdsDistinct` | constants.ts:18-145 | a run of ids has no duplicates |
| `Constants.IdsDisjoint` | constants.ts:18-145 | runs with different prefixes, or non-overlapping numbers, share no id |
| `Constants.ShippedCategoryItemIds` | constants.ts:12-145 | each category's item ids are massa-01..18, eflu-01..07 and eflu-09..17, campo-01..16, quim-01..10, comb-01..14 |
| `Constants.ShippedAllItems` | constants.ts:10-150 | the catalog's items are the five categories' items in catalog order |
| `Constants.ShippedAllItemIds` | constants.ts:10-150 | the catalog's item ids are the five blocks of ids in catalog order |
| `Constants.ShippedCategories` | constants.ts:12-126 | the catalog has exactly the five categories massa, efluentes, campo, quimicos and combustivel, in that order, with distinct ids |
| `Constants.ShippedItemCounts` | constants.ts:16-145 | the categories hold 18, 16, 16, 10 and 14 items, 74 in all |
| `Constants.ShippedNoEmptyCategory` | constants.ts:14-148 | every category has a subcategory and every subcategory an item |
| `Constants.ShippedItemIdsDistinct` | constants.ts:18-145 | no two items of the catalog share an id, within or across categories |
| `Constants.Eflu08Absent` | constants.ts:58-64 | item numbers are not contiguous: there is no eflu-08 |
| `Constants.MockProjectIds` | constants.ts:4-8 | the mock projects are proj-1, proj-2 and proj-3, with distinct ids |
| `Scoring.RoundRatio` | services/mockApi.ts:46-47 | a category percentage lies in 0..100, is 0 with no compliant answer and 100 with all compliant |
| `Scoring.RoundRatioNearest` | services/mockApi.ts:46-47 | the percentage is the integer nearest to 100 × compliant / applicable, halves rounded up |
| `Scoring.RoundMean` | services/mockApi.ts:53 | the mean of scores in 0..100 lies in 0..100 |
| `Scoring.RoundMeanNearest` | services/mockApi.ts:53 | the overall score is the integer nearest to the exact mean, halves rounded up |
| `Scoring.CategoryScore` | services/mockApi.ts:34-48 | every category score lies in 0..100 |
| `Scoring.Scores` | services/mockApi.ts:33-51 | one score per category of the catalog, in catalog order |
| `Scoring.SumBounds` | services/mockApi.ts:49 | a total of n scores in lo..hi lies in n·lo..n·hi |
| `Scoring.OverallScore` | services/mockApi.ts:53 | the overall score lies in 0..100 |
| `Scoring.ScoreMap` | services/mockApi.ts:43-47 | the category score map has exactly the catalog's category ids as keys, each mapped into 0..100 |
| `Scoring.ScoreMapLookup` | services/mockApi.ts:43-47 | a category's id maps to that category's own score (the last category with the id wins) |
| `Scoring.ScoreCategories` | services/mockApi.ts:33-51 | the loop over the catalog fills the score map, totals the category scores and counts every category |
| `Scoring.CalculateScores` | services/dbApi.ts:43-72 | the score is the rounded mean of the category scores (100 without categories), the evaluation is its band's label with the top band spelled "ÓTIMO", and the map holds each category's score |
| `MockApi.CalculateScores` | services/mockApi.ts:28-61 | the same score and map, with the evaluation spelled as this file spells it: "Ã“TIMO" from 90 up, never "ÓTIMO", and the shared label below 90 |
| `Scoring.CategoryScoreSameKeys` | services/mockApi.ts:35-39 | a category score depends only on each result's item and whether it is C, NA or neither |
| `Scoring.ScoresSameKeys` | services/mockApi.ts:33-53 | two result lists that agree on items and scoring classes get the same scores and map |
| `Scoring.ScoreMapPointwise` | services/mockApi.ts:43-47 | equal category scores give equal score maps |
| `Scoring.NothingApplicableScores100` | services/mockApi.ts:41-43 | a category with no applicable result (all NA, or none at all) scores exactly 100 |
| `Scoring.NoneCompliantScores0` | services/mockApi.ts:37-47 | a category with applicable results none of which is compliant (NC or unanswered) scores 0 |
| `Scoring.AllCompliantScores100` | services/mockApi.ts:44-47 | a category whose results are all compliant scores 100 |
| `Scoring.UniformScores` | services/mockApi.ts:49-53 | every category weighs the same: when all categories score s, the report scores s |
| `Scoring.RoundMeanExact` | services/mockApi.ts:53 | the rounded mean of n copies of s is s |
| `Scoring.CategoryIdInCatalog` | services/mockApi.ts:34 | an id of a category's items is an id of the catalog's items |
| `Scoring.ForeignResultIgnoredInCategory` | services/mockApi.ts:35 | a result for an item outside a category is not one of that category's results |
| `Scoring.ForeignResultIgnored` | services/mockApi.ts:34-35 | a result whose item is in no category changes no score, no overall score and no map entry |
| `Scoring.BandMonotone` | services/dbApi.ts:66-69 | a higher score never falls into a worse band |
| `Scoring.Evaluation` | services/dbApi.ts:66-69 | the label is RUIM exactly below 50, REGULAR exactly from 50 to 69, and BOM exactly from 70 to 89 |
| `Scoring.EvaluationOtimo` | services/dbApi.ts:66-69 | the evaluation reads ÓTIMO exactly from 90 up |
| `Scoring.ExampleHalfCompliant` | services/mockApi.ts:46-47 | one compliant and one non-compliant answer score 50 |
| `Scoring.ExampleAllNA` | services/mockApi.ts:41-43 | a category whose only answer is NA scores 100 |
| `Scoring.ExampleScores` | services/mockApi.ts:49-58 | categories scoring 50 and 100 give 75, which reads BOM |
| `Templates.ResultIds` | services/mockApi.ts:97-98 | one item id per result, in result order |
| `Templates.BlankResults` | services/mockApi.ts:95-108 | the template has one result per catalog item, in catalog order, each unanswered, with no photos, an empty comment and an empty plan with every resource flag off |
| `Templates.DatePart` | services/mockApi.ts:112 | the day is the prefix of the timestamp before its first 'T' |
| `Templates.DatePartOfTimestamp` | services/mockApi.ts:112 | a timestamp `<day>T<time>` yields its day |
| `Templates.BlankCategoryScoresZero` | services/mockApi.ts:37-47 | on a fresh template, every non-empty category scores 0 because unanswered items count against it |
| `Templates.TemplateScoresZero` | services/mockApi.ts:53-58 | a fresh template on a catalog without empty categories scores 0 and reads RUIM |
| `Storage.ReportStore.constructor` | services/mockApi.ts:23-26 | the store starts out holding the stored report list, which in the source is read from storage (the read is not modelled and the list is a parameter) |
| `Storage.NewReportIdDistinct` | services/mockApi.ts:79 | reports created at different instants get different ids |
| `Storage.Upsert` | services/dbApi.ts:26-35 | the upserted list holds the report, and either keeps its length (a replacement) or is the old list with the report appended |
| `Storage.UpsertFrame` | services/dbApi.ts:26-35 | a known id replaces exactly the first report with that id and nothing else; an unknown id appends exactly one report |
| `Storage.UpsertThenFind` | services/dbApi.ts:26-35 | after the upsert, a lookup of the id finds the report |
| `Storage.UpsertIdempotent` | services/dbApi.ts:26-35 | upserting the same report twice is upserting it once |
| `Storage.UpsertOtherIds` | services/dbApi.ts:26-35 | lookups of every other id are unaffected |
| `Storage.UpsertIds` | services/dbApi.ts:26-35 | the stored ids gain the report's id and lose none |
| `MockApi.EvaluationAsWritten` | services/mockApi.ts:55-58 | below 90 the label is the shared scoring's label; the top band keeps the file's own spelling |
| `MockApi.SavedReport` | services/mockApi.ts:64-88 | the saved report carries every draft field under a non-empty id, and keeps the draft's id whenever that id is non-empty and stored |
| `MockApi.SaveIndex` | services/mockApi.ts:71-74 | the slot to overwrite exists exactly when the draft has a non-empty id that is stored, and holds that id |
| `MockApi.SaveReport` | services/mockApi.ts:64-92 | saving returns the scored report, labelled in this file's spelling, and leaves the store updated in place or extended, as `AfterSave` describes |
| `MockApi.GetNewReportTemplate` | services/mockApi.ts:94-120 | the template is an unsaved draft of the project, with one blank result per catalog item and the manager signature pre-filled |
| `MockApi.SavedReportContents` | services/mockApi.ts:66-88 | the saved report keeps every draft field; its score and map are the scoring of its results; its evaluation is this file's spelling, never "ÓTIMO" from 90 up; its id is the draft's when found, a fresh `report-` id otherwise |
| `MockApi.AfterSaveFrame` | services/mockApi.ts:71-88 | a found id overwrites only that index and keeps the length; anything else appends exactly one report |
| `MockApi.SaveIsUpsert` | services/mockApi.ts:71-88 | when the fresh id is not already stored, saving is the keyed replace-or-append of the stored list |
| `MockApi.ResaveUnchanged` | services/mockApi.ts:64-92 | saving a stored report again, unchanged, returns the same report and leaves the store as it was |
| `MockApi.ShippedTemplateScoresZero` | services/mockApi.ts:94-120 | the template scores 0 and reads RUIM against the shipped catalog |
| `MockApi.EvaluationAsWrittenMisspellsOtimo` | services/mockApi.ts:55-58 | as written, every score of 90 or more is labelled with a string other than ÓTIMO; below 90 both spellings agree |
| `DbApi.ProcessPhoto` | services/dbApi.ts:145-150 | a processed photo keeps its id, and a photo whose data is not a `data:image` URL is left as it is |
| `DbApi.UpsertedReport` | services/dbApi.ts:141-166 | the report keeps every draft field except the processed results, has a non-empty id equal to the draft's whenever that is non-empty, and scores in 0..100 with the "ÓTIMO"-spelled label |
| `DbApi.SaveLocalReport` | services/dbApi.ts:26-35 | the stored list becomes its keyed replace-or-append with the report |
| `DbApi.UpsertReport` | services/dbApi.ts:141-183 | returns the report built from the processed results, and stores it locally unless a remote write succeeded |
| `DbApi.GetNewReportTemplate` | services/dbApi.ts:185-212 | the same blank results as the other service, with both signatures empty |
| `DbApi.ProcessPhotoEffect` | services/dbApi.ts:145-150 | only `data:image` photos are rewritten, to the URL the backend gives; without a backend, or when the upload fails or gives an empty URL, the photo stays as it was |
| `DbApi.ProcessResultsShape` | services/dbApi.ts:143-155 | processing keeps every result's position and fields, and its photos' number, order and ids |
| `DbApi.OfflineKeepsResults` | services/dbApi.ts:119 | without a backend the photo pass changes nothing |
| `DbApi.UpsertScoresIgnorePhotos` | services/dbApi.ts:158 | uploading photos never changes a score, the map or the evaluation |
| `DbApi.UpsertThenFindLocal` | services/dbApi.ts:163-180 | when the report is kept locally, a lookup of its id finds it |
| `DbApi.OfflineMatchesMockSave` | services/dbApi.ts:160-166 | without a backend both services build the same report except in two fields: this one keeps an unknown non-empty id, and the evaluations agree exactly below 90 |
| `DbApi.OfflineMatchesMockStore` | services/dbApi.ts:160-166 | without a backend and with a fresh new id, both services leave the same stored list exactly when the report scores below 90 |
| `ReportForm.Form.constructor` | components/ReportForm.tsx:59-64 | the form opens the existing report as a draft, or a fresh template, and is read-only exactly for a completed report |
| `ReportForm.Form.HandleResultChange` | components/ReportForm.tsx:66-72 | a result edit patches the item's results, and does nothing on a read-only form |
| `ReportForm.Form.HandleAddPhoto` | components/ReportForm.tsx:74-79 | adding a photo extends the item's first result, and does nothing on a read-only form |
| `ReportForm.Form.HandleRemovePhoto` | components/ReportForm.tsx:81-86 | removing a photo filters the item's photos, and does nothing on a read-only form |
| `ReportForm.Form.HandleActionPlanChange` | components/ReportForm.tsx:88-93 | a plan change merges into the item's plan, and does nothing on a read-only form |
| `ReportForm.Form.SetInspectorSignature` | components/ReportForm.tsx:220 | typing in the inspector field sets that signature only |
| `ReportForm.Form.SetManagerSignature` | components/ReportForm.tsx:224 | typing in the manager field sets that signature only |
| `ReportForm.Form.HandleSubmit` | components/ReportForm.tsx:95-104 | a submit is ignored when read-only, refused when completing without both signatures, and otherwise saves the dated draft with the chosen status through the browser-only service, with its spelling of the evaluation |
| `ReportForm.UpdateResults` | components/ReportForm.tsx:66-72 | patching an item's results keeps every result's position and item id |
| `ReportForm.MergePlan` | components/ReportForm.tsx:88-93 | an empty patch leaves the plan as it was, or the empty plan when there was none |
| `ReportForm.PhotoAdded` | components/ReportForm.tsx:74-79 | adding a photo changes only the draft's results, and keeps their item ids |
| `ReportForm.PhotoRemoved` | components/ReportForm.tsx:81-86 | removing a photo changes only the draft's results, and keeps their item ids |
| `ReportForm.PhotoRemovedEffect` | components/ReportForm.tsx:81-86 | removing a photo from an item without a result leaves the draft as it was; otherwise that item's photos become its photos without the ones with that id |
| `ReportForm.PlanChanged` | components/ReportForm.tsx:88-93 | changing a plan changes only the draft's results, and keeps their item ids |
| `ReportForm.SubmitOutcomeOf` | components/ReportForm.tsx:95-104 | a submission is ignored exactly on a read-only form; a saved report has the chosen status and the draft's results; a completed one has both signatures |
| `ReportForm.UpdateResultsEffect` | components/ReportForm.tsx:66-72 | an edit changes only the results of that item, setting exactly the patched fields, and keeps the list's length, order and items |
| `ReportForm.NonStatusEditKeepsScores` | components/ReportForm.tsx:66-72 | editing photos, comments or plans never changes a score |
| `ReportForm.WithoutPhotoEffect` | components/ReportForm.tsx:84 | removing drops every photo with that id and keeps the others; the list is unchanged exactly when no photo has that id, and shorter otherwise |
| `ReportForm.WithoutPhotoAppend` | components/ReportForm.tsx:84 | removal works photo by photo over a concatenation, so the kept photos keep their order and multiplicity |
| `ReportForm.PhotoAddedEffect` | components/ReportForm.tsx:74-79 | the item's first result ends with the new photo; an unknown item changes nothing |
| `ReportForm.AddThenRemovePhoto` | components/ReportForm.tsx:74-86 | with one result per item, adding a new photo and removing it again restores the draft |
| `ReportForm.PlanChangedEffect` | components/ReportForm.tsx:88-93 | the item's first result gets the merged plan; an unknown item changes nothing |
| `ReportForm.MergePlanEffect` | components/ReportForm.tsx:91 | a merge sets exactly the fields the change names and keeps the others, and repeating it changes nothing |
| `ReportForm.SubmitOutcomeEffect` | components/ReportForm.tsx:95-104 | a completed report is saved only with both signatures; a saved one carries the status, today's day, the results, the signatures, their score and the browser-only service's evaluation label; a draft on an editable form is always saved |
| `PendingActions.PendingItems` | components/PendingActions.tsx:16-41 | the pending entries newest report first, as a permutation of the unsorted entries |
| `PendingActions.FilteredItems` | components/PendingActions.tsx:43-48 | the shown entries are entries of the list, never more of them |
| `PendingActions.UnsortedSound` | components/PendingActions.tsx:17-39 | every entry is a pending result of a listed report whose project exists, with that project, the catalog's text and category |
| `PendingActions.UnsortedComplete` | components/PendingActions.tsx:17-39 | every pending result of a report whose project exists has its entry |
| `PendingActions.OrphanReportIgnored` | components/PendingActions.tsx:19-20 | a report whose project is unknown contributes nothing |
| `PendingActions.UnsortedAppend` | components/PendingActions.tsx:17-18 | the entries of concatenated report lists are the concatenated entries |
| `PendingActions.PendingItemsOrdered` | components/PendingActions.tsx:40 | the list is newest report first and is a permutation of the entries |
| `PendingActions.FilteredItemsEffect` | components/PendingActions.tsx:43-48 | 'all' keeps the list; any other value keeps exactly that project's entries, still newest first |
| `PendingActions.FindItemAndCategory` | components/PendingActions.tsx:25-29 | an item and its category are found exactly when the catalog holds the item id |
| `PendingActions.UnknownItemLabels` | components/PendingActions.tsx:35-36 | an item the catalog lacks shows 'Item não encontrado' and an empty category id |
| `ProjectDashboard.LatestReport` | components/ProjectDashboard.tsx:72 | there is a latest report exactly when the project has reports, and it is one of them |
| `ProjectDashboard.CategoryComplete` | components/ProjectDashboard.tsx:77-87 | a category is complete only when there is a latest report and the category is in the catalog |
| `ProjectDashboard.OfferedAction` | components/ProjectDashboard.tsx:103-110 | the button is rendered exactly when the role may create or edit, and when it continues a report, that report is a listed draft |
| `ProjectDashboard.History` | components/ProjectDashboard.tsx:177 | the history holds only the project's reports, never more of them |
| `ProjectDashboard.LatestReportEffect` | components/ProjectDashboard.tsx:72 | there is a latest report exactly when there are reports; it is one of them and none is dated later |
| `ProjectDashboard.RingToneFollowsBand` | components/ProjectDashboard.tsx:33-38 | the ring is green, blue, yellow or red exactly in the ÓTIMO, BOM, REGULAR or RUIM band |
| `ProjectDashboard.OfferedActionRoles` | components/ProjectDashboard.tsx:75-110 | the header button is rendered exactly for admins, assistants and managers, and it continues the latest report exactly when that role may act and the latest report is a draft |
| `ProjectDashboard.PrimaryActionEffect` | components/ProjectDashboard.tsx:105-109 | the button continues the latest report at 'massa' exactly when it is a draft, and otherwise starts a new inspection |
| `ProjectDashboard.CategoryIncomplete` | components/ProjectDashboard.tsx:77-87 | a category is incomplete without a latest report, and while any of its items lacks an answered result |
| `ProjectDashboard.TemplateCategoriesIncomplete` | components/ProjectDashboard.tsx:77-87 | every non-empty category of a fresh template is incomplete |
| `ProjectDashboard.CategoryCompleteWhenAnswered` | components/ProjectDashboard.tsx:77-87 | a category whose items all have answered results is complete |
| `ProjectDashboard.DisplayedScoreIsCategoryScore` | components/ProjectDashboard.tsx:148 | a tile shows its category's score |
| `ProjectDashboard.DisplayedScoreUnknownCategory` | components/ProjectDashboard.tsx:148 | a category without a stored score shows 0 |
| `ProjectDashboard.HistoryEffect` | components/ProjectDashboard.tsx:173-177 | the history is newest first and holds every report whose id differs from the latest's |
| `ProjectDashboard.BadgeGreenIffOtimo` | components/ProjectDashboard.tsx:189 | with correctly spelled evaluations, a badge is green exactly for scores of 90 or more |
| `ProjectDashboard.BadgeNeverGreenAsWritten` | components/ProjectDashboard.tsx:189 | with the browser-only service's spelling, no badge is ever green |
| `ProjectDashboard.FormSavedNeverGreen` | components/ProjectDashboard.tsx:189 | every report the form saves gets a yellow history badge, whatever its score |
| `Dashboard.BuildDataByMonth` | components/Dashboard.tsx:18-29 | the loop builds the grouping of scores by month and project, and lists the months in first-seen order |
| `Dashboard.AllResultsAppend` | components/Dashboard.tsx:74 | flattening concatenated report lists concatenates their results |
| `Dashboard.AllResultsMembers` | components/Dashboard.tsx:85 | the flattened results are exactly the results of the reports |
| `Dashboard.Row` | components/Dashboard.tsx:70-81 | a row names its project, and a project without reports shows score 0 and no pending actions |
| `Dashboard.RowScore` | components/Dashboard.tsx:71-73 | a project's row shows 0 without reports, and otherwise the score of one of its reports dated no earlier than any other |
| `Dashboard.StatusCounts` | components/Dashboard.tsx:85-91 | the compliant and non-compliant counts add up to the number of answered results |
| `Dashboard.StatusCountsEffect` | components/Dashboard.tsx:85-91 | the counts are the C and NC answers; NA and unanswered are left out; the two sum to the answered results |
| `Dashboard.PendingCountAppend` | components/Dashboard.tsx:74 | one more report adds its own pending results to the count |
| `Dashboard.ProjectPendingAppend` | components/Dashboard.tsx:71-74 | a project's count grows by a new report's pending results only when the report is that project's |
| `Dashboard.TotalPendingAppend` | components/Dashboard.tsx:83 | the total over all rows is additive in the reports |
| `Dashboard.OneReportPending` | components/Dashboard.tsx:70-83 | with distinct project ids, one report's pending results count once when its project is listed and not at all otherwise |
| `Dashboard.UnsortedOne` | components/PendingActions.tsx:17-39 | the pending list has one entry per pending result of a report whose project is listed |
| `Dashboard.TotalPendingMatchesPendingList` | components/Dashboard.tsx:83 | with distinct project ids, the dashboard's total equals the length of the pending-actions list |
| `Dashboard.GroupEffect` | components/Dashboard.tsx:20-29 | the grouping holds, for every month and project, exactly those reports' scores in order; its months are exactly the reports' months; no list is empty |
| `Dashboard.MonthsSeenEffect` | components/Dashboard.tsx:31 | every month appears once, and exactly the reports' months appear |
| `Dashboard.TrendData` | components/Dashboard.tsx:17-41 | the chart gets one point per distinct month of the reports |
| `Dashboard.TrendMonths` | components/Dashboard.tsx:31 | the points' months, before the object is built, rise strictly and are exactly the reports' months |
| `Dashboard.EntryObject` | components/Dashboard.tsx:32-37 | the chart's object has a "month" key and every project's mean under the project's name |
| `Dashboard.EntryObjectFields` | components/Dashboard.tsx:32-37 | a point's object holds each project's mean under its name and the month under "month", unless a project named "month" has a mean that month, which replaces the label |
| `Dashboard.DistinctSorted` | components/Dashboard.tsx:31 | sorting distinct months gives a strictly rising list |
| `Dashboard.ShowTrendIffTwoMonths` | components/Dashboard.tsx:48-50 | the chart is drawn exactly when the reports span at least two months |
| `Dashboard.ProjectValuesEffect` | components/Dashboard.tsx:33-38 | a project name gets a value exactly when a project of that name has scores that month, and the value lies in 0..100 |
| `Dashboard.ProjectValuesLast` | components/Dashboard.tsx:33-38 | the last project of a name sets that name's value to the rounded mean of its scores |
| `Dashboard.ProjectValuesNames` | components/Dashboard.tsx:33-38 | a name gets a value only from a project of that name that has scores |
| `Dashboard.MonthGroupEffect` | components/Dashboard.tsx:34 | a month's map holds a project exactly when the project has scores that month, and then holds those scores |
| `Dashboard.TrendEntryValues` | components/Dashboard.tsx:31-41 | each trend point holds the rounded mean of a project's scores that month under its name, and nothing for a name with no report that month |
| `App.FilteredProjects` | App.tsx:36 | the visible projects are exactly the listed projects the user may see |
| `App.FilteredReports` | App.tsx:37-41 | the visible reports are exactly the listed reports whose project exists and is visible to the user |
| `App.FilteredProjectsEffect` | App.tsx:36 | 'Diretoria' sees every project, anyone else exactly the assigned ones, in order |
| `App.FilteredReportsEffect` | App.tsx:37-41 | a report is visible exactly when its project exists and the user sees all projects or has that id assigned |
| `App.CardScore` | App.tsx:129-134 | a card has no score exactly when its site has no visible report, and otherwise the score of the latest one; its score and count agree with the management dashboard's row |
| `App.SiteCardsEffect` | App.tsx:129-135 | there is one card per visible project, in order |
| `App.BorderFollowsRing` | App.tsx:137-143 | no score draws gray, and a score draws its ring's colour, green exactly in the ÓTIMO band |
| `App.DashboardReportsEffect` | App.tsx:171-182 | the site dashboard receives exactly the visible reports of the selected site; the dashboard the shell renders offers no header button, where an admin would be offered one |
| `App.NavItemsByRole` | App.tsx:217-222 | 'Diretoria' gets both entries, 'Engenheiro' only 'Obras', any other role none |
| `App.HighlightedByView` | App.tsx:220-229 | a role never sees more than one highlighted entry: 'Obras' on the site screens for both roles that have it, 'Gerencial' on the management dashboard for 'Diretoria' only, none on the pending-actions list |
| `App.SaveHighlightsObras` | App.tsx:78-90 | after a save 'Obras' is the one highlighted entry, and the selected site's dashboard is shown exactly when a site is selected |
| `AdminPanel.Toggle` | components/AdminPanel.tsx:63-70 | after the toggle the user holds the project exactly when they did not before |
| `AdminPanel.MergeInto` | components/AdminPanel.tsx:39-46 | merging an edit keeps the list's length and every profile's id in place |
| `AdminPanel.UpdateUsers` | components/AdminPanel.tsx:39-46 | an update, whether the write succeeds or not, keeps the list's length and every profile's id in place |
| `AdminPanel.CreateProject` | components/AdminPanel.tsx:48-61 | a project is created exactly when both fields are filled, with the given name and location and an id starting `proj-` |
| `AdminPanel.ToggleMembership` | components/AdminPanel.tsx:63-67 | a toggle flips the project's membership and keeps every other id's |
| `AdminPanel.ToggleKeepsOthers` | components/AdminPanel.tsx:65-67 | the other ids stay in their original order |
| `AdminPanel.ToggleShape` | components/AdminPanel.tsx:65-67 | a missing project is appended at the end; a present one disappears entirely, every occurrence of it |
| `AdminPanel.ToggleTwice` | components/AdminPanel.tsx:63-67 | granting and then revoking access restores the list |
| `AdminPanel.ToggleMissingList` | components/AdminPanel.tsx:64 | a missing list counts as empty, so access is granted |
| `AdminPanel.MergeIntoEffect` | components/AdminPanel.tsx:42 | an update reaches every profile with the id and no other, setting exactly the given fields |
| `AdminPanel.UpdateUsersUnchanged` | components/AdminPanel.tsx:39-46 | a failed write, or an id nobody has, leaves the list as it was |
| `AdminPanel.ToggleAccessEffect` | components/AdminPanel.tsx:63-69 | after a successful toggle the user's profile holds the flipped access and everyone else is untouched |
| `AdminPanel.CreateProjectEffect` | components/AdminPanel.tsx:48-53 | a project is created exactly when both name and location are filled, with those fields and an id `proj-<digits>` |
| `AdminPanel.CreateProjectDistinctIds` | components/AdminPanel.tsx:53 | projects created at different instants get different ids |

## Left out

- Storage and network I/O are not modelled: `localStorage`, the remote database, the photo bucket and `services/auth.ts`. The stored report list is a `ReportStore` object. The backend is a `DbApi.Backend` value: its URL answers and whether its write succeeds are parameters.
- `getProjects`, `getReports`, `initializeData`, `fetchProjects`, `fetchReports` and `upsertProject` read or write storage only, so they are left out.
- The clock is a parameter: milliseconds for new ids, and an ISO timestamp for the day.
- The photo uploads run in parallel in the program. The model processes them in order.
- Floating point is not modelled. `Math.round` of a ratio is the exact integer round-half-up formula (`Scoring.RoundRatio`, `Scoring.RoundMean`).
- Dates are not parsed. They are ISO `YYYY-MM-DD` strings compared as strings, and a month is a date's first seven characters. `new Date(...)` on other formats, invalid dates and time zones are not modelled.
- The program sorts `reports` in the caller's own array (`ProjectDashboard.tsx:72`, `App.tsx:131`, `Dashboard.tsx:72`). The model sorts a copy, so the reordering seen by the caller is not modelled.
- ProjectDashboard.LatestReportEffect: does not say which of several reports with the same latest date is chosen. Stability of the sort is not proved.
- The scoring takes the catalog as a parameter. The shipped catalog is `Constants.ChecklistDefinitions`, and its facts are proved separately.
- ReportForm.MergePlan: a result without an action plan is merged into an empty plan. The program would spread `undefined` and produce a plan holding only the changed fields.
- ReportForm.Form.SetInspectorSignature: does not check `readOnly`, because the program disables the input rather than guarding the handler.
- The form's active category, `initialCategoryId`, the alert text and the photo picker (`FileReader`) are UI. They are not modelled.
- AdminPanel.UpdateUsers: a profile change carries only the role and the assigned projects. Those are the only fields the screen changes.
- Creating a project does not model the remote write or the clearing of the two fields.
- Rendering is not modelled: the header title, the charts, the toast timer, `ReportView.tsx` and `AuthScreen.tsx`.
- DbApi.OfflineMatchesMockSave: the two services differ on a non-empty id that is not stored, and on the evaluation from 90 up. `dbApi` keeps the id, while `mockApi` mints a new one; `dbApi` writes "ÓTIMO", while `mockApi` writes its mis-encoded label. The lemma states both differences rather than hiding them.
- Dashboard.TrendData: each point keeps its month apart from the project means. The object the chart receives is `Dashboard.EntryObject`, where a project named "month" replaces the month label; `Dashboard.TrendMonths` speaks of the months before that overwrite.
- Sorting.SortBy: is meant to be stable, like `Array.prototype.sort`, but only the permutation and the order by key are proved.

## Findings

| source | as written | input that shows it | evidently intended | confidence | as-written member | corrected member |
|---|---|---|---|---|---|---|
| services/mockApi.ts:56 | the top band is labelled `'Ã“TIMO'`, the UTF-8 bytes of "ÓTIMO" read as Windows-1252, so the site dashboard's history badge (`components/ProjectDashboard.tsx:189`) never turns green for reports saved through this service | a report scoring 90 is stored with evaluation "Ã“TIMO" ≠ "ÓTIMO" | label the band "ÓTIMO", as `services/dbApi.ts:67` does | not executed | `MockApi.EvaluationAsWrittenMisspellsOtimo` (`MockApi.EvaluationAsWritten`, stored by `MockApi.SaveReport`; badge: `ProjectDashboard.BadgeNeverGreenAsWritten`, `ProjectDashboard.FormSavedNeverGreen`) | `Scoring.EvaluationOtimo` (`Scoring.Evaluation`, stored by `DbApi.UpsertReport`; badge: `ProjectDashboard.BadgeGreenIffOtimo`) |
