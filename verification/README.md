# Civic app screens in Dafny

A model of the state logic of a small civic web app written in React and TypeScript. The app covers complaints, community events, feedback and public-toilet ratings.

Every screen is reduced to pure functions over immutable records:

- **Admin tables** for complaints, events, users and administrators. Each has a case-insensitive search box, a status change or save by id, and removal by id. The complaint, event and user tables also colour a status badge; the administrator table has none.
- **Admin dialogs**: the details dialogs for complaints, events and users, and the permissions dialog for administrators. The model covers how they initialise from the record they are opened with, what each input edits, which controls are disabled, and what they hand back.
- **Public pages**:
  - the complaints page, with title/area search and per-status tabs;
  - the events page, with stored events, search, category lists and the registration dialog;
  - the feedback and toilet-rating forms, which append to the browser's key-value store;
  - the admin feedback viewer, which loads those two lists back and filters them.

Module layout:

- One module per component, named as in the app.
- Shared helpers:
  - `Text`: ASCII lowercasing, substring search, decimal rendering of clock values;
  - `Seqs`: `filter` and order-preserving subsequences;
  - `Storage`: the keyed store of JSON lists;
  - `Checklist`: checkbox groups;
  - `Js`: `x || default`;
  - `Badges`: badge colours;
  - `Wrappers`: `Option` and `Result`.

How the model treats its inputs:

- A click, a keystroke or a select pick is an `Edit` value. A session in a dialog is a sequence of them.
- The clock is a parameter, both `Date.now()` and the ISO time stamp.
- The browser store is a map from key to `Slot`. A slot is missing, holds a list, or holds text that does not parse.

## Model

| member | source | states |
|---|---|---|
| Text.ContainsIffOccurs | src/components/admin/ComplaintManagement.tsx:34-38 | `includes` as computed agrees with its definition: the needle occurs at some position |
| Text.NarrowerQuery | src/components/admin/ComplaintManagement.tsx:34-38 | a field that matches a query also matches every substring of that query |
| Text.MatchIgnoresQueryCase | src/components/admin/ComplaintManagement.tsx:34-38 | queries equal after lowering match the same fields |
| Text.EmptyQueryMatches | src/components/admin/ComplaintManagement.tsx:34-38 | the empty query matches every field |
| Text.DecimalRoundTrip | src/components/admin/AdminManagement.tsx:61 | reading back the decimal text of a clock value gives the value, so different times give different ids |
| Seqs.Filter | src/components/admin/ComplaintManagement.tsx:51 | `filter` keeps exactly the passing elements, in order; it is the identity iff every element passes |
| Seqs.FilterCounts | src/components/admin/ComplaintManagement.tsx:51 | `filter` keeps every passing element as often as it occurs and no failing one |
| Seqs.FilterCountsAll | src/components/admin/ComplaintManagement.tsx:51 | the counts of `filter`, stated for every element at once |
| Seqs.FilterSizes3 | src/pages/ComplaintsPage.tsx:28-30 | three mutually exclusive filters select at most the list's length, and exactly that when they cover it |
| Storage.ReadList | src/pages/FeedbackPage.tsx:50 | a missing key reads as []; a stored list reads as itself; unparsable text is the only failure, a parse error naming the key |
| Storage.Push | src/pages/FeedbackPage.tsx:50-52 | the key ends up holding the old list plus the record at the end; every other key is unchanged; unparsable text fails with a parse error naming the key and nothing written |
| Storage.PushOntoMissing | src/pages/FeedbackPage.tsx:50 | pushing under a key never written leaves exactly the one record |
| Storage.PushKeepsEarlierRecords | src/pages/FeedbackPage.tsx:50-52 | after a push the list is one longer, its prefix is the old list and its last element the record |
| Checklist.Toggle | src/components/admin/AdminPermissionsDialog.tsx:73-85 | checking appends at the end; unchecking removes every copy, keeps the other options in order with their counts, and is the identity iff the option was absent |
| Checklist.Click | src/components/admin/AdminPermissionsDialog.tsx:179-184 | a click on a checked box removes every copy of the option, keeping every other option with its count and order; on an unchecked one appends it |
| Checklist.UncheckUndoesCheck | src/components/admin/AdminPermissionsDialog.tsx:73-85 | checking then unchecking an absent option restores the list |
| Checklist.ClickTwiceRestores | src/components/admin/AdminPermissionsDialog.tsx:179-184 | two clicks on an unchecked box restore the list |
| ComplaintManagement.Search | src/components/admin/ComplaintManagement.tsx:34-38 | keeps exactly the complaints whose title, area or status contains the query case-insensitively, as a subsequence; the empty query keeps all; each kept record appears as often as in the input |
| ComplaintManagement.SearchIgnoresCase | src/components/admin/ComplaintManagement.tsx:34-38 | queries differing only in letter case give the same result |
| ComplaintManagement.SearchNarrows | src/components/admin/ComplaintManagement.tsx:34-38 | extending the query gives a result that the shorter query's result contains |
| ComplaintManagement.SetStatus | src/components/admin/ComplaintManagement.tsx:40-43 | length kept; complaints with the id get the status and nothing else; others unchanged; an unknown id changes nothing |
| ComplaintManagement.SetStatusKeepsIds | src/components/admin/ComplaintManagement.tsx:40-43 | a status change keeps the set of ids |
| ComplaintManagement.Remove | src/components/admin/ComplaintManagement.tsx:50-51 | no complaint with the id remains, the others keep their order, and an unknown id changes nothing; each kept record appears as often as in the input |
| ComplaintManagement.RemoveAfterSetStatus | src/components/admin/ComplaintManagement.tsx:40-51 | removing after a status change equals removing |
| ComplaintManagement.ApplyDialogResult | src/components/admin/ComplaintManagement.tsx:142-151 | a reported status goes to the selected complaint's id only; no report changes nothing |
| ComplaintManagement.StatusBadge | src/components/admin/ComplaintManagement.tsx:63-73 | lowered "resolved" is green, "in progress" blue, anything else, pending included, yellow |
| ComplaintManagement.StatusBadgeIgnoresCase | src/components/admin/ComplaintManagement.tsx:63-73 | statuses equal after lowering get the same badge |
| ComplaintDetailsDialog.Open | src/components/admin/ComplaintDetailsDialog.tsx:34 | the selected status starts as the complaint's status |
| ComplaintDetailsDialog.Choose | src/components/admin/ComplaintDetailsDialog.tsx:68-77 | picking an item selects it and keeps the complaint |
| ComplaintDetailsDialog.Emitted | src/components/admin/ComplaintDetailsDialog.tsx:80-83 | update reports the selected status; cancel reports nothing |
| ComplaintDetailsDialog.OptionsHaveDistinctBadges | src/components/admin/ComplaintDetailsDialog.tsx:73-75 | Pending, In Progress and Resolved get yellow, blue and green in the table |
| ComplaintDetailsDialog.ConfirmAppliesChoice | src/components/admin/ComplaintDetailsDialog.tsx:68-82 | confirming a pick sets that status on exactly the complaints sharing the selected id |
| ComplaintDetailsDialog.ConfirmUnchangedIsNoop | src/components/admin/ComplaintDetailsDialog.tsx:34-82 | confirming without a pick leaves a table of unique ids unchanged |
| ComplaintDetailsDialog.CancelIsNoop | src/components/admin/ComplaintDetailsDialog.tsx:81 | cancelling leaves the table unchanged |
| EventManagement.Search | src/components/admin/EventManagement.tsx:33-37 | keeps exactly the events whose title, location or status contains the query case-insensitively, in order; the empty query keeps all; each kept record appears as often as in the input |
| EventManagement.SearchIgnoresCase | src/components/admin/EventManagement.tsx:33-37 | queries differing only in letter case give the same result |
| EventManagement.Save | src/components/admin/EventManagement.tsx:51-74 | create appends the record with the clock value as id; update keeps length and ids, replaces every event with the record's id, and an unknown id changes nothing |
| EventManagement.Remove | src/components/admin/EventManagement.tsx:76-77 | no event with the id remains, the others keep their order; each kept record appears as often as in the input |
| EventManagement.RemoveAfterUpdate | src/components/admin/EventManagement.tsx:63-77 | removing after an update equals removing |
| EventManagement.RemoveAfterCreate | src/components/admin/EventManagement.tsx:52-77 | removing the id a create used undoes the create, and also removes any older event with that id |
| EventManagement.StatusBadge | src/components/admin/EventManagement.tsx:84-95 | lowered upcoming is blue, completed green, cancelled red, anything else gray |
| EventDetailsDialog.Init | src/components/admin/EventDetailsDialog.tsx:48-70 | create mode or no event gives the blank record; edit mode copies the id and each truthy property, putting "" for a falsy text, "Upcoming" for a falsy status and 0 for a falsy attendee count; the status is never empty |
| EventDetailsDialog.InitCopiesEvent | src/components/admin/EventDetailsDialog.tsx:49-58 | an event with no falsy field is copied exactly |
| EventDetailsDialog.InitDefaultsEveryField | src/components/admin/EventDetailsDialog.tsx:51-57 | absent or falsy fields give "", "Upcoming" and 0, keeping the id |
| EventDetailsDialog.Change | src/components/admin/EventDetailsDialog.tsx:72-75 | the named field takes the typed text (the attendee count becomes that text) and no other field changes |
| EventDetailsDialog.ApplyEdit | src/components/admin/EventDetailsDialog.tsx:72-79 | a status pick sets exactly the status; typing is `Change` of the named field |
| EventDetailsDialog.ApplyEditsThenOne | src/components/admin/EventDetailsDialog.tsx:72-79 | edits apply one after another, in order |
| EventDetailsDialog.LastStatusPickWins | src/components/admin/EventDetailsDialog.tsx:77-79 | after any edits, a final pick sets the saved status and changes nothing else |
| EventDetailsDialog.EditsKeepId | src/components/admin/EventDetailsDialog.tsx:72-79 | no sequence of edits changes the id |
| EventDetailsDialog.EditsKeepOfferedStatus | src/components/admin/EventDetailsDialog.tsx:147-159 | a status among the options stays among them |
| EventDetailsDialog.OptionsHaveDistinctBadges | src/components/admin/EventDetailsDialog.tsx:155-157 | Upcoming, Completed and Cancelled get blue, green and red in the table |
| EventDetailsDialog.CreateAppendsEditedRecord | src/components/admin/EventManagement.tsx:51-58 | saving a create dialog appends the edited blank record with the clock id and keeps every earlier event |
| EventDetailsDialog.UnchangedUpdateIsNoop | src/components/admin/EventDetailsDialog.tsx:49-58 | saving an unedited edit dialog leaves a table of unique ids unchanged |
| UserManagement.Search | src/components/admin/UserManagement.tsx:33-37 | keeps exactly the users whose name, email or location contains the query case-insensitively, in order; the empty query keeps all; each kept record appears as often as in the input |
| UserManagement.SearchIgnoresCase | src/components/admin/UserManagement.tsx:33-37 | queries differing only in letter case give the same result |
| UserManagement.SetStatus | src/components/admin/UserManagement.tsx:39-42 | length kept; only the status of users with the id changes; an unknown id changes nothing |
| UserManagement.Remove | src/components/admin/UserManagement.tsx:49-50 | no user with the id remains, the others keep their order; each kept record appears as often as in the input |
| UserManagement.Update | src/components/admin/UserManagement.tsx:62-65 | users with the id are replaced wholesale by the record; others unchanged; an unknown id changes nothing |
| UserManagement.RemoveAfterChange | src/components/admin/UserManagement.tsx:39-65 | removing after a status change or an update equals removing |
| UserManagement.StatusBadge | src/components/admin/UserManagement.tsx:124-128 | exactly "active" is green, anything else gray |
| UserDetailsDialog.Init | src/components/admin/UserDetailsDialog.tsx:44-55 | no user keeps the state; otherwise each truthy property is copied, a falsy role becomes "user", a falsy status "active" and any other falsy property "" |
| UserDetailsDialog.InitShowsUser | src/components/admin/UserDetailsDialog.tsx:46-53 | a user with role and status is shown field for field |
| UserDetailsDialog.InitDefaults | src/components/admin/UserDetailsDialog.tsx:47-52 | absent properties give "", role "user" and status "active" |
| UserDetailsDialog.ApplyEdit | src/components/admin/UserDetailsDialog.tsx:57-64 | the named field takes the typed or picked value, no other field changes, never the id |
| UserDetailsDialog.EditsKeepId | src/components/admin/UserDetailsDialog.tsx:57-64 | no sequence of edits changes the id |
| UserDetailsDialog.EditsKeepOfferedChoices | src/components/admin/UserDetailsDialog.tsx:117-145 | a role and status among the options stay among them |
| UserDetailsDialog.Saved | src/components/admin/UserDetailsDialog.tsx:150 | the saved record has every field of the dialog and no registration date |
| UserDetailsDialog.SavedIdIsUsersId | src/components/admin/UserDetailsDialog.tsx:47-150 | whatever is edited, the saved id is the opened user's id |
| UserDetailsDialog.UneditedSaveDropsRegisteredDate | src/components/admin/UserManagement.tsx:62-65 | saving an unedited dialog replaces the row by the same row without its registration date |
| UserDetailsDialog.StatusOptionsHaveDistinctBadges | src/components/admin/UserDetailsDialog.tsx:142-143 | active is green and inactive gray in the table; the default status is green |
| AdminManagement.Search | src/components/admin/AdminManagement.tsx:32-36 | keeps exactly the admins whose name, email or location contains the query case-insensitively, in order; the empty query keeps all; each kept record appears as often as in the input |
| AdminManagement.SearchIgnoresCase | src/components/admin/AdminManagement.tsx:32-36 | queries differing only in letter case give the same result |
| AdminManagement.NewId | src/components/admin/AdminManagement.tsx:61 | a created id is "admin" followed by the decimal clock value |
| AdminManagement.NewIdsDiffer | src/components/admin/AdminManagement.tsx:59-62 | different clock values give different ids |
| AdminManagement.Save | src/components/admin/AdminManagement.tsx:56-79 | an empty id appends the record with the id `NewId(now)`, not checked against the existing ids, and keeps the others; a non-empty id keeps length and replaces the matching admins; an unknown id changes nothing |
| AdminManagement.CreatedAdminIsEditable | src/components/admin/AdminManagement.tsx:56-72 | a created admin has an id, so saving it again updates instead of adding |
| AdminManagement.CreatedIdIsNewWhenUnused | src/components/admin/AdminManagement.tsx:56-63 | when no admin has the id `NewId(now)` yet, the created admin is the only one with it |
| AdminManagement.CreatedIdCanRepeat | src/components/admin/AdminManagement.tsx:25-63 | the id is not checked: a clock reading of 1 next to the sample "admin1" gives two admins with one id |
| AdminManagement.Remove | src/components/admin/AdminManagement.tsx:81-82 | no admin with the id remains, the others keep their order; each kept record appears as often as in the input |
| AdminManagement.RemoveAfterSave | src/components/admin/AdminManagement.tsx:57-82 | removing after an update with that id equals removing; removing the id a create just used removes the new admin again, together with any older admin that had the same id |
| AdminManagement.ClickRemove | src/components/admin/AdminManagement.tsx:169-170 | a super admin's remove button changes nothing; any other keeps exactly the admins with another id, in order; each kept record appears as often as in the input |
| AdminPermissionsDialog.Init | src/components/admin/AdminPermissionsDialog.tsx:55-66 | no admin keeps the state; otherwise each truthy text is copied, a falsy role becomes "admin", any other falsy text "", and an absent permission list [] |
| AdminPermissionsDialog.InitShowsAdmin | src/components/admin/AdminPermissionsDialog.tsx:55-66 | an admin with a role is shown exactly |
| AdminPermissionsDialog.InitDefaults | src/components/admin/AdminPermissionsDialog.tsx:57-64 | absent properties give the create template: "", role "admin", no permissions |
| AdminPermissionsDialog.ApplyEdit | src/components/admin/AdminPermissionsDialog.tsx:68-185 | a disabled or missing control changes nothing; a text input changes only its field; the role select only the role; a checkbox click toggles that permission; the id never changes |
| AdminPermissionsDialog.EditsKeepId | src/components/admin/AdminPermissionsDialog.tsx:68-85 | no sequence of edits changes the id |
| AdminPermissionsDialog.SuperAdminIsLocked | src/components/admin/AdminPermissionsDialog.tsx:101-185 | editing an existing super admin, no sequence of edits changes anything |
| AdminPermissionsDialog.PermissionsStayListed | src/components/admin/AdminPermissionsDialog.tsx:47-53 | permissions among the listed ids stay among them |
| AdminPermissionsDialog.EditsKeepOfferedRole | src/components/admin/AdminPermissionsDialog.tsx:157-168 | a role the select offers stays one of its two items |
| AdminPermissionsDialog.GrantThenRevoke | src/components/admin/AdminPermissionsDialog.tsx:73-85 | granting appends the id; revoking it again restores the admin |
| AdminPermissionsDialog.CreateAddsOneAdmin | src/components/admin/AdminManagement.tsx:43-63 | whatever is edited in the template's dialog, saving adds exactly one admin, at the end, with the id `NewId(now)`, not checked against the existing ids |
| AdminPermissionsDialog.EditKeepsCount | src/components/admin/AdminManagement.tsx:68-72 | saving an edited existing admin keeps the number of admins |
| FeedbackPage.ToggleImprovement | src/pages/FeedbackPage.tsx:111-117 | checking appends the option; unchecking removes it and keeps every other option with its count and order; satisfaction and comment unchanged |
| FeedbackPage.ToggleImprovementTwice | src/pages/FeedbackPage.tsx:111-117 | checking then unchecking an option restores the form |
| FeedbackPage.ChecksKeepOfferedImprovements | src/pages/FeedbackPage.tsx:106-117 | starting from listed improvements, any checkbox changes leave only listed ones, with satisfaction and comment untouched |
| FeedbackPage.Submit | src/pages/FeedbackPage.tsx:30-63 | no satisfaction is rejected; otherwise only unparsable text fails, with that parse error; success clears the form and touches no other key |
| FeedbackPage.SubmitAppendsRecord | src/pages/FeedbackPage.tsx:42-52 | a submit adds one record at the end with the form's satisfaction, improvements and comment; earlier records kept |
| FeedbackPage.FirstSubmit | src/pages/FeedbackPage.tsx:50-52 | on a missing key the list becomes exactly the new record |
| FeedbackPage.IdsFollowClock | src/pages/FeedbackPage.tsx:43 | records submitted at different times have different ids |
| RateToiletPage.Submit | src/pages/RateToiletPage.tsx:19-44 | no validation: only unparsable text fails, with that parse error; success clears all three fields and touches no other key |
| RateToiletPage.SubmitAppendsRating | src/pages/RateToiletPage.tsx:23-33 | a submit adds one rating at the end with the form's two ratings and comment; earlier ratings kept |
| RateToiletPage.BlankFormIsStored | src/pages/RateToiletPage.tsx:15-33 | an untouched form is stored with empty ratings |
| EventRegistrationModal.Submit | src/components/EventRegistrationModal.tsx:28-49 | a form failing the input constraints is blocked; otherwise only unparsable text fails, with that parse error; success closes the dialog and clears it |
| EventRegistrationModal.SubmitAppendsRegistration | src/components/EventRegistrationModal.tsx:32-38 | a submit adds one registration at the end with the entered fields and the event title; earlier ones kept |
| EventRegistrationModal.StoredRegistrationIsValid | src/components/EventRegistrationModal.tsx:60-89 | a stored registration has a name, a contact and an age from 1 to 120 |
| EventRegistrationModal.OutOfRangeAgeBlocked | src/components/EventRegistrationModal.tsx:70-79 | an age of 0 or above 120 is blocked |
| FeedbackViewer.Load | src/components/admin/FeedbackViewer.tsx:17-46 | a parse failure under either key shows both fallback lists; otherwise each list is what is stored, [] when missing |
| FeedbackViewer.LoadEmptyStores | src/components/admin/FeedbackViewer.tsx:20-28 | nothing stored gives two empty lists |
| FeedbackViewer.BadRatingsHideFeedback | src/components/admin/FeedbackViewer.tsx:17-46 | unparsable ratings replace even well-stored feedback by the fallback |
| FeedbackViewer.FilterFeedback | src/components/admin/FeedbackViewer.tsx:48-51 | keeps exactly the items with a non-empty matching comment or a matching improvement, in order; each kept record appears as often as in the input |
| FeedbackViewer.FilterRatings | src/components/admin/FeedbackViewer.tsx:53-55 | keeps exactly the ratings with a non-empty matching comment, in order; each kept record appears as often as in the input |
| FeedbackViewer.EmptyQueryFeedback | src/components/admin/FeedbackViewer.tsx:48-51 | with an empty query, an item is listed iff it has a comment or an improvement |
| FeedbackViewer.UncommentedRatingHidden | src/components/admin/FeedbackViewer.tsx:53-55 | a rating without comment is never listed |
| FeedbackViewer.EmptyQueryRatings | src/components/admin/FeedbackViewer.tsx:53-55 | with an empty query, a rating is listed iff it has a comment |
| FeedbackViewer.SatisfactionLabel | src/components/admin/FeedbackViewer.tsx:111-117 | a card reads "Satisfied" exactly for satisfied feedback and "Unsatisfied" exactly for the rest |
| FeedbackViewer.MockFeedbackNotFromForm | src/components/admin/FeedbackViewer.tsx:36 | the second sample record lists an improvement the form does not offer |
| FeedbackViewer.RatingTone | src/components/admin/FeedbackViewer.tsx:169-183 | exactly the best value ("good", "well-maintained") is green, exactly the middle one ("average", "functional") yellow, anything else red |
| FeedbackViewer.RatingOptionsColoured | src/components/admin/FeedbackViewer.tsx:169-183 | the form's three values per group get red, yellow, green; an unpicked rating is red |
| FeedbackViewer.SubmittedFeedbackIsLoaded | src/components/admin/FeedbackViewer.tsx:20-23 | feedback submitted on the feedback page loads as the last item |
| FeedbackViewer.SubmittedRatingIsLoaded | src/components/admin/FeedbackViewer.tsx:26-29 | a rating submitted on the rating page loads as the last rating |
| ComplaintsPage.Search | src/pages/ComplaintsPage.tsx:23-26 | keeps exactly the complaints whose title or area contains the query case-insensitively, in order; the empty query keeps all; each kept record appears as often as in the input |
| ComplaintsPage.SearchIgnoresStatus | src/pages/ComplaintsPage.tsx:23-26 | complaints differing only in status are kept or dropped together |
| ComplaintsPage.Tab | src/pages/ComplaintsPage.tsx:28-30 | a tab keeps exactly the results with that exact status, in order; each kept record appears as often as in the input |
| ComplaintsPage.TabsDisjoint | src/pages/ComplaintsPage.tsx:28-30 | no complaint is under two tabs |
| ComplaintsPage.TabSizes | src/pages/ComplaintsPage.tsx:28-30 | the tab sizes sum to at most the result size, and to exactly it when every status is one of the three |
| ComplaintsPage.TabOfSearchInOrder | src/pages/ComplaintsPage.tsx:23-30 | every tab is an order-preserving selection of all complaints |
| ComplaintsPage.TabsSplitSearch | src/pages/ComplaintsPage.tsx:28-30 | with all statuses among the three, the tabs split any search result |
| ComplaintsPage.FixedListIsTabbed | src/pages/ComplaintsPage.tsx:15-21 | every listed complaint has one of the three statuses |
| ComplaintsPage.StatusBadge | src/pages/ComplaintsPage.tsx:50-56 | exactly "Resolved" is green, exactly "In Progress" blue, anything else yellow |
| ComplaintsPage.BadgesCompared | src/pages/ComplaintsPage.tsx:50-56 | the page's badge agrees with the admin table's on the three spelled statuses and differs on "resolved" |
| EventsPage.Load | src/pages/EventsPage.tsx:19-25 | a missing key gives []; stored events are shown; unparsable text fails |
| EventsPage.Search | src/pages/EventsPage.tsx:37-41 | keeps exactly the events whose title, location or organizer contains the query case-insensitively, in order; the empty query keeps all; each kept record appears as often as in the input |
| EventsPage.SearchIgnoresCase | src/pages/EventsPage.tsx:37-41 | queries differing only in letter case give the same result |
| EventsPage.InCategory | src/pages/EventsPage.tsx:47-49 | a category list keeps exactly the results with that exact category, in order; each kept record appears as often as in the input |
| EventsPage.CategoriesDisjoint | src/pages/EventsPage.tsx:47-49 | the three category lists share no event and together hold at most the search result |
| EventsPage.CategoryOfSearchInOrder | src/pages/EventsPage.tsx:37-49 | every category list is an order-preserving selection of all events |
| EventsPage.NothingStoredNothingListed | src/pages/EventsPage.tsx:19-49 | with nothing stored every list is empty |
| EventsPage.RegisterClick | src/pages/EventsPage.tsx:27-30 | a register button shows the dialog for that event's title |
| EventsPage.CloseModal | src/pages/EventsPage.tsx:32-35 | closing hides the dialog and clears the selected event |
| EventsPage.RegistrationCarriesClickedTitle | src/pages/EventsPage.tsx:27-35 | registering from an event's button stores that event's title; closing unmounts the dialog |

## Left out

- Storage encoding: JSON text and `localStorage` are abstracted to slots of typed lists. Records of another shape, or fields missing from stored records, are not modelled. Neither is a stored JSON value that parses but is not a list.
- Letter case: lowercasing is ASCII only. JavaScript's full Unicode `toLowerCase` is not modelled.
- Clock: `Date.now()` and `toISOString()` are parameters. The events page's upcoming tab compares dates with the current time and is not modelled.
- Rendering: JSX, toasts, console logging, dialog titles and texts are not modelled. Badge class strings are reduced to their colour.
- The mock lists the four admin tables start from are not modelled. The operations are stated for every list.
- EventRegistrationModal.Valid: the browser's number-input check is simplified to a string of decimal digits whose value is from 1 to 120. Signs, exponents and fractions that a number input also accepts are not modelled.
- EventDetailsDialog.Init: the event's id is copied without a default, as the dialog does. A missing id, which would be `undefined` in the app, is not modelled.
- EventsPage: the plantation list is computed but no tab renders it. It is still modelled as `InCategory`.
- The role badges of the user and admin tables and the super-admin shield icon are display only. They are not modelled.
- The other pages are not part of this model: navigation, authentication, profile, post, locator and dashboard.
