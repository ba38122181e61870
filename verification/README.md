# Visitor Tracker — a Dafny model

This project models the visitor-tracking system of an NGO front desk. Guards check visitors in and out. Administrators manage the guard accounts and read analytics and exports. The model covers three parts.

- **The two servers.**
  - The Flask server (`backend/api_server.py`) is modelled through its visitor endpoints (create, fetch, list, one-shot check-out, hard delete and the report rows) and its user-account endpoints (create, update, status toggle, login, password change).
  - The Laravel controller and its `Visitor` model have stricter validation, an overwriting check-out and a soft delete. They are modelled side by side with Flask, and lemmas state exactly where the two disagree.
  - Each store is a `map<int, …>` keyed by primary key, plus the AUTOINCREMENT counter.
  - Every endpoint is a pure state-transition function that returns the new store and an HTTP status.
- **The reporting derivations** of the web client. These are pure functions over a `seq<Visit>`:
  - on the analytics page: the window filter, the trend buckets, the category percentages, the unique-visitor count and the average-duration label;
  - on the visitor log: the per-date statistics, the tabs, the duration cell and the date arrows;
  - on the security dashboard: de-duplicated search, the cards, the active list, check-in and check-out.
- **The client's decision logic.** This covers:
  - role-gated routing and the session kept in `localStorage`;
  - the sidebar's menu filter;
  - the two login forms, sign-up and the password change;
  - the visitor modal;
  - both user-management pages;
  - the URL and path builders of the API client.

Timestamps are integers (milliseconds). Everything that depends on a calendar or a time zone is a field of a `Calendar` value passed in as a parameter, because those functions are foreign to the model: the UTC day, the local day, month and year keys, the database's text rendering and the "30 days / 12 months / 5 years back" arithmetic. The clock (`now`) is a parameter too, and so is the e-mail validator Laravel uses.

Behaviour the code has that a reader might not expect. Each is stated as a lemma rather than smoothed away:

- Both check-in forms mark the last name `required`, and the browser refuses only an empty field. Choosing a one-word name from the dashboard search therefore leaves a form the browser will not submit, and the guard has to type a last name. A last name made only of spaces does pass. The dashboard then sends the first name followed by those spaces, while the stand-alone modal trims them away and sends the first name alone (`Dashboard.SubmitCheckIn`, `Dashboard.SelectThenAdd`, `VisitorModal.ApiDataName`).
- Export formats are compared with different casing on the two sides: the settings page names its file after the exact text, while the server lower-cases it. The page's own three buttons send lower-case names, for which the two agree (`Settings.ButtonsNameServerFormat`). Only a caller outside the page that passed "Excel" would get an Excel file named `.csv` (`Settings.MixedCaseFormatMisnamed`).
- The Flask server stores any e-mail text, but the dashboard's e-mail input has type "email". Re-checking in a visitor whose stored e-mail is not an address is blocked by the browser until the guard corrects it (`Dashboard.SelectThenAdd`).
- The client's `localStorage.setItem` stores a null role as the text "null", so a reload restores a role the session never had (`Routing.LoginSurvivesReload`).
- The admin page's toggle on a user whose status is NULL shows no visible change. The server sets it to "Active", which is also what the page already showed (`UserAdmin.ToggleChangesShownStatus`).
- The Flask report accepts `start_date` and `end_date` from the client but ignores them. The model keeps both sides: the URL carries them (`ApiPaths.ReportQueryRoundTrip`), and the export depends only on the format (`FlaskReport.DownloadReport`).
- The visitor modal reads the error reply's `message` key, while the Flask server answers errors under `error`. So the text shown after a refused create is always the transport's own message (`VisitorModal.Submit`).
- The client calls `/settings` endpoints, but the Flask server has none. The settings form is modelled as local state only.

## Model

| member | source | states |
|---|---|---|
| FlaskVisitors.CreateVisitor | backend/api_server.py:696-742 | a body without a truthy name or purpose is refused with 400 and the table is untouched; otherwise exactly one new row appears under a fresh id, open, checked in at the server's clock, and every other row is unchanged |
| FlaskVisitors.GetVisitor | backend/api_server.py:744-771 | 200 with the stored row exactly when the id is in the table, 404 and no visit otherwise |
| FlaskVisitors.CheckoutVisitor | backend/api_server.py:773-795 | succeeds exactly on an existing open visit, closes it at the clock and touches no other row; an unknown or already closed visit answers 404 with the table unchanged |
| FlaskVisitors.DeleteVisitor | backend/api_server.py:797-814 | 200 exactly when the id exists, and the row is removed from the table; 404 and no change otherwise |
| FlaskVisitors.GetVisitors | backend/api_server.py:666-694 | the listing holds every stored row once, latest check-in first, and each present timestamp is serialised as the stored text with "Z" appended while absent ones are null |
| FlaskVisitors.OperationsPreserveValid | backend/api_server.py:123-137 | create, check-out and delete keep every row under its own id below the AUTOINCREMENT counter |
| FlaskVisitors.CreateThenGet | backend/api_server.py:130-131 | a created visit can be fetched back, is open, and the client's own check-in and check-out times make no difference to it |
| FlaskVisitors.CreateReselectsNewRow | backend/api_server.py:720-725 | the reselect by name and purpose, newest id first, finds exactly the row just inserted |
| FlaskVisitors.CheckoutIsOneShot | backend/api_server.py:780-790 | a first check-out of an open visit succeeds and records its time; a second one answers 404 and leaves the table as the first left it |
| FlaskVisitors.DeleteIsFinal | backend/api_server.py:797-812 | after a delete, fetch, check-out and delete of that id all answer 404, and a later create never reuses the id |
| FlaskUsers.CreateUser | backend/api_server.py:382-424 | a missing or empty name, e-mail or password gives 400; an e-mail already used gives 500 from the UNIQUE column; otherwise one new row with defaults 'security' and 'Active' for absent keys, all other rows unchanged |
| FlaskUsers.UpdateUser | backend/api_server.py:451-503 | 400 exactly when none of name/email/role/status is in the body, 404 for an unknown id, 500 on a NOT NULL or UNIQUE violation, and no other status; on success the id and password are kept, every column named in the body takes the sent value, every column left out keeps its old value, and no other row changes |
| FlaskUsers.Toggled | backend/api_server.py:520 | the new status is "Inactive" exactly when the old one was "Active", and "Active" in every other case, NULL included |
| FlaskUsers.ToggleUserStatus | backend/api_server.py:505-533 | 404 with no change for an unknown id; otherwise only that user's status changes |
| FlaskUsers.ToggleTwice | backend/api_server.py:513-526 | two toggles give back the table exactly when the status was "Active" or "Inactive"; any other status ends as "Inactive" |
| FlaskUsers.FindByEmail | backend/api_server.py:113 | finds a row exactly when some row has the e-mail, and the row it finds has it |
| FlaskUsers.Login | backend/api_server.py:196-230 | the checks run in order: 400 without a truthy e-mail and password, 401 when no row matches both, 403 when the matching row is not "Active", 200 with that row otherwise; the table never changes |
| FlaskUsers.ChangePassword | backend/api_server.py:232-273 | 400 on a missing or zero user id or an empty password, 404 for an unknown user, 401 on a wrong old password with no change, and no other status besides 200; otherwise only that user's password changes |
| FlaskUsers.CreateUserPreservesValid | backend/api_server.py:109-120 | creating a user keeps the keys and the unique-e-mail invariant |
| FlaskUsers.UpdateUserPreservesValid | backend/api_server.py:468-498 | updating a user keeps the keys and the unique-e-mail invariant |
| FlaskUsers.ToggleAndPasswordPreserveValid | backend/api_server.py:505-533 | toggling and password changes keep the table invariant |
| FlaskUsers.UpdateIgnoresPassword | backend/api_server.py:468-479 | two update bodies that differ only in their password give the same answer and the same table |
| FlaskUsers.ChangePasswordThenLogin | backend/api_server.py:250-266 | a wrong old password changes nothing; after a successful change the new password logs in (403 if the account is inactive) and a different old one is refused with 401 |
| FlaskReport.FormatOf | backend/api_server.py:539 | the format is Excel exactly when the lower-cased argument is "excel", PDF exactly when it is "pdf", and CSV otherwise, including when it is missing |
| FlaskReport.DownloadReport | backend/api_server.py:536-567 | an empty table answers 404; otherwise there is one row per stored visit, latest check-in first, built for the requested format, under that format's header |
| FlaskReport.RowCells | backend/api_server.py:549-564 | every row is as wide as its header; CSV and Excel rows carry the stored name and purpose, and every null optional column is "" |
| FlaskReport.RowIdCell | backend/api_server.py:553 | the first cell reads back as the visit's id |
| FlaskReport.PdfCells | backend/api_server.py:593-605 | the PDF cells are prefixes of the full cells: name and e-mail at most 20 characters, host and company at most 15; phone and purpose are uncut |
| LaravelVisitors.CreateErrors | backend/app/Http/Controllers/VisitorController.php:32-40 | a field is reported exactly when its rule fails: name, phone and purpose are required with limits 255/20/255, e-mail must be well formed when given, and the optional fields and the check-out date are checked when present |
| LaravelVisitors.NoErrorsMeansValid | backend/app/Http/Controllers/VisitorController.php:32-40 | a request that passes validation has a name, phone and purpose within their limits and no malformed check-out date |
| LaravelVisitors.BlankIsTrimEmpty | backend/app/Http/Controllers/VisitorController.php:33-36 | a text counts as missing for `required` exactly when trimming it leaves nothing |
| LaravelVisitors.StoreVisitor | backend/app/Http/Controllers/VisitorController.php:29-53 | 201 exactly when validation passes, with check-in at the clock and check-out as sent, and one new live row; otherwise 422 with the failed fields and nothing saved |
| LaravelVisitors.ShowVisitor | backend/app/Http/Controllers/VisitorController.php:58-66 | 200 with the row exactly when the id is live; an unknown or soft-deleted id answers 404 |
| LaravelVisitors.UpdateCheckout | backend/app/Http/Controllers/VisitorController.php:71-90 | a missing or deleted id answers 500; a malformed date answers 422; otherwise the check-out becomes the sent time, or the clock, whatever it was before, and no other row changes |
| LaravelVisitors.DestroyVisitor | backend/app/Http/Controllers/VisitorController.php:95-106 | a live id is marked deleted rather than removed and every other row is untouched; any other id answers 500 |
| LaravelVisitors.LiveRows | backend/app/Models/Visitor.php:10 | the rows queries see are exactly those not marked deleted |
| LaravelVisitors.IndexVisitors | backend/app/Http/Controllers/VisitorController.php:15-24 | every live visit once and no deleted one, latest check-in first |
| LaravelVisitors.Report | backend/app/Http/Controllers/VisitorController.php:111-158 | the eight-name header, then one row per live visit in the index order |
| LaravelVisitors.ReportRow | backend/app/Http/Controllers/VisitorController.php:138-147 | each data row has as many cells as the header |
| LaravelVisitors.ReportRowCells | backend/app/Http/Controllers/VisitorController.php:138-147 | the cells are the name, e-mail, phone and purpose as stored, the two times as Y-m-d H:i:s text or "" when absent, and host and company with "" for a missing value |
| LaravelVisitors.StorePreservesValid | backend/app/Http/Controllers/VisitorController.php:42-44 | a store keeps the table keyed by id below the counter |
| LaravelVisitors.UpdatesPreserveValid | backend/app/Http/Controllers/VisitorController.php:80-99 | check-out and delete keep the table keyed by id below the counter |
| LaravelVisitors.StoreThenShow | backend/app/Http/Controllers/VisitorController.php:39-46 | the check-in the client sends is ignored; a stored visit can be shown back; it is already closed exactly when a valid check-out date was sent |
| LaravelVisitors.CheckoutOverwrites | backend/app/Http/Controllers/VisitorController.php:76-81 | a second check-out succeeds too and its time replaces the first |
| LaravelVisitors.DestroyIsSoft | backend/app/Models/Visitor.php:10 | after a delete the row is still stored, marked with the deletion time, but shows 404 and check-out and delete of it answer 500 |
| LaravelVisitors.FromFlask | backend/app/Models/Visitor.php:14-23 | the same visits seen as a Laravel table: every row live, nothing else changed |
| LaravelVisitors.CheckoutDivergence | backend/app/Http/Controllers/VisitorController.php:76-88 | on an open visit both servers close it at the same time; on a closed one Flask answers 404 with no change while Laravel overwrites; on an unknown id Flask answers 404 and Laravel 500 |
| LaravelVisitors.DeleteDivergence | backend/app/Models/Visitor.php:10 | Flask removes the row while Laravel keeps it and only hides it from the live rows |
| Visits.OpenClosedPartition | frontend/src/pages/SecurityDashboardPage.jsx:85-90 | every visit is either open or closed, so the two counts add up to the length |
| Visits.InsertByCheckIn | backend/api_server.py:672 | the insertion step of the listing order adds exactly one visit |
| Visits.InsertByCheckInSorted | backend/api_server.py:672 | inserting into a list sorted by check-in descending, missing check-ins last, keeps it sorted |
| Visits.ListByCheckInDesc | backend/api_server.py:672 | `ORDER BY check_in_time DESC`: every row of the table exactly once, sorted by check-in descending |
| Analytics.FilteredVisitors | frontend/src/pages/AnalyticsPage.jsx:27-46 | a visit is kept exactly when it has a check-in at or after the period's window start |
| Analytics.TrendKeys | frontend/src/pages/AnalyticsPage.jsx:52-61 | each visit's bucket key is the UTC day for the daily view, the local month for monthly and all time, and the local year for yearly |
| Analytics.VisitsTrend | frontend/src/pages/AnalyticsPage.jsx:48-74 | the buckets come in ascending key order without repeats; a key appears exactly when some visit falls in it, with as many visits as fall in it; the counts add up to the number of filtered visits |
| Analytics.TrendCountIsFilterCount | frontend/src/pages/AnalyticsPage.jsx:63-67 | a bucket's count is the number of filtered visits whose key is that bucket |
| Analytics.TrendCountsPositive | frontend/src/pages/AnalyticsPage.jsx:66 | no bucket is empty |
| Analytics.PurposeLabels | frontend/src/pages/AnalyticsPage.jsx:79 | each visit's category is its purpose, or "General" when it has none |
| Analytics.PercentBounds | frontend/src/pages/AnalyticsPage.jsx:88 | the rounded percentage lies in 0..100 and within half a point of count·100/total |
| Analytics.VisitorTypeData | frontend/src/pages/AnalyticsPage.jsx:76-91 | no categories for no visits; otherwise one entry per distinct category with its number of visits, counts adding up to the total, and each percentage within half a point of the exact share |
| Analytics.PercentagesNearHundred | frontend/src/pages/AnalyticsPage.jsx:86-90 | the shown percentages add up to 100 give or take half a point per category |
| Analytics.UniqueAtMostTotal | frontend/src/pages/AnalyticsPage.jsx:100 | the unique-visitor count never exceeds the total |
| Analytics.RoundedMinutesBounds | frontend/src/pages/AnalyticsPage.jsx:103-119 | the average in minutes is the mean duration rounded half-up |
| Analytics.AverageDurationLabel | frontend/src/pages/AnalyticsPage.jsx:102-119 | "N/A" exactly when no filtered visit is closed or their mean duration is not positive; otherwise the label is "M min" where M is the mean duration of the closed visits in minutes, rounded to the nearest whole minute |
| Analytics.ComputeStats | frontend/src/pages/AnalyticsPage.jsx:97-121 | the total is the filtered count; unique visitors are the distinct e-mail-else-phone keys, never more than the total; "currently inside" counts the open visits of the whole list |
| Analytics.ActiveVisitors | frontend/src/pages/AnalyticsPage.jsx:137 | exactly the open visits of the whole list, as many as "currently inside" counts |
| Dashboard.Collect | frontend/src/pages/SecurityDashboardPage.jsx:30-44 | only matching visits of the list are kept, in list order, no two with the same e-mail-else-phone-else-name key |
| Dashboard.ListedKeyHasSource | frontend/src/pages/SecurityDashboardPage.jsx:32-43 | every listed key belongs to a matching visit |
| Dashboard.CollectComplete | frontend/src/pages/SecurityDashboardPage.jsx:32-43 | the key of every matching visit is listed |
| Dashboard.CollectKeepsFirst | frontend/src/pages/SecurityDashboardPage.jsx:35-42 | for each key, the visit kept is the first matching one in list order |
| Dashboard.Search | frontend/src/pages/SecurityDashboardPage.jsx:23-47 | a blank or all-space term finds nothing; otherwise at most five results, in list order, each a visit matching the lower-cased term, with pairwise different keys, taken from the front of the de-duplicated matches |
| Dashboard.SearchComplete | frontend/src/pages/SecurityDashboardPage.jsx:46 | when no more than five keys match, every matching key is offered, by its first matching visit |
| Dashboard.SelectVisitor | frontend/src/pages/SecurityDashboardPage.jsx:49-66 | the name is split at its first space so the halves rebuild it; contact fields are copied with "" for missing ones; the visitor type is the host name or "Parent"; the purpose starts empty |
| Dashboard.AddPayload | frontend/src/pages/SecurityDashboardPage.jsx:106-113 | the name sent is first name, a space, last name; mobile goes as phone, organisation as company and visitor type as host name |
| Dashboard.SubmitCheckIn | frontend/src/pages/SecurityDashboardPage.jsx:358-427 | the browser sends the check-in exactly when first name, last name, mobile and purpose are non-empty and the e-mail is empty or a valid address; the payload then has a phone, a purpose, a name with a space in it, and an e-mail that is empty or an address |
| Dashboard.SelectThenAdd | frontend/src/pages/SecurityDashboardPage.jsx:49-113 | re-checking in a selected visitor: a one-word name leaves the required last name empty, and a stored e-mail that is not an address fails the e-mail input, so the form cannot be sent; a name with a space is sent unchanged with the visitor's contacts and host; after the guard types a last name, a one-word name is sent as the name, a space and that last name |
| Dashboard.Stats | frontend/src/pages/SecurityDashboardPage.jsx:85-90 | "today's visits" and "total" both show the list length, and "inside" plus "checked out" equals it |
| Dashboard.ActiveVisitors | frontend/src/pages/SecurityDashboardPage.jsx:92-97 | one row per open visit and only for open visits, as many as the "inside" card shows |
| Dashboard.ActiveVisitorsInListOrder | frontend/src/pages/SecurityDashboardPage.jsx:92-97 | the active list keeps the order of the visit list: an open visit at the front gives the first row, a closed one gives none |
| Dashboard.TodaysVisits | frontend/src/pages/SecurityDashboardPage.jsx:254-258 | exactly the visits whose check-in falls on today's UTC date, a missing check-in read as the epoch |
| Dashboard.ContactCell | frontend/src/pages/SecurityDashboardPage.jsx:262 | the e-mail, else the phone, else "-"; never empty |
| Dashboard.StatusCell | frontend/src/pages/SecurityDashboardPage.jsx:277-280 | "Inside" exactly for open visits and "Checked Out" exactly for closed ones |
| Dashboard.OnSelect | frontend/src/pages/SecurityDashboardPage.jsx:56-65 | selecting fills the form from the visit, empties the search so it finds nothing, and opens the modal |
| Dashboard.OnAdded | frontend/src/pages/SecurityDashboardPage.jsx:114-125 | the created visit goes in front of the unchanged list, the modal closes and the form resets |
| Dashboard.AddedUpdatesStats | frontend/src/pages/SecurityDashboardPage.jsx:114-115 | an added open visit adds one to the total and to "inside" and leaves "checked out" as it was |
| Dashboard.ReplaceById | frontend/src/pages/SecurityDashboardPage.jsx:136-138 | the list keeps its length, and only entries with the id are replaced |
| Dashboard.HandleCheckout | frontend/src/pages/SecurityDashboardPage.jsx:133-138 | corrected check-out: entries with the id are closed at the clock; every other entry and the length are unchanged |
| Dashboard.CheckoutMovesOneVisitor | frontend/src/pages/SecurityDashboardPage.jsx:85-90 | with unique ids, checking out an open visit moves it from "inside" to "checked out" and keeps the total |
| Dashboard.CheckoutSplice | frontend/src/pages/SecurityDashboardPage.jsx:136-138 | with unique ids, check-out replaces the one entry and leaves the slices before and after it |
| Dashboard.HandleCheckoutAsWritten | frontend/src/pages/SecurityDashboardPage.jsx:133-138 | as written, the server's reply is stored in place of every entry with the id |
| Dashboard.SlotsInsideCount | frontend/src/pages/SecurityDashboardPage.jsx:87 | as written, the "inside" count after check-out equals the count before plus the entries with the id that were already closed |
| Dashboard.CheckoutReplyKeepsVisitorInside | frontend/src/pages/SecurityDashboardPage.jsx:133-138 | as written, checking out an open visit leaves "currently inside" unchanged until the list reloads |
| Dashboard.InsideCountIsOpenCount | frontend/src/pages/SecurityDashboardPage.jsx:87 | the "inside" count is the number of open visits |
| Dashboard.CheckoutLeavesInside | frontend/src/pages/SecurityDashboardPage.jsx:87 | with the corrected check-out, "inside" drops by exactly one |
| VisitorLog.Stats | frontend/src/pages/VisitorLogPage.jsx:28-32 | the day's total counts the visits checked in on the selected local date, split into inside and checked out |
| VisitorLog.FilteredVisitors | frontend/src/pages/VisitorLogPage.jsx:43-53 | a visit is shown exactly when it was checked in on the selected date and is open on the check-in tab and closed on the check-out tab |
| VisitorLog.TabCountsMatchStats | frontend/src/pages/VisitorLogPage.jsx:28-53 | each tab shows as many rows as its card counts |
| VisitorLog.TabsPartitionAll | frontend/src/pages/VisitorLogPage.jsx:43-53 | the check-in and check-out tabs are the open and closed parts of the "all" tab and together as long as it |
| VisitorLog.DurationMinutes | frontend/src/pages/VisitorLogPage.jsx:158-159 | the whole minutes of a closed visit, rounded down |
| VisitorLog.DurationCell | frontend/src/pages/VisitorLogPage.jsx:157-161 | "In progress" exactly for open visits, the rounded-down minutes with " min" for closed ones |
| VisitorLog.CompanyCell | frontend/src/pages/VisitorLogPage.jsx:154 | the company, or "Individual" when it is missing or empty |
| VisitorLog.HostCell | frontend/src/pages/VisitorLogPage.jsx:164 | the host name, or "N/A" when it is missing or empty |
| VisitorLog.Initial | frontend/src/pages/VisitorLogPage.jsx:6-7 | the page opens on the "all" tab at today's UTC date |
| VisitorLog.Back | frontend/src/pages/VisitorLogPage.jsx:64-68 | the left arrow moves to the day immediately before, keeping the tab |
| VisitorLog.Forward | frontend/src/pages/VisitorLogPage.jsx:75-79 | the right arrow moves to the day immediately after, keeping the tab |
| VisitorLog.ArrowsUndoEachOther | frontend/src/pages/VisitorLogPage.jsx:64-79 | back then forward, or forward then back, returns to the same day |
| Dates.NextDay | frontend/src/pages/VisitorLogPage.jsx:76-78 | the next calendar day is valid, later, and no valid day lies between |
| Dates.PrevDay | frontend/src/pages/VisitorLogPage.jsx:65-67 | the previous calendar day is valid, earlier, and no valid day lies between |
| Dates.StepsInverse | frontend/src/pages/VisitorLogPage.jsx:64-79 | a step forward and a step back cancel on every valid date |
| Dates.ZeroPad | frontend/src/pages/AnalyticsPage.jsx:56 | `padStart(2, '0')` keeps the number's value and only adds leading zeros |
| Dates.DayKeyFields | frontend/src/pages/VisitorLogPage.jsx:46 | a YYYY-MM-DD key has dashes at 4 and 7, digits everywhere else, and reads back as its year, month and day |
| Dates.DayKeyInjective | frontend/src/pages/VisitorLogPage.jsx:46-47 | different dates in years 0..9999 have different keys, so comparing keys compares dates |
| Settings.SetText | frontend/src/pages/SettingsPage.jsx:43-45 | only the named text setting takes the value |
| Settings.Toggle | frontend/src/pages/SettingsPage.jsx:47-49 | only the named switch is flipped |
| Settings.ToggleTwice | frontend/src/pages/SettingsPage.jsx:47-49 | flipping a switch twice gives back the settings |
| Settings.SetTextOverwrites | frontend/src/pages/SettingsPage.jsx:43-45 | a later change of a setting replaces an earlier one |
| Settings.SetTextCommutes | frontend/src/pages/SettingsPage.jsx:43-45 | changes of two different settings can be made in either order |
| Settings.SubmitPasswordChange | frontend/src/pages/SettingsPage.jsx:68-101 | once the browser lets the form through, a mismatch is reported before a short password, which is reported before a missing stored user id; a request is sent exactly when all three checks pass, carrying the id and the two passwords |
| Settings.SubmitPasswordForm | frontend/src/pages/SettingsPage.jsx:335-370 | with all three inputs required, the browser runs the handler exactly when none is empty; a request is sent exactly when the current password is typed, the new one is typed twice alike with at least six characters and a user id is stored; the length error appears only for one to five characters |
| Settings.SentPasswordsAreConfirmed | frontend/src/pages/SettingsPage.jsx:72-93 | a sent new password was typed twice alike, has at least 6 characters and goes with a non-empty user id |
| Settings.ServerErrorText | frontend/src/pages/SettingsPage.jsx:99 | the server's `error` text when there is one, else the fallback |
| Settings.ExportExtension | frontend/src/pages/SettingsPage.jsx:111-113 | "xlsx" exactly for "excel", "pdf" exactly for "pdf", and "csv" for everything else |
| Settings.ExportFileName | frontend/src/pages/SettingsPage.jsx:115 | the name is "visitor_report_", then today's UTC date as a YYYY-MM-DD key that reads back as that date's year, month and day, then a dot and the format's extension |
| Settings.ExtensionMatchesServer | frontend/src/pages/SettingsPage.jsx:103-115 | for a lower-case format, the extension names the format the server exports |
| Settings.ButtonsNameServerFormat | frontend/src/pages/SettingsPage.jsx:289-295 | each of the page's three export buttons passes a lower-case name, for which the file's extension matches the format the server renders |
| Settings.MixedCaseFormatMisnamed | frontend/src/pages/SettingsPage.jsx:111-113 | "Excel", which no button of the page sends, is exported as Excel by the server but saved with the extension "csv" |
| UserAdmin.OpenAdd | frontend/src/pages/UserManagementPage.jsx:34-45 | the add dialog opens on empty fields with the role "security" and no user being edited |
| UserAdmin.OpenEdit | frontend/src/pages/UserManagementPage.jsx:47-56 | the edit dialog copies name, e-mail and role and leaves the password blank |
| UserAdmin.UpdateOf | frontend/src/pages/UserManagementPage.jsx:64-71 | the update always carries name, e-mail and role, and the password exactly when one was typed |
| UserAdmin.Merge | frontend/src/pages/UserManagementPage.jsx:76 | the edited row takes the sent fields and keeps its id, status and, unless a new one was sent, its password |
| UserAdmin.ApplyUpdate | frontend/src/pages/UserManagementPage.jsx:76 | only rows with the edited id are merged; every other row stays as it was |
| UserAdmin.CreateOf | frontend/src/pages/UserManagementPage.jsx:80-85 | the create request carries the form's four fields |
| UserAdmin.SaveUser | frontend/src/pages/UserManagementPage.jsx:58-97 | a failure changes nothing and alerts the server's error; an update merges the edited row; a create puts the new user first; both close the dialog and reset the form |
| UserAdmin.EditUnchangedKeepsList | frontend/src/pages/UserManagementPage.jsx:47-76 | saving an edit without changes, answered by the same row, keeps the list as it was |
| UserAdmin.UpdateChangesOnlyEdited | frontend/src/pages/UserManagementPage.jsx:64-76 | other users are untouched, and the edited one gets the form's fields, with its password kept when none was typed |
| UserAdmin.SetStatus | frontend/src/pages/UserManagementPage.jsx:102-106 | only users with the id take the new status |
| UserAdmin.ToggleStatus | frontend/src/pages/UserManagementPage.jsx:99-110 | the status the server returns is set on the matching users; a failed request changes nothing |
| UserAdmin.DeleteUser | frontend/src/pages/UserManagementPage.jsx:112-122 | after confirmation and a successful delete, exactly the users without that id remain; otherwise nothing changes |
| UserAdmin.DeleteRemovesOnlyThatId | frontend/src/pages/UserManagementPage.jsx:116 | the users removed are exactly as many as carried the id |
| UserAdmin.RoleBadgeOf | frontend/src/pages/UserManagementPage.jsx:166-167 | the admin badge is shown exactly for the role "admin" |
| UserAdmin.StatusText | frontend/src/pages/UserManagementPage.jsx:174 | a missing or empty status reads "Active"; any other is shown as stored |
| UserAdmin.BadgeClass | frontend/src/pages/UserManagementPage.jsx:172 | the badge class is the shown status in lower case, "active" for a missing status |
| UserAdmin.ActionText | frontend/src/pages/UserManagementPage.jsx:182 | "Deactivate" exactly when the shown status is "Active" |
| UserAdmin.ToggleChangesShownStatus | frontend/src/pages/UserManagementPage.jsx:172-182 | the shown status changes on a toggle exactly when a status was stored; for a missing one the page shows "Active" and "Deactivate" before and after |
| UserAdmin.ToggleFlipsButton | frontend/src/pages/UserManagementPage.jsx:99-106 | for a stored status, the server's toggle flips the button's caption |
| Routing.Get | frontend/src/App.jsx:22-23 | `getItem` finds a value exactly when the key is stored |
| Routing.Restore | frontend/src/App.jsx:20-26 | a reload is authenticated exactly when `isLoggedIn` is "true", and the role is the stored text if any |
| Routing.StoredText | frontend/src/App.jsx:42 | `setItem` writes a null role as the text "null" |
| Routing.HandleLogin | frontend/src/App.jsx:40-45 | login sets authenticated and the role and writes exactly the two keys, leaving the rest of storage alone |
| Routing.HandleLogout | frontend/src/App.jsx:47-52 | logout clears the state and removes exactly the two keys |
| Routing.LoginSurvivesReload | frontend/src/App.jsx:20-45 | after login a reload is authenticated, with the same role unless the role was null |
| Routing.LogoutSurvivesReload | frontend/src/App.jsx:20-52 | after logout a reload is signed out; login then logout leaves storage without the two keys and signed out |
| Routing.Route | frontend/src/App.jsx:63-133 | a protected path sends a signed-out user to /login; user management renders only for admin; the guard dashboard renders exactly for role "security"; unknown paths match nothing |
| Routing.RedirectsSettle | frontend/src/App.jsx:64-123 | following redirects ends on a screen within three steps: signed out at the login page, signed in at the role's home, and a non-admin at the home when asking for user management |
| Menu.ShownToIsIncludes | frontend/src/components/Sidebar.jsx:17-19 | an item is shown exactly when the role is in its list |
| Menu.VisibleItems | frontend/src/components/Sidebar.jsx:8-19 | the shown items are exactly the declared items whose list holds the role |
| Menu.AdminSeesAll | frontend/src/components/Sidebar.jsx:9-13 | admin sees all five items, in order |
| Menu.GuardSeesThree | frontend/src/components/Sidebar.jsx:9-13 | security sees Dashboard, Visitor Log and Settings, in that order |
| Menu.OthersSeeNothing | frontend/src/components/Sidebar.jsx:17-19 | a null or any other role sees no items |
| Menu.PathsDistinct | frontend/src/components/Sidebar.jsx:8-14 | no two items share a path |
| Menu.VisibleItemsRender | frontend/src/components/Sidebar.jsx:41-45 | every link a signed-in role is shown leads to a page that renders without redirect |
| Menu.RoleCaption | frontend/src/components/Sidebar.jsx:32 | the header reads "Admin" exactly for admin and "Security" otherwise |
| Menu.OneActiveLink | frontend/src/components/Sidebar.jsx:41-45 | at most one shown link is active |
| Login.WriteSession | frontend/src/components/LoginForm.jsx:23-26 | the four session keys are written with the user's values and nothing else changes |
| Login.AnyRoleLogin | frontend/src/components/LoginForm.jsx:11-35 | once the browser lets the form through: empty inputs stop before any request; a refusal shows the server's error or the fallback with storage unchanged; success writes the session and reports the role, whatever it is |
| Login.GuardLogin | frontend/src/pages/SecurityLoginPage.jsx:12-41 | a role other than "security" is refused with nothing stored and no callback; storage changes only for a security login |
| Login.SubmitAnyRole | frontend/src/components/LoginForm.jsx:52-72 | the e-mail input blocks a non-empty value that is not an address; otherwise the handler runs, and a request is made exactly when the e-mail is a non-empty address and the password is non-empty |
| Login.SubmitGuard | frontend/src/pages/SecurityLoginPage.jsx:58-78 | the same browser check in front of the guard form; storage changes only for a security login with a valid address |
| Login.GuardLoginRefinesAnyRole | frontend/src/pages/SecurityLoginPage.jsx:24-27 | the guard form differs from the general one only for a successful login with another role |
| Login.LoginReachesApp | frontend/src/App.jsx:40-45 | the app's own login writes what the form wrote, and a reload keeps the user signed in with that role |
| SignUp.SetField | frontend/src/pages/SignUpPage.jsx:18-23 | only the changed field takes the value |
| SignUp.SetFieldLaws | frontend/src/pages/SignUpPage.jsx:18-23 | a later change replaces an earlier one, and changes of different fields commute |
| SignUp.Request | frontend/src/pages/SignUpPage.jsx:37-43 | the request carries the form's name, e-mail, password and role and the status "Active" |
| SignUp.Submit | frontend/src/pages/SignUpPage.jsx:25-53 | once the browser lets the form through: different passwords stop with an error and no request; otherwise success alerts and goes to the login page, and failure shows the server's error or the fallback; loading always ends |
| SignUp.BrowserSubmit | frontend/src/pages/SignUpPage.jsx:68-130 | with name, e-mail, password and confirmation required and the e-mail checked as an address, the handler runs exactly when all are filled and the address is valid; a request leaves exactly when, in addition, the passwords agree, and it carries a name, an address and a password |
| SignUp.SignUpThenLogin | frontend/src/pages/SignUpPage.jsx:37-43 | against the Flask server, a sign-up with a new e-mail creates an active account with the chosen role that can log in at once |
| SignUp.SentSignUpLogsIn | frontend/src/pages/SignUpPage.jsx:25-43 | any sign-up the browser lets reach the server, with an unused e-mail, creates an active account that logs in at once |
| SignUp.MismatchSendsNothing | frontend/src/pages/SignUpPage.jsx:29-32 | with different passwords the outcome does not depend on the server |
| VisitorModal.InitialForm | frontend/src/components/AddVisitorModal.jsx:6-14 | each field starts from the given data or "", and the visitor type from the given one or "Parent" |
| VisitorModal.InitialFormRoundTrip | frontend/src/components/AddVisitorModal.jsx:6-14 | without data the modal starts from the dashboard's empty form; seeded with a form it shows it back exactly when its visitor type is not empty |
| VisitorModal.SetField | frontend/src/components/AddVisitorModal.jsx:16-18 | only the changed field takes the value |
| VisitorModal.SetFieldLaws | frontend/src/components/AddVisitorModal.jsx:16-18 | writing a field's own value back changes nothing; a later write replaces an earlier one |
| VisitorModal.ApiData | frontend/src/components/AddVisitorModal.jsx:23-30 | the request is the dashboard's with the name trimmed; mobile, organisation and visitor type go as phone, company and host name |
| VisitorModal.ApiDataName | frontend/src/components/AddVisitorModal.jsx:24-67 | for a form the browser lets through, the name sent is the two halves with one space, the same as the dashboard sends; a last name of spaces only is trimmed away, leaving the first name, where the dashboard keeps the spaces |
| VisitorModal.Submit | frontend/src/components/AddVisitorModal.jsx:20-39 | success hands over the visit, alerts and closes, in that order; failure only alerts, with the reply's `message` or the request error |
| VisitorModal.CallbacksOnlyOnSuccess | frontend/src/components/AddVisitorModal.jsx:31-34 | the dialog closes and the parent hears of a visit only after a successful create, and the parent hears first |
| ApiPaths.BaseUrl | frontend/src/api/api.js:4 | the configured base URL when one is set, the local server otherwise |
| ApiPaths.ArgText | frontend/src/api/api.js:54-55 | a missing argument takes the default; `null` is interpolated as "null" |
| ApiPaths.ReportUrlShape | frontend/src/api/api.js:54-57 | the report URL is the report path, "?", and its query pairs joined by "&" |
| ApiPaths.QueryOfReportUrl | frontend/src/api/api.js:54-57 | for values without "&", "%", "+" or "#", splitting the URL's query gives back exactly the pairs it was built from; a "?" or "=" inside a value is read back as it was sent |
| ApiPaths.LookupReportPairs | frontend/src/api/api.js:55-57 | the format is always there; start_date and end_date are there exactly when given non-empty; no other name is |
| ApiPaths.ReportQueryRoundTrip | frontend/src/api/api.js:54-57 | a server reading the query finds the format, defaulting to csv, and each date exactly when it was given |
| ApiPaths.ServerSeesFormat | backend/api_server.py:539 | the server exports in the format the client put in the URL, CSV when none or null was passed |
| ApiPaths.IdPathSegments | frontend/src/api/api.js:44-52 | a per-record path splits into "", the collection, the id's digits and the action if any |
| ApiPaths.IdPathRoundTrip | frontend/src/api/api.js:44-52 | the router reads back the id the client put in the path, and a path with an action never matches a route without one, or the reverse |
| ApiPaths.PathsRoundTrip | frontend/src/api/api.js:44-89 | the check-out, delete, toggle and user paths carry their id, and the check-out and toggle paths are not the plain record paths |
| ApiPaths.ReportIsNotAnId | frontend/src/api/api.js:55 | the report path is not read as a visitor id |
| TrackerUsers.SeedIsGood | visitor-tracker/src/pages/UserManagementPage.jsx:6-35 | the four seeded members are numbered 1 to 4 and each is Active or Inactive |
| TrackerUsers.NumberedIdsDistinct | visitor-tracker/src/pages/UserManagementPage.jsx:43-50 | in a list numbered by position no two members share an id |
| TrackerUsers.AddUser | visitor-tracker/src/pages/UserManagementPage.jsx:43-53 | the form becomes an active member appended at the end with id one past the length; the form resets to empty fields with role "Guard" and the dialog closes |
| TrackerUsers.AddUserKeepsGood | visitor-tracker/src/pages/UserManagementPage.jsx:46-50 | after any number of adds the ids are still exactly 1..n |
| TrackerUsers.FirstAddedIsFive | visitor-tracker/src/pages/UserManagementPage.jsx:46 | the first member added to the seed is number 5 |
| TrackerUsers.Flip | visitor-tracker/src/pages/UserManagementPage.jsx:59 | the new status is Active or Inactive and differs from a known old one |
| TrackerUsers.Toggle | visitor-tracker/src/pages/UserManagementPage.jsx:55-63 | members with the id get the flipped status; everything else is unchanged |
| TrackerUsers.ToggleKeepsGood | visitor-tracker/src/pages/UserManagementPage.jsx:55-63 | toggling keeps the numbering and the two statuses |
| TrackerUsers.ToggleTwice | visitor-tracker/src/pages/UserManagementPage.jsx:55-63 | with known statuses, two toggles of the same id give back the list |
| TrackerUsers.ToggleTwiceNeedsKnownStatus | visitor-tracker/src/pages/UserManagementPage.jsx:59 | any other status ends as Inactive after two toggles, so the list is not restored |
| TrackerUsers.ButtonText | visitor-tracker/src/pages/UserManagementPage.jsx:118 | "Deactivate" exactly for an active member |
| TrackerUsers.BadgeClass | visitor-tracker/src/pages/UserManagementPage.jsx:108 | the badge class is "status-badge " followed by the status in lower case |
| TrackerUsers.ToggleFlipsCaption | visitor-tracker/src/pages/UserManagementPage.jsx:116-118 | pressing a member's button changes its caption |
| Tally.CountInOrder | frontend/src/pages/AnalyticsPage.jsx:78-81 | one entry per distinct key with its number of occurrences, counts adding up to the length |
| Tally.CountSorted | frontend/src/pages/AnalyticsPage.jsx:63-69 | the same counts, with the keys in ascending order |
| Strings.Lower | frontend/src/pages/SecurityDashboardPage.jsx:29 | lower-casing keeps the length and lowers each character |
| Strings.Split | frontend/src/pages/SecurityDashboardPage.jsx:51 | splitting gives at least one piece and no piece holds the separator |
| Strings.JoinSplit | frontend/src/pages/SecurityDashboardPage.jsx:51-53 | joining the pieces of a split with the same separator gives back the text |
| Strings.TrimEmptyIffAllSpace | frontend/src/pages/SecurityDashboardPage.jsx:24 | a term trims to nothing exactly when it is all white space |

## Left out

- UserAdmin.SaveUser: the dialog's own browser checks are not modelled: name and e-mail are required, the e-mail must be an address, and the password is required with at least eight characters when adding (and optional when editing). The contract says what a save does, not when the browser lets one happen.
- The address grammar a `type="email"` input checks is the parameter `isEmail`. The model's e-mail values are taken after the browser has stripped surrounding white space from such inputs.
- Database plumbing (`get_db_connection`, driver detection, `get_row_dict`) and the DDL itself. The tables are abstract maps, and only the constraints the endpoints rely on are kept: the key, the UNIQUE e-mail, NOT NULL and the defaults.
- The Flask endpoints the client pages do not drive through this model: `get_users`, `get_user`, `delete_user`, `forgot_password` with its SMTP mail and random token, `health` and `index`.
- Excel and PDF rendering, and CSV quoting: the model stops at the header and the cell strings.
- `backend/routes/api.php`. Route dispatch belongs to the framework; the controller actions are modelled directly.
- Floating point. Averages use integer milliseconds with round-half-up. `Math.round` on a negative half is not modelled.
- Locale and time-zone APIs (`toISOString`, `toLocaleDateString`, `getMonth`, daylight saving). They are fields of the `Calendar` parameter. The date arrows are modelled on calendar dates.
- A cleared date input on the visitor log, and years outside 0..9999 in the date keys.
- JavaScript's ordering of object keys that look like integers, and UTF-16 string order. Category entries come in first-appearance order; trend keys are sorted by character code.
- Unicode case mapping: `toLowerCase` and PHP's trim set are modelled on their ASCII parts.
- Laravel's `TrimStrings` middleware and the framework's date parser. A check-out date is already parsed, valid or invalid, when it reaches the model.
- React rendering, CSS, emoji prefixes, `alert` and `confirm` (modelled only as the texts and flags they receive), loading flags other than sign-up's, the axios transport and its timeout.
- `LoginPage.jsx`, a pass-through to the login form, and `ForgotPasswordPage.jsx`.
- The placeholder pages of the earlier client (analytics, visitor log, settings, sidebar), which hold only fixed data. The tracker page's role-badge icon and its form's field edits are left out too.
- The settings page's load and save calls, because the Flask server has no `/settings` route.
- Routing.Route: matches paths exactly. React Router v6 also matches a path in other letter cases and with one trailing slash, so "/Dashboard" and "/dashboard/" reach the dashboard there but match nothing here.
- VisitorLog.Back, VisitorLog.Forward: move by exactly one calendar day. The page parses the selected date as UTC midnight, steps one day in local time and prints the result in UTC. In a zone with daylight saving, a step across a change of offset can land on the same date or skip one. For example, in New York the forward arrow from 2024-03-10 stays on 2024-03-10, and the back arrow from 2024-11-04 skips to 2024-11-02. The local time rules are not modelled.
- ApiPaths.ReportQueryRoundTrip: holds only for values without "&", "%", "+" or "#", because the client does not URL-encode the values it interpolates. A server splits pairs at "&", decodes "%" escapes and reads "+" as a space, and the URL ends at "#".
- ApiPaths.QueryOfReportUrl: the server's parser is modelled as splitting and reading values literally. Percent-decoding is left out, and the precondition excludes the characters it would change.
- Concurrency, such as two check-outs racing.

## Findings

| source | as written | input that shows it | evidently intended | confidence | as-written member | corrected member |
|---|---|---|---|---|---|---|
| frontend/src/pages/SecurityDashboardPage.jsx:135-138 | the check-out reply is stored in place of the visitor, but the Flask server replies `{"message": ...}` (backend/api_server.py:793), so the entry loses its id, name and `check_out_time` | a list with one open visit of id 7; check out 7; "Currently Inside" stays at 1 and the row becomes blank | the visit is replaced by its closed copy, so "Currently Inside" drops by one | likely; not executed | Dashboard.CheckoutReplyKeepsVisitorInside | Dashboard.CheckoutLeavesInside |
