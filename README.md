# Excel Analytics Platform — a verified model of its core

The Excel Analytics Platform is a MERN web application. Users register and
sign in, upload `.xls`/`.xlsx` spreadsheets, preview and chart them, export
data as CSV, Excel or PDF, and share uploads through share records, share
links and teams. This project models the parts of the server and the client
whose behaviour can be stated exactly, and proves what they promise:

- **Server handlers.** The collaboration, upload, export/report and account
  handlers. Each takes one user document (or a table of accounts) and
  returns a reply (`Http.Reply`: status, message, data). Each runs its checks
  in the source's order with the source's status codes and messages, and
  updates the document's embedded collections as the source does.
- **Client logic.** The HTTP wrapper's response classifier and header
  builder. The two Redux stores (files and session). The onboarding tour.
  The theme context. The upload page and chart viewer, which turn rows into
  records and records into chart data. The export page's CSV text and PDF
  layout.

JavaScript values are modelled by `Js.Value` (undefined, null, booleans,
integers, strings, arrays, objects with ordered keys), together with
JavaScript's truthiness, `String(v)`, `===`, ASCII case mapping,
`path.extname` and `parseInt`. Spreadsheet parser output, ids, the clock,
environment settings, local storage and password checking are parameters.

Modules, one per source file, plus shared ones:

| module | models |
|---|---|
| `Js` | JavaScript values and the built-ins the code relies on |
| `Http` | the reply every handler sends |
| `UserDocument` | the user document's embedded upload history, share records, links and teams |
| `Rows` | header/row zipping into records and the chart projection, shared by server and client |
| `CollaborationController`, `UploadController`, `ExportReportingController`, `AuthController` | backend/controllers/*.js |
| `Api`, `FileSlice`, `AuthSlice`, `OnboardingTour`, `ThemeContext`, `UploadFilePage`, `ChartViewer`, `ExportReportingPage` | the client files of the same names |

## Model

| member | source | states |
|---|---|---|
| CollaborationController.ShareRecordFor | backend/controllers/collaborationController.js:39-51 | the record a share stores: `permissions` defaults to 'view', and it expires exactly 30 days after it was made |
| CollaborationController.ShareItem | backend/controllers/collaborationController.js:5-79 | checks run in order: missing field 400, then unknown (lower-cased) recipient 404, then missing document 500, then item not among the uploads 404. Only a full success appends exactly one record. Links, uploads and teams never change, and a failure leaves the records as they were |
| CollaborationController.GetItemName | backend/controllers/collaborationController.js:440-443 | the original name of the first upload stored under that name, else 'Unknown Item' |
| CollaborationController.GetSharedItems | backend/controllers/collaborationController.js:94-110 | one entry per stored share record, in order, tagged 'shared_by_me' and named after its upload |
| CollaborationController.SharedItemsNamed | backend/controllers/collaborationController.js:101-105 | in a consistent document every listed share carries the original name of the upload it shares, never 'Unknown Item' |
| CollaborationController.GenerateShareLink | backend/controllers/collaborationController.js:127-188 | missing field 400, then missing document 500, then unknown item 404. Otherwise one link is appended that expires 7 days later, and the reply's link is `<FRONTEND_URL>/shared/<token>` ("undefined" when unset) |
| CollaborationController.RevokeAccess | backend/controllers/collaborationController.js:191-222 | missing document 404; otherwise always 200, and the records become exactly those whose id differs from `shareId` |
| CollaborationController.WithoutShare | backend/controllers/collaborationController.js:206 | the surviving records are among the old ones, none has the revoked id, and there are no more of them; the converse and the order are in RevokeProperties |
| CollaborationController.RevokeProperties | backend/controllers/collaborationController.js:204-208 | after a revoke no record has that id, and every other record is kept in its order. Revoking twice equals revoking once, and a revoke that matches nothing changes nothing |
| CollaborationController.CreateTeam | backend/controllers/collaborationController.js:225-279 | name and description required (400), then document (404). Appends one team owned by the user, with members defaulting to `[user.email]`, and the reply counts those members |
| CollaborationController.GetTeams | backend/controllers/collaborationController.js:294-304 | one summary per team, in stored order, with `memberCount` the length of its member list |
| CollaborationController.InviteToTeam | backend/controllers/collaborationController.js:317-388 | email 400, then document 404, then team 404, then already a member 400. On success the email is appended once to that team, `updatedAt` is set and the count grows by exactly one. The owner check (403) cannot fail on a document whose teams were made by createTeam |
| CollaborationController.InviteKeepsMembersDistinct | backend/controllers/collaborationController.js:356-364 | because an existing member is refused, a member list without repeats stays without repeats |
| CollaborationController.GetSharedItem | backend/controllers/collaborationController.js:391-437 | 404 'Share link not found or expired' exactly when no document holds the token. Otherwise the answer comes from the first document holding it and that document's first link with the token: Ok exactly when `now <= expiresAt` and the link's item is among the uploads, 404 'Share link expired' exactly when `expiresAt < now`, 404 'Shared item not found' exactly when the link is live but its item is missing. On Ok the data is that first matching upload, the owner's username and the link's expiry |
| CollaborationController.OpenLink | backend/controllers/collaborationController.js:405-428 | for a found link: Ok exactly when it has not expired and its item exists, 'Share link expired' exactly when `expiresAt < now`, 'Shared item not found' exactly when it is live and the item is missing |
| CollaborationController.FirstLinkIndex | backend/controllers/collaborationController.js:404 | in a document holding the token, the index of its first link with that token |
| CollaborationController.LinkExpiryBoundary | backend/controllers/collaborationController.js:405 | a link still opens at exactly its expiry time and is refused one millisecond later |
| UserDocument.FindUpload | backend/controllers/collaborationController.js:29 | finds an upload exactly when one is stored under that name, and then it is the first such upload |
| UserDocument.UserDoc.constructor | backend/controllers/collaborationController.js:54 | a new document has empty collections and is consistent (every share and link names one of its uploads and has this owner) |
| UploadController.StoredName | backend/controllers/uploadController.js:14-18 | the stored name starts with `<timestamp>-` and ends with the original name's extension |
| UploadController.MaxFileSize | backend/controllers/uploadController.js:23 | the limit is the parsed setting, or 10485760 when the setting is unset, unparseable or 0; it is never 0 |
| UploadController.MaxFileSizeDecimal | backend/controllers/uploadController.js:23 | a setting written in decimal digits is the limit unless it is 0 |
| UploadController.Admit | backend/controllers/uploadController.js:21-30 | a file is stored exactly when its name ends in .xls/.xlsx (in any letter case) and it fits the limit; otherwise it is refused with the filter's message or 'File too large' |
| UploadController.AcceptedExtension | backend/controllers/uploadController.js:15-25 | an accepted name's extension is empty or, lower-cased, '.xls' or '.xlsx' |
| UploadController.SuffixExtension | backend/controllers/uploadController.js:15-25 | a name whose lower-cased form ends in a dotted suffix has that suffix (in its own case) as its extension, or none |
| UploadController.StoredNameAccepted | backend/controllers/uploadController.js:14-29 | a stored name keeps the accepted suffix, so it passes the same filter |
| UploadController.BareSuffixLosesExtension | backend/controllers/uploadController.js:15-25 | a file named just ".xlsx" passes the filter, but its stored name has no extension |
| UploadController.SplitSheet | backend/controllers/uploadController.js:43-44 | headers are the first parsed row, or `[]` when there is none, and the rest are the data rows; the sheet is exactly headers followed by rows |
| UploadController.Preview | backend/controllers/uploadController.js:69 | the first min(10, n) rows, unchanged |
| UploadController.Summarize | backend/controllers/uploadController.js:64-74 | `rowCount` is the number of data rows; the preview holds the first data rows, at most 10 and at most `rowCount`; the header row and file names are passed on |
| UploadController.NewEntry | backend/controllers/uploadController.js:52-57 | the history entry keeps the stored name, original name and size, with no chart configurations |
| UploadController.UploadExcel | backend/controllers/uploadController.js:33-79 | no file 400 before anything else; a parse failure 500. Otherwise the reply is the summary, and the history gains exactly one entry when a signed-in user's document exists |
| UploadController.AppendKeepsUploads | backend/controllers/uploadController.js:51-57 | an append never makes an earlier upload unfindable |
| UploadController.UploadedIsFindable | backend/controllers/uploadController.js:52-57 | after an upload is recorded it can be found under its stored name |
| UploadController.LookupEntry | backend/controllers/uploadController.js:106 | an entry with that id wins; with no such id, the first entry with that stored name |
| UploadController.ZipSheet | backend/controllers/uploadController.js:120-129 | one record per data row, each zipped from the header row |
| UploadController.GetParsedFile | backend/controllers/uploadController.js:98-138 | user 404, then entry 404 'File not found in your uploads', then file 404 'File not found on server' (distinct), then parse failure 500; otherwise the columns and one record per data row |
| UploadController.UploadAndParseAgree | backend/controllers/uploadController.js:43-129 | the upload reply and a later parse of the same sheet agree on the headers and the row count, and the previewed rows are the first parsed records |
| Rows.LastIndexNaming | backend/controllers/uploadController.js:125-127 | the last header index that writes a given property, if any |
| Rows.RowObject | backend/controllers/uploadController.js:123-129 | every header that is not a hole becomes a property of the record; that it holds the cell under the last header of its name is in RowObjectCell and DuplicateHeaderLaterWins, and that there are no other properties in RowObjectKeys |
| Rows.RowObjectSnoc | backend/controllers/uploadController.js:125-127 | walking one more header sets just that header's property (a hole sets nothing) |
| Rows.ZipRow | backend/controllers/uploadController.js:124-128 | the `forEach` loop over the headers builds exactly the record of the row |
| Rows.ZipRows | backend/controllers/uploadController.js:123-129 | one record per row, in order |
| Rows.RowObjectCell | backend/controllers/uploadController.js:126 | a header not overridden later holds its own cell, and `undefined` past the end of a short row |
| Rows.RowObjectKeys | backend/controllers/uploadController.js:125-127 | the record's properties are exactly the names of the non-hole headers |
| Rows.DuplicateHeaderLaterWins | backend/controllers/uploadController.js:126 | with two equal header names the property holds the cell of a later one |
| Rows.RowObjectRoundTrip | backend/controllers/uploadController.js:123-129 | with distinct names and a full row, reading the record back column by column gives the row again |
| Rows.Project | client/src/components/ChartViewer.jsx:20-31 | labels and data have one value per record |
| Rows.ProjectZippedColumns | client/src/pages/UploadFile.jsx:35-67 | charting zipped rows by header columns x and y plots exactly spreadsheet columns x and y, row by row |
| Rows.DefaultAxisChoice | client/src/components/ChartViewer.jsx:15-16 | a default axis is '' or the header cell itself, and it is the header cell exactly when that cell is truthy |
| Rows.DefaultAxis | client/src/components/ChartViewer.jsx:15-16 | `columns[i] \|\| ''` is either '' or header cell i; when each applies is in DefaultAxisChoice |
| ExportReportingController.ExportKindOf | backend/controllers/exportReportingController.js:49-62 | 'xlsx' with the spreadsheet type exactly for the format 'excel'; 'csv'/'text/csv' for every other format |
| ExportReportingController.ExportFileName | backend/controllers/exportReportingController.js:64 | the name starts with `<filename>-` and ends with `.<ext>` |
| ExportReportingController.ExportReply | backend/controllers/exportReportingController.js:36-89 | defaults apply only to absent fields; a format that is not text fails with 500 when the message upper-cases it; otherwise the reply names the file and `/api/export-reporting/download/<name>` |
| ExportReportingController.ExportDataAsFileAsWritten | backend/controllers/exportReportingController.js:34-98 | missing or non-array data 400, and every format except 'excel' 500 (see Findings) |
| ExportReportingController.DefaultCsvExportFails | backend/controllers/exportReportingController.js:36-58 | the default request (rows, no format) and an explicit 'csv' both fail with 500 as written |
| ExportReportingController.ExportDataAsFile | backend/controllers/exportReportingController.js:34-98 | missing or non-array data 400; otherwise the reply for the format, whose download URL points at the named file with the selected extension |
| ExportReportingController.DownloadMimeType | backend/controllers/exportReportingController.js:114-121 | '.csv' gives text/csv, '.xlsx' the spreadsheet type and anything else application/octet-stream, judged on the lower-cased extension |
| ExportReportingController.DownloadExportedFile | backend/controllers/exportReportingController.js:101-136 | a missing file 404; otherwise the content type for its extension and an attachment disposition naming it |
| ExportReportingController.ExportedFileDownloadsAsExported | backend/controllers/exportReportingController.js:49-121 | a file named by an export is served back with the content type the export chose, whatever the base name and time |
| ExportReportingController.XlsxMime | backend/controllers/exportReportingController.js:119-120 | a name with extension '.xlsx' downloads as the spreadsheet type |
| ExportReportingController.CsvMime | backend/controllers/exportReportingController.js:117-118 | a name with extension '.csv' downloads as text/csv |
| ExportReportingController.ExportedExtension | backend/controllers/exportReportingController.js:64 | an exported file name has exactly the extension chosen for it |
| ExportReportingController.Bump | backend/controllers/exportReportingController.js:286 | one more under that chart type, starting from 0; every other count unchanged |
| ExportReportingController.ChartTypeDistribution | backend/controllers/exportReportingController.js:280-291 | the nested loops compute the histogram `Distribution` of the history's chart types |
| ExportReportingController.Distribution | backend/controllers/exportReportingController.js:280-291 | every chart type listed has a positive count; the totals and per-type counts are in DistributionTotal and DistributionCounts |
| ExportReportingController.SumValuesRemove | backend/controllers/exportReportingController.js:286 | a histogram's total is any one count plus the total of the rest |
| ExportReportingController.SumValuesBump | backend/controllers/exportReportingController.js:286 | each bump adds exactly one to the histogram's total |
| ExportReportingController.CountChartsSum | backend/controllers/exportReportingController.js:285-287 | one file's charts add exactly their number to the total |
| ExportReportingController.DistributionTotal | backend/controllers/exportReportingController.js:280-291 | the histogram's counts add up to the number of saved charts |
| ExportReportingController.CountChartsCounts | backend/controllers/exportReportingController.js:285-287 | after one file, each type's count grows by that file's charts of the type |
| ExportReportingController.DistributionCounts | backend/controllers/exportReportingController.js:280-291 | each count is the number of charts of that type over all files, and a type appears exactly when some chart has it |
| ExportReportingController.Detail | backend/controllers/exportReportingController.js:225-230 | a file detail carries the file's name, size and chart count |
| ExportReportingController.Heading | backend/controllers/exportReportingController.js:209-251 | the `type` and `description` of an analysis: both non-empty for the four report types, absent exactly for the empty `{}` |
| ExportReportingController.AnalysisFor | backend/controllers/exportReportingController.js:207-261 | each of the four report types gets its own analysis kind with its own heading: the three highlights, one detail per upload in order, the chart-type histogram, or the number of uploads; any other type leaves the analysis `{}` |
| ExportReportingController.ReportOf | backend/controllers/exportReportingController.js:188-205 | the fixed title, the account's name and email, the upload count and chart total, every upload, the selected charts (`[]` when none) and the analysis for the report type |
| ExportReportingController.Analyze | backend/controllers/exportReportingController.js:207-261 | the switch, with the comprehensive case running the counting loops, gives exactly AnalysisFor |
| ExportReportingController.GenerateReportContent | backend/controllers/exportReportingController.js:188-264 | the report built is exactly ReportOf of the account's name, email and upload history |
| ExportReportingController.GenerateComprehensiveReport | backend/controllers/exportReportingController.js:139-185 | missing user 404. Otherwise the content is exactly the report generateReportContent builds (ReportOf), with its totals those of the history; format 'pdf' wraps it with the report type and `comprehensive-report-<time>.pdf`, any other format returns it as it is |
| ExportReportingController.ReportTotalsAgree | backend/controllers/exportReportingController.js:197-243 | the report's chart total equals the sum of its chart-type histogram; an empty history gives `{}` and 0 |
| AuthController.ProfileOf | backend/controllers/authController.js:50 | a profile shows the account's id, email and role |
| AuthController.SessionOf | backend/controllers/authController.js:44-52 | the token carries the same user id and role as the profile sent with it |
| AuthController.IndexOfId | backend/controllers/authController.js:219 | finds the account with that id, or reports that none has it |
| AuthController.IndexOfEmail | backend/controllers/authController.js:71 | `User.findByEmail(email)`, taken to look the address up lower-cased: the account stored under the lower-cased email, or none |
| AuthController.FirstConflict | backend/controllers/authController.js:20-22 | the first account holding the lower-cased email or the exact user name; none exactly when no account holds either |
| AuthController.ConflictMessage | backend/controllers/authController.js:24-31 | 'Email already registered' exactly when the conflicting account holds the email, else 'Username already taken' |
| AuthController.ConflictReportsFirstMatchOnly | backend/controllers/authController.js:20-31 | when the user name belongs to one account and the email to a later one, only the user name is reported |
| AuthController.LoginCheck | backend/controllers/authController.js:71-94 | granted exactly for a found, active account whose password checks; deactivated exactly for a found inactive one; unknown exactly when none is found |
| AuthController.DeactivatedIgnoresPassword | backend/controllers/authController.js:80-88 | a deactivated account gets the same answer whatever password is tried |
| AuthController.LoginRefusalsAlike | backend/controllers/authController.js:72-94 | an unknown email and a wrong password get the same message |
| AuthController.UpdatedProfile | backend/controllers/authController.js:185-191 | only the supplied user name and email change (email lower-cased); every other field stays |
| AuthController.UserTable.constructor | backend/controllers/authController.js:15 | an empty table with unique ids, emails and user names, emails in lower case |
| AuthController.UserTable.Register | backend/controllers/authController.js:15-63 | no email 500; a conflict 400 with its message and no change; otherwise exactly one active account is appended, with the email lower-cased and role 'user' by default, and the reply is its session (201). The table stays unique |
| AuthController.UserTable.Login | backend/controllers/authController.js:66-120 | refusals in order (unknown 401, deactivated 401, wrong password 401) change nothing; only a granted login sets `lastLogin` on that account |
| AuthController.UserTable.UpdateProfile | backend/controllers/authController.js:152-211 | an email held by another account 400, checked before a user name held by another account 400. Otherwise only the supplied fields of the account change; nothing changes on a refusal |
| AuthController.UserTable.ChangePassword | backend/controllers/authController.js:214-253 | unknown user 404, wrong current password 400, both with no change; otherwise only that account's password is replaced |
| AuthController.UserTable.UpdateUserRole | backend/controllers/authController.js:279-320 | a role other than 'user'/'admin' 400 before any lookup and with no change; unknown user 404; otherwise only that account's role changes |
| AuthController.IsRole | backend/controllers/authController.js:284 | only the strings 'user' and 'admin' pass, so the stored role is always non-empty text; the 400 that comes before the lookup is in UserTable.UpdateUserRole |
| AuthController.UserTable.ToggleUserStatus | backend/controllers/authController.js:323-357 | unknown user 404; otherwise only that account's active flag changes, and the message says activated or deactivated |
| AuthController.RegisteredCanBeFound | backend/controllers/authController.js:21-71 | after registering a fresh email, signing in with any spelling that lower-cases to the same address (the all-capitals one among them) finds the new account |
| Api.FixedMessage | client/src/services/api.js:9-27 | exactly 429, 401, 403, 404 and 500 have a fixed non-empty message, and none of them is a success status |
| Api.HandleResponse | client/src/services/api.js:6-34 | a non-JSON body fails before the status is read; the reply resolves exactly for a JSON body with a 2xx status, and then with that body; the rejection texts are in RejectionMessage |
| Api.ResolvesOnSuccess | client/src/services/api.js:6-33 | a response resolves exactly when its body is JSON and its status is 2xx, and then with the body unchanged; a non-JSON body always rejects |
| Api.RejectionMessage | client/src/services/api.js:9-31 | the five statuses get their fixed message; any other failure shows the server's message, or `HTTP error! status: N` when that message is falsy |
| Api.RejectionNeverEmpty | client/src/services/api.js:9-31 | a rejection's message is never empty unless the server's message is a truthy value with empty text |
| Api.RejectValue | client/src/redux/fileSlice.js:13-37 | the error message, or the fallback when it is empty |
| Api.LoginRefusalHidden | client/src/services/api.js:13-15 | every login refusal reaches the client as the fixed authentication message, so the server's distinction is lost |
| Api.ConflictShown | client/src/services/api.js:29-31 | a registration conflict (400) is shown word for word |
| Api.Bearer | client/src/services/api.js:37-66 | with no stored token the header reads "Bearer null" |
| Api.GetHeaders | client/src/services/api.js:37-66 | GET and DELETE send only the Authorization header |
| Api.PostHeadersSpec | client/src/services/api.js:45-55 | the caller's headers win; an absent or empty Authorization is filled from the stored token; a JSON body gets a JSON content type unless the caller set one; a form body gets none; nothing else is added |
| Api.PostHeaders | client/src/services/api.js:45-55 | every POST carries a non-empty Authorization header and keeps every header the caller gave; the exact key set and values are in PostHeadersSpec |
| Api.UploadHeaders | client/src/redux/fileSlice.js:24 | the upload's form post carries only the token |
| FileSlice.UploadPayloadUndefined | client/src/redux/fileSlice.js:24-25 | the upload resolves with `undefined`, since the server's reply has no `file` property |
| FileSlice.RejectionCarriesResponseMessage | client/src/redux/fileSlice.js:13-37 | a failed request's reducer value is the client's error message; the fallback is never used for a server reply with a text message |
| FileSlice.RemoveByIdMembership | client/src/redux/fileSlice.js:61-63 | an entry survives a delete exactly when its `_id` differs from the deleted id |
| FileSlice.RemoveByIdIdempotent | client/src/redux/fileSlice.js:62 | deleting twice is deleting once |
| FileSlice.RemoveByIdConcat | client/src/redux/fileSlice.js:62 | the surviving entries keep their order |
| FileSlice.RemoveByIdSnoc | client/src/redux/fileSlice.js:62 | one more entry at the end survives a delete exactly when its `_id` differs from the deleted id |
| FileSlice.RemoveUnmatched | client/src/redux/fileSlice.js:62 | an id that matches no `_id` (such as a stored file name) leaves the list as it is |
| FileSlice.RemoveById | client/src/redux/fileSlice.js:62 | the survivors are among the old entries, none has the deleted `_id`, and there are no more of them; the converse and the order are in RemoveByIdMembership and RemoveByIdConcat |
| FileSlice.FileState.constructor | client/src/redux/fileSlice.js:4-8 | files empty, not loading, no error |
| FileSlice.FileState.FetchPending | client/src/redux/fileSlice.js:46-49 | loading, error cleared, files kept |
| FileSlice.FileState.FetchFulfilled | client/src/redux/fileSlice.js:50-53 | files replaced by the payload, loading ended, error kept |
| FileSlice.FileState.FetchRejected | client/src/redux/fileSlice.js:54-57 | error set to the payload, loading ended, files kept |
| FileSlice.FileState.UploadFulfilled | client/src/redux/fileSlice.js:58-60 | the payload goes in front of the old files, in order |
| FileSlice.FileState.DeleteFulfilled | client/src/redux/fileSlice.js:61-63 | the files become those whose `_id` differs from the payload; a null or undefined entry makes the reducer throw, and then the state stays as it was |
| AuthSlice.RestoredToken | client/src/redux/authSlice.js:6 | the stored token when one is stored and non-empty, else null |
| AuthSlice.AuthRequest | client/src/redux/authSlice.js:12-30 | fulfilled exactly when the response resolved with a `data` object. The text stored is `String(data.token)`. Every failure becomes `err.message \|\| fallback` |
| AuthSlice.AuthState.constructor | client/src/redux/authSlice.js:4-10 | no user, the restored token, signed in exactly when a token is stored |
| AuthSlice.AuthState.Logout | client/src/redux/authSlice.js:36-41 | user and token null, signed out, token removed from storage |
| AuthSlice.AuthState.SetUser | client/src/redux/authSlice.js:42-45 | user set and signed in; all else kept |
| AuthSlice.AuthState.Pending | client/src/redux/authSlice.js:49-67 | loading and error cleared; all else kept |
| AuthSlice.AuthState.Settle | client/src/redux/authSlice.js:53-78 | success takes user and token from `payload.data` and signs in; failure records the error and signs out but keeps user and token; loading ends either way |
| AuthSlice.SignInSurvivesReload | client/src/redux/authSlice.js:6-25 | after a sign-in with a string token, a reload restores that token and the signed-in state |
| AuthSlice.MissingTokenRestoresAsText | client/src/redux/authSlice.js:6-15 | a reply without a token stores the text "undefined", which a reload takes as a signed-in token |
| AuthSlice.RejectionReachesStore | client/src/redux/authSlice.js:17-19 | a response the wrapper rejected reaches the store as the wrapper's message |
| OnboardingTour.NextStep | client/src/components/OnboardingTour.jsx:48-54 | moves on by one exactly before the last step; on the last step it finishes instead |
| OnboardingTour.PreviousStep | client/src/components/OnboardingTour.jsx:56-60 | moves back by one, except on the first step |
| OnboardingTour.StepsRoundTrip | client/src/components/OnboardingTour.jsx:48-60 | Previous undoes Next and Next undoes Previous, away from the ends |
| OnboardingTour.NextWalk | client/src/components/OnboardingTour.jsx:48-54 | pressing Next k times from the start reaches step k, for every step |
| OnboardingTour.WalkFinishes | client/src/components/OnboardingTour.jsx:9-54 | six presses reach the last step, and one more finishes the tour |
| OnboardingTour.NextLabel | client/src/components/OnboardingTour.jsx:191 | 'Get Started' exactly on the last step |
| OnboardingTour.ButtonsMatchBehaviour | client/src/components/OnboardingTour.jsx:155-192 | the button says 'Get Started' exactly where Next finishes, the chevron shows exactly where it moves on, and Previous is disabled exactly where it does nothing |
| OnboardingTour.Tour.constructor | client/src/components/OnboardingTour.jsx:7 | starts on the first step with no callbacks made |
| OnboardingTour.Tour.Complete | client/src/components/OnboardingTour.jsx:62-66 | sets `onboardingCompleted` to 'true', calls `onComplete` when given, then `onClose` |
| OnboardingTour.Tour.Next | client/src/components/OnboardingTour.jsx:48-54 | moves on, or on the last step completes; the step stays within the six |
| OnboardingTour.Tour.Previous | client/src/components/OnboardingTour.jsx:56-60 | moves back unless on the first step; the step stays within the six |
| OnboardingTour.Tour.Skip | client/src/components/OnboardingTour.jsx:68-71 | sets `onboardingCompleted` to 'true' and calls only `onClose` |
| ThemeContext.Persisted | client/src/contexts/ThemeContext.jsx:30 | the saved text is never empty |
| ThemeContext.PersistRoundTrip | client/src/contexts/ThemeContext.jsx:14-30 | the saved mode is the mode a reload starts in, whatever the system says |
| ThemeContext.SavedTextDecides | client/src/contexts/ThemeContext.jsx:14-22 | a saved text other than 'dark' starts light; an empty or absent one defers to the system |
| ThemeContext.InitialMode | client/src/contexts/ThemeContext.jsx:14-22 | the system setting is overridden only by a saved non-empty preference, and a saved preference means dark exactly when it is 'dark' |
| ThemeContext.PaletteFollowsMode | client/src/contexts/ThemeContext.jsx:43-55 | every colour differs between the modes, text differs from background, and the dark palette is used exactly in dark mode |
| ThemeContext.Colors | client/src/contexts/ThemeContext.jsx:43-55 | in each mode both text colours differ from the background; the differences between the modes are in PaletteFollowsMode |
| ThemeContext.Theme.constructor | client/src/contexts/ThemeContext.jsx:14-38 | the starting mode is chosen, then saved and applied to the page |
| ThemeContext.Theme.Toggle | client/src/contexts/ThemeContext.jsx:24-38 | the mode flips (so two toggles restore it), and the saved text and page class follow |
| ThemeContext.Theme.CurrentColors | client/src/contexts/ThemeContext.jsx:43-55 | the dark palette exactly in dark mode |
| ThemeContext.ReloadKeepsMode | client/src/contexts/ThemeContext.jsx:14-38 | after any toggles a reload starts in the current mode |
| UploadFilePage.ChoicesDraw | client/src/pages/UploadFile.jsx:167-170 | every offered chart type draws a chart, each a different one |
| UploadFilePage.Drawn | client/src/pages/UploadFile.jsx:167-170 | a chart is drawn exactly for 'bar', 'pie', 'line' and 'donut'; that the four are distinct is in ChoicesDraw |
| UploadFilePage.ThroughJson | client/src/pages/UploadFile.jsx:59 | an array through JSON keeps its length, and its holes become null |
| UploadFilePage.UploadPage.constructor | client/src/pages/UploadFile.jsx:25-33 | the page's initial state |
| UploadFilePage.UploadPage.HandleFileChange | client/src/pages/UploadFile.jsx:50-77 | no file does nothing. On success the headers become the columns, each preview row becomes a record keyed by them, the axes are header 0 and header 1 (each only when truthy, else ''), and the preview shows. On failure the message (or the fallback) is shown and the old preview stays. Loading ends either way |
| UploadFilePage.UploadPage.Chart | client/src/pages/UploadFile.jsx:35-48 | one label per preview record, and the series is named after the y-axis |
| UploadFilePage.ThroughJsonKeeps | client/src/pages/UploadFile.jsx:59 | a header row without holes arrives unchanged |
| UploadFilePage.DefaultChartPlotsFirstColumns | client/src/pages/UploadFile.jsx:35-69 | after an upload the default chart plots sheet column 0 against column 1 for the first up to 10 data rows (given two truthy, distinct, hole-free headers) |
| UploadFilePage.HoleHeaderDiffers | client/src/pages/UploadFile.jsx:59-67 | a hole in the header row arrives as null, so the page's record gains a property "null" that the server's record lacks |
| ChartViewer.ChartFor | client/src/components/ChartViewer.jsx:84-88 | once shown, the display is a chart of the given data or "not supported" |
| ChartViewer.ChoicesDrawn | client/src/components/ChartViewer.jsx:83-91 | every offered type draws its own kind of chart, and any other value is unsupported |
| ChartViewer.SelectedAxisReadsColumn | client/src/components/ChartViewer.jsx:52-72 | a select's text value reads the same property as the header cell, so the chart is the same |
| ChartViewer.SameAxisPlotsItself | client/src/components/ChartViewer.jsx:52-72 | nothing stops both axes from naming one column; the chart then plots it against itself |
| ChartViewer.Viewer.constructor | client/src/components/ChartViewer.jsx:13-17 | bar chart, the default axes from the first two headers, nothing shown |
| ChartViewer.Viewer.Rerender | client/src/components/ChartViewer.jsx:13-16 | new props keep the state, so the axes stay those chosen from the first columns |
| ChartViewer.Viewer.SelectChartType | client/src/components/ChartViewer.jsx:43 | sets only the chart type |
| ChartViewer.Viewer.SelectXAxis | client/src/components/ChartViewer.jsx:55-59 | sets only the x-axis, to the picked header's text |
| ChartViewer.Viewer.SelectYAxis | client/src/components/ChartViewer.jsx:67-71 | sets only the y-axis, to the picked header's text |
| ChartViewer.Viewer.ShowAnalysis | client/src/components/ChartViewer.jsx:76 | shows the chart; all else kept |
| ChartViewer.Viewer.Shown | client/src/components/ChartViewer.jsx:83-91 | "No Charts Yet" exactly until the chart is shown; a drawn chart projects the data on the chosen axes |
| ChartViewer.PickedColumnsPlotted | client/src/components/ChartViewer.jsx:20-72 | for zipped rows with distinct headers, the axes picked from the lists plot exactly those spreadsheet columns |
| ExportReportingPage.CsvHeaders | client/src/pages/ExportReporting.jsx:65 | the first record's property names; none for no records or a falsy first record |
| ExportReportingPage.CsvFields | client/src/pages/ExportReporting.jsx:68 | one field per header |
| ExportReportingPage.CsvLines | client/src/pages/ExportReporting.jsx:67-69 | one line per record |
| ExportReportingPage.CsvField | client/src/pages/ExportReporting.jsx:68 | a field is the cell text between two double quotes; its text is recovered by FieldText |
| ExportReportingPage.CsvLine | client/src/pages/ExportReporting.jsx:67-69 | no headers give an empty line and one header gives just its field; the split back into fields is in LineRoundTrip |
| ExportReportingPage.CsvContent | client/src/pages/ExportReporting.jsx:63-69 | the text always holds a newline and is just "\n" for no records; reading it back is CsvRoundTrip |
| ExportReportingPage.ExportDataAsFile | client/src/pages/ExportReporting.jsx:57-97 | csv and excel fail (with the failure toast) exactly when a record must be read and is missing. Success and toast agree, and the file is named `data-<time>...` |
| ExportReportingPage.ExcelIsCsvText | client/src/pages/ExportReporting.jsx:63-81 | the 'excel' file has the same text as the 'csv' one, under a .xlsx name and the spreadsheet type |
| ExportReportingPage.EmptyExport | client/src/pages/ExportReporting.jsx:65-71 | no records give the file "\n" named `data-<time>.csv` |
| ExportReportingPage.FieldPlain | client/src/pages/ExportReporting.jsx:68 | quoting adds no comma or newline |
| ExportReportingPage.FieldText | client/src/pages/ExportReporting.jsx:68 | a field is the value's text between quotes, empty for a falsy value |
| ExportReportingPage.LineRoundTrip | client/src/pages/ExportReporting.jsx:67-69 | a line splits on ',' back into its quoted fields when no cell holds a comma |
| ExportReportingPage.CsvRoundTrip | client/src/pages/ExportReporting.jsx:65-69 | read back, the text gives the header names and then each record's quoted cells, one line per record, when no name or cell holds a comma or newline |
| ExportReportingPage.CommaSplitsCell | client/src/pages/ExportReporting.jsx:68 | nothing is escaped: a comma inside a cell splits it in two when read back |
| ExportReportingPage.ListedCount | client/src/pages/ExportReporting.jsx:125-130 | a file is listed exactly when its line starts above the bottom margin, so at most 18 are listed |
| ExportReportingPage.FileEntries | client/src/pages/ExportReporting.jsx:125-130 | one entry per listed file |
| ExportReportingPage.FileEntriesStep | client/src/pages/ExportReporting.jsx:125-130 | one more file adds its numbered line exactly when that line starts above the bottom margin |
| ExportReportingPage.ListFiles | client/src/pages/ExportReporting.jsx:121-131 | the `forEach` loop yields exactly the numbered lines of the files that fit, or fails exactly when a file it must list is missing |
| ExportReportingPage.GeneratePdfReport | client/src/pages/ExportReporting.jsx:100-142 | the document is the fixed header, then the file list, saved as `analytics-report-<time>.pdf` with the success toast; a missing listed file gives no document and the failure toast |
| ExportReportingPage.ReportHeader | client/src/pages/ExportReporting.jsx:105-118 | five lines at x 20, all above the file list (y below 90) |
| ExportReportingPage.ReportLines | client/src/pages/ExportReporting.jsx:105-131 | five header lines, then the list heading and one line per listed file when there are files; the placement is in ReportFitsPage |
| ExportReportingPage.PdfReport | client/src/pages/ExportReporting.jsx:100-142 | no document exactly when a listed file is null or undefined, and a success toast exactly when a document is saved |
| ExportReportingPage.ReportFitsPage | client/src/pages/ExportReporting.jsx:105-130 | every line sits above the bottom margin and entries are numbered from 1, while the summary still counts every file |
| Js.ExtnameOfTail | backend/controllers/uploadController.js:15 | a name whose last characters hold one '.', opening them, and no '/' has those characters as its extension or none |
| Js.ExtnameOfLongTail | backend/controllers/uploadController.js:15 | it has them for certain when the character before them is neither '/' nor '.' |
| Js.ExtnameOfDottedTail | backend/controllers/exportReportingController.js:114 | a name ending in `.ext` after an ordinary character has extension `.ext`, as Node's `path.extname` gives it |
| Js.ParseIntDecimal | backend/controllers/uploadController.js:23 | a decimal digit string parses, as `parseInt` does, to the number it writes |
| Js.FilterConcat | backend/controllers/collaborationController.js:206 | a filter keeps the order of what survives |

## Left out

- **Library and platform calls.**
  - Multer, the spreadsheet parser and writer, MongoDB, bcrypt, JWT signing, `crypto.randomBytes`, the clock, `fs`, `fetch`, `localStorage`, `matchMedia`, Blob downloads, html2canvas and jsPDF rendering. Each becomes a parameter or its result.
  - Passwords are compared through the parameter `check`.
  - A token is the id and role it carries.
  - Parsed sheets are given as rows of values.
  - The disk is a map from stored name to parsed rows, and the stored files as a set of names.
- **Handlers not modelled, because they are placeholders or library or float arithmetic:**
  - `getFiles`, `getProfile` and `getAllUsers` (a lookup and a listing).
  - `exportChartAsImage` and `getExportHistory` (fixed replies).
  - `averageFileSize` and `averageChartsPerFile` (float division), `getMostActiveMonth` (locale month names) and `calculateUserEngagement` (day counts). In the model, the comprehensive analysis keeps only the chart-type histogram and the executive analysis only `totalDataProcessed`.
- **Express wiring.** The routes are not modelled. The export/report and collaboration routes are not mounted by the server (backend/server.js:64-65), and no route deletes an upload. A delete therefore reaches the server's catch-all, which answers 404 with the JSON body `{ success: false, message: 'Route … not found' }` (backend/server.js:77-82). `api.delete` turns that 404 into the fixed 'Resource not found.' (client/src/services/api.js:21-23), and `deleteFile` rejects with that text (client/src/redux/fileSlice.js:31-37). So the running app never reaches `deleteFile.fulfilled`, and it has no `deleteFile.rejected` case. The model keeps the delete reducer as written.
- **CollaborationController.GetSharedItems, CollaborationController.GetTeams:** these take the document's arrays; the 404 for a missing user document is not modelled.
- **CollaborationController.InviteToTeam:** the 403 'Only team owner can invite members' branch is unreachable in a consistent document. Every team is created with the caller as owner and only the owner reads their own document. The model proves that the branch never fires rather than returning 403. That proof assumes a team's stored `ownerId` reads back as the same string as `req.user.userId` under `!==`. The user schema is not part of this model; if it stored `ownerId` as an ObjectId, the check would refuse every invitation.
- **CollaborationController.ShareItem, CollaborationController.GenerateShareLink:** a missing user document makes the source throw and answer 500; that is what the model returns.
- **AuthController.IndexOfEmail, AuthController.RegisteredCanBeFound, AuthController.ProfileOf:** the User model is not part of this model, and these members rest on two assumptions about it. `User.findByEmail(email)` (backend/controllers/authController.js:71) is taken to look the address up lower-cased, as the schema stores it. `user.getProfile()` (backend/controllers/authController.js:50) is taken to return the account's id, username, email, role and active flag.
- **ExportReportingController.GenerateComprehensiveReport, ExportReportingController.ReportOf:** the clock-derived `generatedAt` of the report and the `timestamp` of the pdf reply are not modelled; the pdf file name keeps its time.
- **AuthController.UserTable.Register:**
  - Mongoose schema validation (role enum, length limits) is not modelled; any given role is stored.
  - The store's fresh id is a parameter the caller must keep unique.
- **AuthSlice.AuthRequest:**
  - A body that is not JSON is rejected with the engine's parse message, which is the parameter `parseError`.
  - Its contract says only that the failure value is non-empty when the fallback is.
  - The thunks' `credentials` and the POST itself are left to `Api`.
- **Js values and built-ins:**
  - Numbers are integers (no fractions, NaN or Infinity).
  - Case mapping is ASCII only.
  - Property reads on anything but an object give `undefined`, arrays and strings included (their `length` and indices are not modelled).
  - Objects have no prototype: a key is present only when it was written, and every key is an own property.
  - Js.Keys lists an object's keys in the order they were written. `Object.keys` lists integer-like keys first, in ascending order, and lists the indices of arrays and strings, where Js.Keys gives none. So the CSV header order of the export page is the written order only for records without integer-like keys.
  - Row records (`Rows.Row`) are maps, so their key order is not modelled.
- **ExportReportingController.Bump, ExportReportingController.CountCharts, ExportReportingController.Distribution, ExportReportingController.ChartTypeDistribution, ExportReportingController.DistributionTotal, ExportReportingController.DistributionCounts:** the counts are a plain map. In the source `chartTypes` is a `{}`, so a chart type named after an inherited member ("constructor", "toString", "valueOf", "hasOwnProperty" and the like) starts from that member instead of 0 and yields a text count, and "__proto__" is never stored. The model and these properties hold only for chart types that are not such names.
- **Rows.RowObject, Rows.ZipRow, Rows.RowObjectKeys:** a header "__proto__" never becomes an own property of the record in the source; the model stores it like any other name.
- **OnboardingTour:** the "Step n of 6" caption is display text and is not modelled.
- **Api.PostHeaders:** the JSON text of a non-form body (`JSON.stringify`) is not modelled; the body is kept as a value.
- **URLs.** The request URLs of `api.get`, `api.post` and `api.delete` are not modelled; only `BaseUrl` is recorded.
- **FileSlice.FileState.FetchFulfilled:** the payload is taken as a list. A reply without `files` makes the list `undefined` in the source, and that is not modelled.
- **UploadFilePage:**
  - The chart-type and axis selects of the upload page are not modelled; they set state as in `ChartViewer`.
  - The drag-and-drop `FileUpload` component and the dummy data are not modelled.
- **Toasts and timers.** Only the texts of the export page's toasts are kept.
- **Concurrency.** Interleaved requests on one document and React's batching of state updates are not modelled.

## Findings

| source | as written | input that shows it | evidently intended | confidence | as-written member | corrected member |
|---|---|---|---|---|---|---|
| backend/controllers/exportReportingController.js:58 | the CSV branch calls `XLSX.utils.json_to_csv`, which the spreadsheet library does not provide, so the call throws and the handler answers 500 'Failed to export data' for every format except 'excel' | `{ data: [{ "a": 1 }] }` (format defaults to 'csv') | write the rows as CSV and answer with the `.csv` file name and download URL | medium, not executed | ExportReportingController.DefaultCsvExportFails | ExportReportingController.ExportedFileDownloadsAsExported |
