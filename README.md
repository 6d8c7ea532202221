# SafeStay in Dafny

SafeStay is a student-accommodation safety site. Residents report incidents
(food, water, hygiene, security, infrastructure) against an accommodation. The
reports drive a risk score and a Safe / Risky / High Risk classification.
Other residents confirm reports with upvotes. Owners answer with counter
reports, and administrators moderate reports, counter reports and users.

This project models the rule-bearing core of that system and proves what
those rules promise:

- the client-side accommodation store: adding a report, rescoring and
  reclassifying, status updates and counter evidence;
- the read-side projections of the list, dashboard and admin panel pages;
- the optimistic upvote state machine;
- image upload validation, removal and gallery navigation;
- sign-up and login over a user store keyed by normalised e-mail, the owner
  guard and the route guard;
- the small form state machines of the password-reset, e-mail verification,
  profile, report, owner and admin pages.

Server replies, tokens, `confirm`/`prompt` answers, password hashing and token
signing, and the clock are passed in as parameters. Server replies are
datatypes with one constructor per way a reply can turn out, including a
thrown exception.

Layout:

- One module per source file: `AccommodationContext`, `App`,
  `AccommodationList`, `Dashboard`, `AdminPanel`, `UpvoteButton`,
  `ReportCard`, `ImageUpload`, `ImageGallery`, `AuthRoutes`,
  `OwnerMiddleware`, `OwnerDashboard`, `AdminDashboard`, `ReportIncident`,
  `ForgotPassword`, `VerifyEmail`, `Profile`.
- Shared rules:
  - `FormRules`: the code sanitiser, the password checks and the countdown.
  - `CounterReasons`: the counter-report reasons.
  - `Records`: the record types of `App.tsx`.
  - `Replies`: server answers and the JavaScript `||` default.
- JavaScript built-ins, with their semantics written out:
  - `Text`: `trim`, `toLowerCase`, `includes`, `split`/`join`, `replace`.
  - `Seqs`: `filter`, `slice`, and a stable descending `sort`.
  - `Wrappers`: `undefined` as `Option`.

Where the source keeps state and updates it step by step, the model is a
class whose methods change its fields:

- the accommodation store;
- the upvote button;
- the image uploader;
- the user store;
- the owner dashboard forms;
- the report form;
- the password-reset, verification and profile pages.

Each method states its whole new state. Pure derivations are functions, and
their properties are lemmas. Loops in the source are loops in the model, each
proved against a specification function:

- the risk-score `forEach`;
- the backend retry `while`;
- the file validation `for`.

## Model

| member | source | states |
|---|---|---|
| AccommodationContext.Weight | client/src/contexts/AccommodationContext.tsx:38-52 | every category adds between 10 and 25 points (Security 25, Infrastructure 20, Food and Water 15, Hygiene 10) |
| AccommodationContext.ScoreReports | client/src/contexts/AccommodationContext.tsx:36-53 | the accumulation loop yields the category-weighted sum `RiskScore` of all reports, which lies between 10 and 25 points per report |
| AccommodationContext.RiskScoreAppend | client/src/contexts/AccommodationContext.tsx:34-53 | the score of reports `a` followed by `b` is the score of `a` plus the score of `b` |
| AccommodationContext.RiskScoreSnoc | client/src/contexts/AccommodationContext.tsx:34-53 | appending one report adds exactly its category weight |
| AccommodationContext.RiskScoreBounds | client/src/contexts/AccommodationContext.tsx:36-53 | the score of `n` reports lies between `10n` and `25n` |
| AccommodationContext.RiskScoreByCategory | client/src/contexts/AccommodationContext.tsx:38-52 | the score depends only on the categories, report by report |
| AccommodationContext.Classify | client/src/contexts/AccommodationContext.tsx:55-60 | High Risk iff score >= 70, Risky iff 40 <= score < 70, Safe iff score < 40 |
| AccommodationContext.ClassifyMonotone | client/src/contexts/AccommodationContext.tsx:55-60 | a higher score never gives a safer classification |
| AccommodationContext.AddingReportNeverSafer | client/src/contexts/AccommodationContext.tsx:34-60 | adding a report raises the score by at least 10 and never makes the classification safer |
| AccommodationContext.NewReportIgnoresStatus | client/src/contexts/AccommodationContext.tsx:23-30 | the new report is `active` whatever status the caller's data carried |
| AccommodationContext.ApplyStatus | client/src/contexts/AccommodationContext.tsx:78-81 | same length; `under_review` sets every report's status; `resolved` leaves the reports as they were; nothing but the status changes |
| AccommodationContext.ApplyStatusKeepsScore | client/src/contexts/AccommodationContext.tsx:78-81 | a status update never changes the risk score of the reports |
| AccommodationContext.AccommodationStore.constructor | client/src/contexts/AccommodationContext.tsx:17 | the store starts with the initial accommodations |
| AccommodationContext.AccommodationStore.AddReport | client/src/contexts/AccommodationContext.tsx:19-73 | an unknown id changes nothing. Otherwise the list keeps its length and every other accommodation. The target gets the new report appended, with `riskScore` equal to the weight sum over all its reports and the matching classification |
| AccommodationContext.AccommodationStore.UpdateAccommodationStatus | client/src/contexts/AccommodationContext.tsx:75-90 | the list keeps its length; the target's reports become `ApplyStatus` of the old ones; every other accommodation and every other field is unchanged |
| AccommodationContext.AccommodationStore.AddCounterEvidence | client/src/contexts/AccommodationContext.tsx:92-103 | the list keeps its length; only the target's `counterEvidence` changes, so its reports, score and classification stay as they were |
| App.ProtectedRoute | client/src/App.tsx:139-158 | loading shows the loading view; no user goes to `/login`; the view is `Navigate("/")` iff a non-empty required role differs from the user's; children render iff not loading, a user is present and no role is required or the roles are equal |
| App.ProtectedRouteRoles | client/src/App.tsx:153-157 | without a required role every user passes; with one, exactly the users of that role pass |
| App.ConnectedStatus | client/src/App.tsx:182 | the reply's message when it is non-empty, `Connected` when it is absent or empty |
| App.CheckBackend | client/src/App.tsx:165-194 | it makes 1 to 3 attempts, and every attempt before the last failed. It stops at the first success before the third. The statuses shown are "Connecting to server...", then "Attempt k+1/3" after each early failure, then the reply's message or the refresh notice after the third failure |
| AccommodationList.FilteredSpec | client/src/pages/AccommodationList.tsx:12-18 | the result keeps the original order, and an accommodation is in it iff its lower-cased name or location contains the lower-cased term and the selection is `all` or its classification; each shown accommodation appears as many times as in the input |
| AccommodationList.FilteredShowsAll | client/src/pages/AccommodationList.tsx:13-16 | an empty term with `all` shows every accommodation, in order |
| AccommodationList.FilteredIdempotent | client/src/pages/AccommodationList.tsx:12-18 | filtering the filtered list again changes nothing |
| AccommodationList.ClassificationColor | client/src/pages/AccommodationList.tsx:20-31 | green, yellow and red for the three classifications, gray exactly for anything else |
| AccommodationList.ClassificationColorKnown | client/src/pages/AccommodationList.tsx:20-31 | every classification the model can hold gets a colour of its own, never gray |
| Dashboard.AllReports | client/src/pages/Dashboard.tsx:15 | a report is in the flattened list iff it belongs to some accommodation |
| Dashboard.RecentReportsSpec | client/src/pages/Dashboard.tsx:14-17 | at most 5 reports and exactly 5 when there are that many. They are drawn from all reports (as a multiset) and ordered newest first. No report left out is newer than the last one shown |
| Dashboard.SafetyAlertsSpec | client/src/pages/Dashboard.tsx:20-22 | exactly the accommodations not classified Safe, each as often as in the list, ordered by non-increasing risk score |
| Dashboard.DisplayedAlerts | client/src/pages/Dashboard.tsx:135 | exactly the first min(5, n) of the n alerts, in order |
| Dashboard.CountsBounded | client/src/pages/Dashboard.tsx:25-27 | high-risk count plus risky count never exceeds the number of accommodations |
| AdminPanel.TagReports | client/src/pages/AdminPanel.tsx:11 | each report of an accommodation is kept unchanged and tagged with that accommodation's name, in order |
| AdminPanel.AllReportsCount | client/src/pages/AdminPanel.tsx:10-12 | the flattened list has as many entries as all accommodations have reports together |
| AdminPanel.AllReportsAppend | client/src/pages/AdminPanel.tsx:10-12 | flattening keeps accommodation order: the list of `a + b` is the list of `a` followed by the list of `b` |
| AdminPanel.AllReportsSingle | client/src/pages/AdminPanel.tsx:10-12 | for one accommodation the flattened list is its reports in their order, tagged with its name |
| AdminPanel.AllReportsUntagged | client/src/pages/AdminPanel.tsx:10-12 | stripping the names gives exactly the dashboard's flattened report list |
| AdminPanel.AllReportsOrigin | client/src/pages/AdminPanel.tsx:10-12 | every flattened entry comes from an accommodation that holds the report and whose name it carries |
| AdminPanel.HighRiskSpec | client/src/pages/AdminPanel.tsx:15 | exactly the High Risk accommodations, in their order, each as many times as in the input |
| AdminPanel.ReportsUnderReviewSpec | client/src/pages/AdminPanel.tsx:18 | exactly the flattened reports with status `under_review`, in their order, each as many times as in the flattened list |
| AdminPanel.ListedReports | client/src/pages/AdminPanel.tsx:147 | exactly the first min(10, n) of the n flattened reports, in order |
| UpvoteButton.Optimistic | client/src/components/UpvoteButton.tsx:31-32 | the optimistic step flips `hasUpvoted` and moves the count by one in the matching direction |
| UpvoteButton.OptimisticInvolution | client/src/components/UpvoteButton.tsx:31-32 | two optimistic steps give back the original counts |
| UpvoteButton.UpvoteState.constructor | client/src/components/UpvoteButton.tsx:10-19 | the button starts with the given counts and not loading |
| UpvoteButton.UpvoteState.Click | client/src/components/UpvoteButton.tsx:21-32 | a request starts iff the report is not the user's own, none is in flight and a token is present. Otherwise nothing changes. A started request saves the previous counts, sets loading and shows the optimistic counts |
| UpvoteButton.UpvoteState.Settle | client/src/components/UpvoteButton.tsx:46-60 | a success shows exactly the server's counts; a refusal or an exception restores exactly the saved counts; loading ends on every path |
| UpvoteButton.ClickAndSettle | client/src/components/UpvoteButton.tsx:21-60 | a whole click: the counts are unchanged when no request is made, and otherwise are the server's counts or the original ones; loading is off afterwards |
| UpvoteButton.ConfirmationLabel | client/src/components/UpvoteButton.tsx:67 | the singular label iff the count is 1 |
| ReportCard.IssueBadgeClass | client/src/components/ReportCard.tsx:31-40 | danger for Food Safety and Security, warning for Water Quality and Infrastructure, info for Hygiene, `badge-default` exactly for anything else |
| ReportCard.StatusBadgeClass | client/src/components/ReportCard.tsx:42-49 | yellow, green and red for pending, approved and rejected, gray exactly for anything else |
| ReportCard.DisplayStatus | client/src/components/ReportCard.tsx:56-57 | a missing or empty status shows as `pending`, any other is shown as it is |
| ReportCard.MissingStatusIsPending | client/src/components/ReportCard.tsx:56 | a report without a status gets the pending badge |
| ReportCard.UpvotePropsFor | client/src/components/ReportCard.tsx:86-93 | the upvote control appears iff a user id is given. A missing count is 0. "Already upvoted" holds iff the id is in the upvoter list, and a missing list counts as empty. "Own report" holds iff the report's user is the given id |
| ImageUpload.Rejection | client/src/components/ImageUpload.tsx:54-65 | a file is accepted iff its type is jpeg/png/gif/webp and its size is at most 5 MiB; the type error iff the type is not allowed, the size error iff an allowed type is over 5 MiB |
| ImageUpload.SizeLimitInclusive | client/src/components/ImageUpload.tsx:55-62 | exactly 5 MiB is accepted, one byte more is rejected as too large |
| ImageUpload.LastRejection | client/src/components/ImageUpload.tsx:57-67 | an error is left iff some file was refused, and it is one of the two validation messages |
| ImageUpload.ValidateFiles | client/src/components/ImageUpload.tsx:57-67 | the loop keeps exactly the acceptable files in order, and leaves the error of the last refused file |
| ImageUpload.UploadError | client/src/components/ImageUpload.tsx:96-115 | an upload reply leaves no error iff it is OK and carries an image array |
| ImageUpload.WithoutSpec | client/src/components/ImageUpload.tsx:138 | removal keeps, in order, exactly the images whose `publicId` differs, each as many times as before |
| ImageUpload.Uploader.constructor | client/src/components/ImageUpload.tsx:15-23 | the uploader starts with the images handed in, no error, not uploading |
| ImageUpload.Uploader.HandleFiles | client/src/components/ImageUpload.tsx:51-122 | with no valid file the images stay and only a validation error may be set. Going over 5 images sets the cap error and sends nothing. Otherwise the valid files are sent. On success the list is the old images followed by the returned ones, in order. On failure the list stays and the error is set. Uploading is off once a sent request settles |
| ImageUpload.Uploader.RemoveImage | client/src/components/ImageUpload.tsx:124-145 | a successful delete drops exactly the images with that `publicId`; a failed one keeps the list and sets the delete error |
| ImageGallery.View | client/src/components/ImageGallery.tsx:14-34 | the placeholder iff the images are absent or empty, otherwise a grid of all of them |
| ImageGallery.NavigationInRange | client/src/components/ImageGallery.tsx:75-88 | from a valid index both buttons stay in `[0, len)`: Prev is `(i-1) mod len`, Next is `(i+1) mod len` |
| ImageGallery.NavigationInverse | client/src/components/ImageGallery.tsx:75-88 | Next undoes Prev and Prev undoes Next |
| ImageGallery.NextCycle | client/src/components/ImageGallery.tsx:86-88 | `k` presses of Next from `i` reach `i+k` wrapped once, and `len` presses come back to `i` |
| AuthRoutes.NormalizeIsNormal | server/routes/auth.js:26 | a normalised e-mail is lower-case and trimmed |
| AuthRoutes.WhitespaceLedLoginMisses | server/routes/auth.js:87 | login does not trim, so an e-mail typed with leading white space never finds a stored user |
| AuthRoutes.StoredEmailFound | server/routes/auth.js:87 | every stored key is found again by login's lower-casing |
| AuthRoutes.LoginKeyMatchesSignup | server/routes/auth.js:26-87 | for an e-mail without surrounding white space, login looks up the same key sign-up stored |
| AuthRoutes.UserStore.constructor | server/routes/auth.js:29-50 | the store starts empty and well keyed |
| AuthRoutes.UserStore.Signup | server/routes/auth.js:12-56 | a missing field gives 400 and stores nothing. A normalised e-mail already present gives 400 and stores nothing. Otherwise exactly one user is added under the normalised e-mail, with the hash (never the plain password), the role or `student`, and 201. The keying invariant is preserved |
| AuthRoutes.UserStore.Login | server/routes/auth.js:77-124 | a missing field gives 400; unknown e-mail and wrong password give the same 400 "Invalid credentials"; success returns the token and the user's public fields, looked up by the lower-cased e-mail |
| OwnerMiddleware.OwnerGate | server/middleware/ownerMiddleware.js:1-17 | 401 iff there is no user, 403 iff the user is not an owner, next iff the user is an owner |
| OwnerMiddleware.OwnerGateOutcomes | server/middleware/ownerMiddleware.js:2-16 | exactly one outcome happens, and a refusal is 401 or 403 |
| OwnerDashboard.ParseAmenitiesClean | client/src/pages/OwnerDashboard.tsx:165 | parsed amenities are non-empty, trimmed and comma-free, and there is at most one more of them than there are commas |
| OwnerDashboard.ParseAmenitiesJoin | client/src/pages/OwnerDashboard.tsx:165 | clean names joined by commas parse back into exactly those names |
| OwnerDashboard.CounterBadge | client/src/pages/OwnerDashboard.tsx:404-408 | the badge is shown iff the report is countered, with the counter's status |
| OwnerDashboard.CounterOfferExcludesBadge | client/src/pages/OwnerDashboard.tsx:404-419 | a report offered for countering has no counter badge, and a rejected report is never offered |
| OwnerDashboard.RiskStyle | client/src/pages/OwnerDashboard.tsx:350 | `high-risk` iff the score is above 50, `low-risk` otherwise |
| OwnerDashboard.OwnerForms.constructor | client/src/pages/OwnerDashboard.tsx:61-80 | both forms start blank, the counter reason on `false_information`, no modal open |
| OwnerDashboard.OwnerForms.OpenCounter | client/src/pages/OwnerDashboard.tsx:416-418 | only an eligible report can be selected; it opens the counter modal and changes nothing else |
| OwnerDashboard.OwnerForms.HandleAddAccommodation | client/src/pages/OwnerDashboard.tsx:154-183 | the form is sent with its amenities parsed. Success alerts, closes the modal, resets the form to blanks and asks for a refresh. Failure keeps the form and alerts the server's message or the error text |
| OwnerDashboard.OwnerForms.HandleSubmitCounter | client/src/pages/OwnerDashboard.tsx:225-254 | with no selected report nothing happens. Otherwise the report id is sent with the form. Success closes the modal, clears the selection, resets the reason to `false_information` and asks for a refresh. Failure keeps the form and alerts |
| CounterReasons.ReasonText | client/src/pages/OwnerDashboard.tsx:448 | the displayed reason has the code's length, every underscore becomes a space, and every other character stays |
| CounterReasons.ReasonTextReadable | client/src/pages/AdminDashboard.tsx:425 | the displayed reason maps back to its code, so no two reasons display alike |
| AdminDashboard.InitialTab | client/src/pages/AdminDashboard.tsx:38-39 | the `tab` parameter when given and non-empty, `overview` otherwise |
| AdminDashboard.ReportControls | client/src/pages/AdminDashboard.tsx:341-352 | Delete always; Approve and Reject iff the report is pending |
| AdminDashboard.CounterReportControls | client/src/pages/AdminDashboard.tsx:439-457 | Accept/Reject iff the counter report is pending, "Reviewed" otherwise |
| AdminDashboard.BanWord | client/src/pages/AdminDashboard.tsx:167 | `unban` iff the user is currently banned |
| AdminDashboard.AdminNotes | client/src/pages/AdminDashboard.tsx:202 | a cancelled prompt sends an empty note, any answer is sent as typed |
| AdminDashboard.RequestFor | client/src/pages/AdminDashboard.tsx:122-216 | the ban toggle asks for the opposite of the current state; a counter review sends the decision and the note |
| AdminDashboard.RefreshAfter | client/src/pages/AdminDashboard.tsx:122-216 | every success reloads the stats; reports are reloaded iff the action is not a ban toggle, users iff it is, counter reports iff it is a review |
| AdminDashboard.Handle | client/src/pages/AdminDashboard.tsx:122-216 | nothing is sent iff a needed confirmation is refused. A sent request always raises an alert. Lists are reloaded iff the request succeeded, and then exactly the action's `RefreshAfter` set with its success alert. A refusal alerts the server's message (`undefined` when absent). An exception raises the action's error text |
| AdminDashboard.BanToggleInverse | client/src/pages/AdminDashboard.tsx:166-190 | toggling twice asks for the original state again, and the two confirmations use different words |
| AdminDashboard.Preview | client/src/pages/AdminDashboard.tsx:429 | an absent description has no preview. Otherwise the preview is the description's first 50 characters, or the whole of a shorter one |
| ReportIncident.CategoryMap | client/src/pages/ReportIncident.tsx:75-81 | every category maps into the five issue types the report card knows |
| ReportIncident.CategoryMapSpec | client/src/pages/ReportIncident.tsx:75-81 | the map is one-to-one, never falls to the default badge, and Security maps to the form's default issue type |
| ReportIncident.CounterColor | client/src/pages/ReportIncident.tsx:171-177 | red iff the length is over 2000, yellow iff it is in (1800, 2000], gray iff it is at most 1800 |
| ReportIncident.FormComplete | client/src/pages/ReportIncident.tsx:33 | the guard passes iff a name is typed (white space counts) and the description is not blank |
| ReportIncident.ReportForm.constructor | client/src/pages/ReportIncident.tsx:15-23 | an empty form on the default issue type `Security`, no images, not submitting |
| ReportIncident.ReportForm.SelectCategory | client/src/pages/ReportIncident.tsx:137 | choosing a category sets the issue type to its mapped value and nothing else |
| ReportIncident.ReportForm.HandleSubmit | client/src/pages/ReportIncident.tsx:30-73 | an incomplete form alerts and sends nothing. A missing token alerts and goes to the login page. Otherwise the form and images are sent. Success clears the images and marks the form done. Failure alerts the server's message or the error text. Submitting ends on every path |
| FormRules.SanitizeOtp | client/src/pages/ForgotPassword.tsx:177 | the code is exactly the first min(6, n) of the n digits typed, in order |
| FormRules.SanitizeOtpIdempotent | client/src/pages/VerifyEmail.tsx:115 | sanitising a sanitised code changes nothing |
| FormRules.SanitizeOtpKeepsCode | client/src/pages/VerifyEmail.tsx:115 | a code of at most six digits passes through whole |
| FormRules.CodeSubmitEnabled | client/src/pages/VerifyEmail.tsx:135 | the button is enabled iff not loading and the code has six characters |
| FormRules.SanitizedCodeEnables | client/src/pages/ForgotPassword.tsx:218 | a sanitised code enables the button iff at least six digits were typed |
| FormRules.CheckPasswords | client/src/pages/ForgotPassword.tsx:59-67 | a mismatch iff the passwords differ; too short iff they agree and have fewer than 6 characters; acceptable otherwise |
| FormRules.AfterTicksValue | client/src/pages/ForgotPassword.tsx:18-23 | after `t` ticks the countdown is down by `t` but never below 0 |
| FormRules.ResendBlockedFor60 | client/src/pages/VerifyEmail.tsx:18-23 | a countdown started at 60 reaches 0 exactly after 60 ticks |
| ForgotPassword.ForgotPasswordPage.constructor | client/src/pages/ForgotPassword.tsx:8-16 | the page starts on the e-mail step with empty fields and no countdown |
| ForgotPassword.ForgotPasswordPage.TypeOtp | client/src/pages/ForgotPassword.tsx:176-179 | the code field holds the sanitised input |
| ForgotPassword.ForgotPasswordPage.Tick | client/src/pages/ForgotPassword.tsx:18-23 | one tick lowers a running countdown by 1 and changes nothing else |
| ForgotPassword.ForgotPasswordPage.ResetEnabled | client/src/pages/ForgotPassword.tsx:218 | Reset is enabled iff not loading and six characters are typed |
| ForgotPassword.ForgotPasswordPage.HandleSendOtp | client/src/pages/ForgotPassword.tsx:25-52 | the trimmed e-mail is sent. Success moves to the code step and starts the countdown at 60. A failure shows the error and keeps the step. Loading ends on every path |
| ForgotPassword.ForgotPasswordPage.HandleResetPassword | client/src/pages/ForgotPassword.tsx:54-96 | different passwords, then too-short ones, are refused with their message before any request, mismatch first. Otherwise the trimmed e-mail and code go with the new password. Success moves to the final step and a failure keeps the step |
| ForgotPassword.ForgotPasswordPage.ShowResetReply | client/src/pages/ForgotPassword.tsx:84-95 | success shows the server's message on the final step; a failure shows the error; loading ends |
| ForgotPassword.ForgotPasswordPage.HandleResendOtp | client/src/pages/ForgotPassword.tsx:98-121 | nothing happens while the countdown runs; otherwise the trimmed e-mail is sent and success restarts the countdown at 60 |
| VerifyEmail.VerifyEmailPage.constructor | client/src/pages/VerifyEmail.tsx:8-16 | the e-mail field starts with the address handed over, or empty |
| VerifyEmail.VerifyEmailPage.TypeOtp | client/src/pages/VerifyEmail.tsx:114-117 | the code field holds the sanitised input |
| VerifyEmail.VerifyEmailPage.Tick | client/src/pages/VerifyEmail.tsx:18-23 | one tick lowers a running countdown by 1 and changes nothing else |
| VerifyEmail.VerifyEmailPage.VerifyEnabled | client/src/pages/VerifyEmail.tsx:135 | Verify is enabled iff not loading and six characters are typed |
| VerifyEmail.VerifyEmailPage.HandleVerify | client/src/pages/VerifyEmail.tsx:25-51 | the trimmed e-mail and code are sent; success shows the server's message, a failure its error; loading ends |
| VerifyEmail.VerifyEmailPage.HandleResend | client/src/pages/VerifyEmail.tsx:53-79 | nothing happens iff the countdown runs or the e-mail is blank. Otherwise the trimmed e-mail is sent and success restarts the countdown at 60. Resend-loading ends |
| Profile.SameNameNotSent | client/src/pages/Profile.tsx:68-71 | re-submitting the current name, padded with any white space, sends nothing |
| Profile.RoleBadge | client/src/pages/Profile.tsx:149-156 | blue, purple and red for student, owner and admin, gray exactly for anything else |
| Profile.ProfilePage.constructor | client/src/pages/Profile.tsx:15-28 | no profile yet, loading, every field empty |
| Profile.ProfilePage.FetchProfile | client/src/pages/Profile.tsx:37-65 | without a token nothing is fetched. A loaded profile also fills the name field. A refusal shows the message or the default error, and an exception the connection error |
| Profile.ProfilePage.HandleNameUpdate | client/src/pages/Profile.tsx:67-99 | a blank or unchanged trimmed name closes the editor and sends nothing. Otherwise the trimmed name is sent. Success stores the returned name in a loaded profile, with no other profile field changing, and closes the editor. A failure alerts and keeps the profile |
| Profile.ProfilePage.HandlePasswordChange | client/src/pages/Profile.tsx:101-147 | different passwords, then a short one, are refused with their message before any request, mismatch first. Otherwise current and new passwords are sent. Success clears the three fields and a failure keeps them |
| Text.Trim | server/routes/auth.js:26 | `trim` gives a string that neither starts nor ends with white space, and is no longer than the input |
| Text.TrimBlank | client/src/pages/ReportIncident.tsx:33 | trimming gives the empty string exactly for a blank string |
| Text.TrimPadded | client/src/pages/Profile.tsx:68 | white space around a trimmed string is exactly what `trim` removes |
| Text.NormalizeIdempotent | server/routes/auth.js:26 | normalising an e-mail twice is the same as once |
| Text.SplitJoin | client/src/pages/OwnerDashboard.tsx:165 | splitting the comma-join of comma-free pieces gives the pieces back |
| Text.JoinSplit | client/src/pages/OwnerDashboard.tsx:165 | joining the pieces of a split gives the string back |
| Text.DigitsOnlyFilter | client/src/pages/ForgotPassword.tsx:177 | `replace(/\D/g, '')` keeps exactly the digits, each as often as it occurs and in order (it is `filter` by digit) |
| Text.Split | client/src/pages/OwnerDashboard.tsx:165 | one piece more than there are separators, and no piece holds a separator |
| Seqs.FilterCount | client/src/pages/AdminPanel.tsx:15 | `filter` keeps each passing element exactly as many times as it occurs and drops every other |
| Seqs.FilterMembership | client/src/pages/AdminPanel.tsx:15 | an element survives `filter` iff it is in the list and passes the predicate |
| Seqs.SortDescSorted | client/src/pages/Dashboard.tsx:16 | the descending sort orders by non-increasing key |
| Seqs.SortDesc | client/src/pages/Dashboard.tsx:22 | the sort is a permutation of its input |
| Replies.OrElse | client/src/pages/ReportIncident.tsx:66 | `message || fallback` is the message when non-empty and the fallback otherwise |

## Left out

- `fetch`, `localStorage`, `alert`, `prompt`, `confirm`, navigation,
  `setTimeout` and the rendered markup are not performed. Their results are
  parameters: reply datatypes, an optional token, a boolean confirmation, an
  optional note. Alerts and requests are returned as values, and a tick is
  one call of `Tick`.
- Asynchronous interleaving is left out. Each handler runs to completion as
  one method call. The upvote button alone is split into `Click` and
  `Settle`, because its optimistic state is visible between the two.
- React batches state updates. `ImageUpload.ValidateFiles` therefore returns
  only the last validation error, which is the one left showing.
- The `Date.now()` and `new Date().toISOString()` timestamps are a
  natural-number parameter. A report's id is `"r"` followed by its decimal
  digits, and its timestamp is that number. Date parsing, invalid dates and
  the locale date formatting of the pages are not modelled.
- The session plumbing of `AuthContext.tsx` is not part of this model.
  - `App.ProtectedRoute` takes the session's `user` and `loading` values as
    inputs.
  - `App.CheckBackend` takes the outcome of each probe as a function of the
    attempt number. The 30-second abort and the 5-second wait are left out.
- bcrypt's hash and compare and jwt's signing are parameters of `Signup` and
  `Login`.
  - The jwt signing error and the generic 500 replies are not modelled.
  - Neither is the duplicate-key (11000) race between the lookup and the
    insert: there is a single store and no concurrency.
- `AuthRoutes.UserStore.Login` is modelled as written: it lower-cases the
  e-mail without trimming, unlike sign-up. The User schema (a Mongoose model
  that may trim on its own) is not part of this model, so the difference is
  proved as `AuthRoutes.WhitespaceLedLoginMisses` rather than reported as a
  defect.
- `toLowerCase` is modelled on ASCII letters only, and strings are sequences
  of code points. `substring(0, 50)` in `AdminDashboard.Preview` counts code
  points, not UTF-16 units.
- The lookup tables of `ReportCard.IssueBadgeClass`,
  `ReportCard.StatusBadgeClass` and `Profile.RoleBadge` are object literals,
  which JavaScript also searches for inherited keys such as `constructor`.
  The model treats them as plain tables with a default.
- `ImageUpload.Uploader.HandleFiles` is modelled only up to the upload
  request.
  - The props-to-state sync effect of `ImageUpload.tsx` and the `onImagesChange`
    callback are not modelled; the uploader's `images` field is the list the
    callback would receive.
  - The reset of the file input is not modelled either.
- `AdminDashboard.Handle` describes the fetched lists a successful action
  reloads as the set of resources to refresh. The lists themselves (`reports`,
  `users`, `stats`, counter reports) are server data and are not held in the
  model.
- Setting an error to an absent `data.message` (`setError(undefined)`) is
  modelled as showing nothing, like the empty string (`Replies.ShownText`).
  `alert(undefined)` shows `undefined` (`Replies.AlertText`).
- The owner dashboard's occupancy and delete handlers, and the bar-width
  percentage of the admin dashboard, are left out. They call server handlers
  that are not part of this model, or compute floating-point widths.
- Not part of this model:
  - the server's report, upvote, counter-report and occupancy handlers, and
    its Mongoose schemas (only their reason enumeration is used);
  - the e-mail service and its random code generator;
  - `server.js`;
  - the presentation-only pages and components.
- The risk score equals the weight sum only for the accommodation that
  `AddReport` has just touched. The seed data in `App.tsx` does not satisfy it,
  so it is not stated as an invariant of the store.
