# Relish payment-approval core in Dafny

This project models the logic of the Relish Foods payment-voucher approval web application.
Requesters raise payment vouchers. Approvers approve or reject them. Admins manage users. The
model covers:

- the in-memory one-time-password store (`OtpService`): six-digit codes, a five-minute
  validity window, lazy expiry, single use, and the send routine that stores a code and
  raises a toast;
- the SMS text and the phone-number normalisation towards `+91…` (`Twilio`);
- start-up validation of the backend URL and key (`SupabaseConfig`), with a simplified
  hostname extraction in the style of the WHATWG URL Standard, section 4.4 (`UrlHost`), and
  JavaScript's `String.prototype.trim` (`Text`);
- the toast list: append under a fresh id, filter out by id, and the auto-dismiss delay with
  its defaults (`Notifications`);
- the voucher table and the dashboard's statements over it (`Vouchers`): the list query for
  one status tab (filter, newest first, join, row-to-voucher transform), and approve,
  reject and insert;
- which controls the voucher list shows per role and status, and the status icon
  (`PaymentList`);
- the login screen (`App`): the role gate after sign-in, the error-message mapping, logout
  and which screen is rendered;
- the new-payment form's submit guard and reset (`NewPaymentForm`), and the add-user form's
  submit, notices and cancel (`AddUserForm`).

The clock, the random draws, the signed-in user and every backend answer are parameters.
State is immutable: the OTP store and the voucher table are maps. Every handler is a
function from the old state to the new one. Timestamps are integers (milliseconds); amounts
are integers.

## Model

| member | source | states |
|---|---|---|
| Text.DecimalRoundTrip | src/lib/otpService.ts:5 | the decimal text produced for a number reads back as that number |
| Text.NatToDecimal | src/lib/otpService.ts:5 | `toString()` of a natural is a non-empty string of decimal digits (its value and length are fixed by the lemmas below) |
| Text.DecimalLength | src/lib/otpService.ts:5 | a number in [10^(k-1), 10^k) prints with exactly k digits |
| Text.DecimalNoLeadingZero | src/lib/otpService.ts:5 | the decimal text of a positive number does not start with '0' |
| Text.TrimSpec | src/lib/supabase.ts:5-6 | `trim()` keeps one contiguous block of the input, and everything outside the block is ECMAScript whitespace |
| Text.Trim | src/lib/supabase.ts:5-6 | a trimmed value is no longer than the input and is empty or neither starts nor ends with ECMAScript whitespace |
| Text.TrimIdempotent | src/lib/supabase.ts:5-6 | trimming twice gives the same result as trimming once |
| Text.TrimNoop | src/lib/supabase.ts:5-6 | a value without whitespace at either end is its own trim |
| OtpService.GenerateOTP | src/lib/otpService.ts:4-6 | every code is six decimal digits without a leading zero, and its value is 100000 plus the random draw |
| OtpService.StoreOTP | src/lib/otpService.ts:8-13 | storing replaces the identifier's entry with the code and the current time; other entries are unchanged |
| OtpService.VerifyOTP | src/lib/otpService.ts:15-34 | success iff an entry exists, is at most five minutes old and matches; a stale entry is purged even when the code is right; a wrong code keeps the entry; a success consumes it; no other entry changes |
| OtpService.SendOTP | src/lib/otpService.ts:49-71 | the code is stored before the callback runs; the toast is an OTP toast with a 30 s duration carrying exactly the stored code; success iff the callback returned; an Error's message, or "Failed to send OTP", is reported otherwise |
| OtpService.WellFormedPreserved | src/lib/otpService.ts:4-34 | sending and verifying keep every stored code a six-digit code |
| OtpService.SendThenVerify | src/lib/otpService.ts:21-31 | the issued code verifies anywhere in the window, including at exactly five minutes, and is removed by that check |
| OtpService.SendThenVerifyTooLate | src/lib/otpService.ts:21-26 | one millisecond after the window even the issued code fails, and the entry is purged |
| OtpService.SingleUse | src/lib/otpService.ts:28-31 | after a successful check, every later check for that identifier fails |
| OtpService.WrongCodeThenRetry | src/lib/otpService.ts:28-33 | a wrong code inside the window leaves the store unchanged, so the right code still works later in the window |
| OtpService.ExpiredStaysGone | src/lib/otpService.ts:23-26 | an expired entry fails and is purged, so no later attempt succeeds |
| OtpService.SecondSendWins | src/lib/otpService.ts:8-13 | after two sends, only the second code verifies (within its window) |
| OtpService.DistinctDrawsDistinctCodes | src/lib/otpService.ts:4-6 | different draws give different codes |
| OtpService.OtherIdentifiersUntouched | src/lib/otpService.ts:8-34 | sending or verifying for one identifier never adds, removes or alters another identifier's entry |
| OtpService.OtpNoticeDelay | src/lib/otpService.ts:56-61 | the OTP toast is dismissed after 30 seconds |
| Twilio.SmsBody | src/services/twilioService.ts:26-29 | the SMS starts with the fixed greeting, ends with the validity note, and carries the code between them |
| Twilio.SmsCode | src/services/twilioService.ts:27 | any code read back from a message is one whose SMS is that message |
| Twilio.SmsRoundTrip | src/services/twilioService.ts:27 | the code is always recovered from the SMS that carries it |
| Twilio.Digits | src/services/twilioService.ts:34 | removing non-digits leaves only digits and never lengthens the text |
| Twilio.DigitsAppend | src/services/twilioService.ts:34 | digit removal works character by character and keeps order |
| Twilio.DigitsFixedPoint | src/services/twilioService.ts:34 | a text is unchanged by digit removal iff it is all digits |
| Twilio.DigitsSkipsNonDigit | src/services/twilioService.ts:34 | a non-digit character contributes nothing |
| Twilio.DigitsNoneFound | src/services/twilioService.ts:34 | a text without digits yields the empty string |
| Twilio.FormatPhoneNumber | src/services/twilioService.ts:32-42 | the result is '+' then digits; those digits always start with 91; they are the input's digits exactly when those already start with 91, and "91" plus them otherwise |
| Twilio.FormatIdempotent | src/services/twilioService.ts:32-42 | formatting a formatted number changes nothing |
| Twilio.FormatDigits | src/services/twilioService.ts:32-42 | the result is "+91" plus the input's digits, or '+' plus them when they already start with 91 |
| Twilio.FormatNoDigits | src/services/twilioService.ts:34-38 | an input without digits becomes "+91" |
| Twilio.LeadingNinetyOneKept | src/services/twilioService.ts:36-41 | any digit string starting with 91 is kept as is behind '+' |
| Twilio.NationalNumberLosesCode | src/services/twilioService.ts:36-38 | a ten-digit national number starting with 91 does not get the country code |
| Twilio.FormatPhoneNumberNational | src/services/twilioService.ts:32-42 | the corrected rule still gives '+' then digits: the input's digits, or "91" plus them |
| Twilio.NationalNumbersGetCode | src/services/twilioService.ts:36-38 | under the corrected rule every ten-digit number gets +91, and a twelve-digit number starting with 91 is kept |
| UrlHost.HostOf | src/lib/supabase.ts:25 | an extracted host is non-empty and has no forbidden domain code point |
| UrlHost.Hostname | src/lib/supabase.ts:25-26 | the URL constructor succeeds only for an http or https URL with a host after the slashes; that host is non-empty and free of forbidden code points |
| UrlHost.HostnameNeedsHost | src/lib/supabase.ts:25-30 | a URL that parses has at least one character after "scheme://" |
| UrlHost.HostOfPlain | src/lib/supabase.ts:25-26 | a plain lower-case domain before '/', '?', '#' or the end is its own host |
| UrlHost.PlainHostname | src/lib/supabase.ts:25-26 | under either scheme, with any number of slashes, a plain domain is the URL's hostname |
| SupabaseConfig.WithScheme | src/lib/supabase.ts:18-21 | the result always has an http or https prefix; it is the input when that already has one, and "https://" plus the input otherwise |
| SupabaseConfig.StripTrailingSlash | src/lib/supabase.ts:29-30 | exactly one final '/' is removed when there is one; anything else is unchanged |
| SupabaseConfig.Initialise | src/lib/supabase.ts:5-41 | missing credentials iff either trimmed value is empty or unset, with which one was present; an invalid URL iff both are present and the hostname of the prefixed URL fails or lacks "supabase.co"; on success the key is the trimmed key and the URL is the prefixed URL with its trailing '/' removed, which keeps its scheme and passes the host test |
| SupabaseConfig.StrippedKeepsScheme | src/lib/supabase.ts:18-30 | removing the final '/' of an accepted URL never damages its scheme prefix |
| SupabaseConfig.ErrorMessage | src/lib/supabase.ts:9-41 | the missing-credentials message is its header, then the URL line with its check or cross mark, then the key line with its mark; the invalid-URL message is header, raw URL, hint, with the raw URL recoverable from it |
| SupabaseConfig.MissingMessageShowsPresence | src/lib/supabase.ts:10-14 | two missing-credentials messages are equal iff they report the same presence for both variables |
| SupabaseConfig.PlainDomainGetsHttps | src/lib/supabase.ts:19-20 | a bare domain is given "https://" |
| SupabaseConfig.HttpsPlainHostname | src/lib/supabase.ts:25-26 | under "https://" a plain domain is its own hostname |
| SupabaseConfig.PlainDomainAccepted | src/lib/supabase.ts:24-28 | a plain domain containing "supabase.co" passes the host test |
| SupabaseConfig.PlainDomainUnstripped | src/lib/supabase.ts:30 | such a URL has no final '/' to remove |
| SupabaseConfig.BareDomainAccepted | src/lib/supabase.ts:5-41 | a bare project domain with a usable key initialises to "https://" plus that domain |
| SupabaseConfig.SubstringNotSuffix | src/lib/supabase.ts:26 | the host test is a substring test: "supabase.co.example.net" is accepted |
| SupabaseConfig.BlankIsMissing | src/lib/supabase.ts:9-15 | an unset or blank URL is reported missing, with the key's presence recorded |
| Notifications.DismissDelay | src/context/NotificationContext.tsx:32 | a non-zero duration is used as given; an absent or zero duration falls back to 30 s for OTP toasts and 5 s for the rest |
| Notifications.AddNotification | src/context/NotificationContext.tsx:30-39 | the entry is appended after the existing ones, which keep their order; it carries the caller's message, kind, code and duration as given, under the new id; its removal is scheduled after the dismiss delay |
| Notifications.RemoveNotification | src/context/NotificationContext.tsx:26-28 | the survivors are exactly the entries whose id differs, and the list never grows |
| Notifications.FireTimer | src/context/NotificationContext.tsx:36-38 | when the timer fires, exactly the entries with the timer's id disappear |
| Notifications.RemoveAppend | src/context/NotificationContext.tsx:27 | removal filters entry by entry and keeps order across a concatenation |
| Notifications.RemoveAbsent | src/context/NotificationContext.tsx:27 | removing an id no entry has changes nothing |
| Notifications.RemoveIdempotent | src/context/NotificationContext.tsx:26-28 | removing the same id twice is the same as once |
| Notifications.AddThenRemove | src/context/NotificationContext.tsx:30-39 | with a fresh id, adding and letting the timer fire restores the previous list |
| Notifications.AddRemoveCommute | src/context/NotificationContext.tsx:26-39 | adding under one id and removing another commute |
| Schema.RoleName | src/types/index.ts:1 | every role has a non-empty lower-case name |
| Schema.RoleNameInjective | src/types/index.ts:1 | distinct roles have distinct names |
| Vouchers.ToVoucher | src/components/Dashboard.tsx:103-118 | every column the screen shows comes from the row unchanged, except the account head and requester, which are the joined names or '' |
| Vouchers.Transform | src/components/Dashboard.tsx:103-120 | no data gives an empty list; otherwise one voucher per row, in order |
| Vouchers.ApplyFetch | src/components/Dashboard.tsx:101-122 | a failed query leaves the shown list; a successful one replaces it with the transformed data |
| Vouchers.Join | src/components/Dashboard.tsx:89-97 | the joined names are present iff the referenced account head or profile exists, and are theirs |
| Vouchers.WithStatus | src/components/Dashboard.tsx:98 | the result holds exactly the rows with the tab's status, each as many times as in the input |
| Vouchers.InsertNewestFirst | src/components/Dashboard.tsx:99 | insertion adds exactly the one row and keeps all others |
| Vouchers.InsertKeepsOrder | src/components/Dashboard.tsx:99 | inserting into a newest-first list keeps it newest first |
| Vouchers.SortNewestFirst | src/components/Dashboard.tsx:99 | the sorted list is a permutation of the input, ordered by creation time, newest first |
| Vouchers.Query | src/components/Dashboard.tsx:98-99 | the list query returns exactly the rows with the tab's status, with their multiplicities, newest first |
| Vouchers.FetchVouchers | src/components/Dashboard.tsx:85-120 | one voucher per queried row, in query order, each the transform of the joined row, all with the tab's status |
| Vouchers.FetchedRowsAreTabRows | src/components/Dashboard.tsx:98 | over the whole table, a row is listed on a tab iff the table holds it with that status, and then exactly once |
| Vouchers.Approve | src/components/Dashboard.tsx:155-174 | with a signed-in user and an existing id, that row becomes approved by the user at the current time, and nothing else changes in it or in any other row; otherwise the table is unchanged |
| Vouchers.Reject | src/components/Dashboard.tsx:176-195 | the same for rejection and its columns |
| Vouchers.NewPayment | src/components/Dashboard.tsx:128-153 | with a signed-in user, exactly one row is added, carrying the form's payee, account head, description and amount, requested by the user and undecided; existing rows are unchanged; no user or a clashing id adds nothing |
| Vouchers.StatementsKeepKeys | src/lib/database.types.ts:74-90 | approve, reject and insert keep every row stored under its own id |
| Vouchers.RejectAfterApprove | src/components/Dashboard.tsx:181-188 | rejection does not check the current status: an approved voucher can be rejected, and it keeps its approval columns |
| Vouchers.ApproveIdempotent | src/components/Dashboard.tsx:160-167 | approving twice with the same user and time is the same as once |
| Vouchers.ApproveMovesTab | src/components/Dashboard.tsx:160-167 | an approved pending voucher leaves the pending rows and joins the approved ones |
| PaymentList.StatusIcon | src/components/PaymentList.tsx:20-29 | approved gives the check icon, rejected the cross icon, pending the clock, each iff |
| PaymentList.ControlsFor | src/components/PaymentList.tsx:65-103 | approve and reject appear together, iff the voucher is pending and the viewer is an approver; download iff approved and a requester; the status badge iff not pending; the "Approved by" line iff the approver is set and non-empty |
| PaymentList.ActionsExclusive | src/components/PaymentList.tsx:65-89 | no voucher offers a decision and a download at once, and an admin is offered neither |
| PaymentList.ControlsOnTab | src/components/PaymentList.tsx:65-89 | on a fetched tab, an approver gets decisions iff it is the pending tab, and a requester gets downloads iff it is the approved tab |
| PaymentList.DecisionsAreFinalInTheList | src/components/PaymentList.tsx:65-103 | once approved, a voucher offers no decision and its requester can download it; once rejected, nobody is offered anything |
| App.HandleLogin | src/App.tsx:37-86 | loading ends false and role and credentials are kept; a sign-in error shows the mapped message; an exception shows the generic message; a failed profile lookup signs out with its message; the role gate signs out with the access-denied message exactly when it denies; when either sign-out throws, the generic message shows and the session is kept; otherwise the session is kept and no error shows |
| App.HandleLoginFailClosed | src/App.tsx:66-78 | with the gate made fail-closed, a failed profile lookup or a denial always ends without a session and with its own message |
| App.HandleLogout | src/App.tsx:88-99 | a completed sign-out clears the role, credentials, error and session; a throwing one only sets the failure message |
| App.View | src/App.tsx:101-123 | the dashboard iff there is a session; otherwise the chosen role's login form, or the role selection when no role is chosen |
| App.AdminAndUnselectedAdmitted | src/App.tsx:74 | an admin profile passes the gate for any chosen role, every profile passes with no role chosen, and the matching role passes |
| App.Denied | src/App.tsx:74 | only a chosen role can deny, an admin profile is never denied, and a missing profile is denied whenever a role was chosen |
| App.DeniedByName | src/App.tsx:74 | the gate on roles is the source's comparison of role names: the profile's name differs from the chosen one and is not "admin" |
| App.SignInErrorText | src/App.tsx:49-55 | exactly the backend message "Invalid login credentials" becomes the friendly invalid-email-or-password text; any other message is shown verbatim |
| App.LoginLandsOnDashboardIffAdmitted | src/App.tsx:58-79 | after sign-in, profile lookup and a sign-out that completes, the dashboard shows iff the gate admits; a denied user stays on the chosen role's form |
| App.WrongRoleDenied | src/App.tsx:74-77 | a non-admin whose role differs from the chosen one is signed out and gets no session, when the sign-out completes |
| App.GateFailsOpen | src/App.tsx:74-82 | when the denying sign-out throws, the denied user keeps the session and sees the dashboard, with the generic error |
| App.GateFailsClosed | src/App.tsx:74-78 | with the fail-closed gate, the dashboard shows iff the gate admits, whether or not the sign-out throws |
| App.LogoutShowsRoleSelection | src/App.tsx:88-94 | a completed logout returns to role selection with an empty form |
| App.LogoutIdempotent | src/App.tsx:88-94 | logging out twice is the same as once |
| NewPaymentForm.Submit | src/components/NewPaymentForm.tsx:20-35 | with any field empty nothing is sent and the form stays; otherwise the payload carries the four fields (amount parsed) and the form is emptied |
| NewPaymentForm.InitialSubmitIsNoOp | src/components/NewPaymentForm.tsx:15-22 | submitting the freshly opened form sends nothing |
| NewPaymentForm.NoDoubleSubmit | src/components/NewPaymentForm.tsx:22-34 | a second submit right after an accepted one sends nothing |
| NewPaymentForm.GuardIgnoresAmountValue | src/components/NewPaymentForm.tsx:22-28 | whether a submit is accepted does not depend on how the amount parses |
| NewPaymentForm.SubmitThenInsert | src/components/Dashboard.tsx:138-146 | a complete form submitted by a signed-in user becomes exactly one new row with the form's text fields |
| AddUserForm.Submit | src/components/AddUserForm.tsx:20-46 | the callback gets the form's fields; success resets the form and raises the success notice; failure keeps the form and raises the error notice |
| AddUserForm.Cancel | src/components/AddUserForm.tsx:113-122 | cancel empties every field and restores role requester and active |
| AddUserForm.PasswordNotSent | src/components/AddUserForm.tsx:23-29 | the password never reaches the callback |
| AddUserForm.OneNoticePerSubmit | src/components/AddUserForm.tsx:32-44 | each submit raises exactly one notice, success or error, and it disappears after 5 s because the notification hook passes no duration |
| AddUserForm.SuccessEqualsCancel | src/components/AddUserForm.tsx:34-42 | a successful submit leaves the same form as Cancel, and a failed one can be resubmitted with the same record |

## Left out

- Network and SDK calls are not modelled: the backend client, `signInWithPassword`,
  `signOut`, `getUser`, `getSession`, the profile and list queries, and `sendSMS`. Their
  answers are parameters. The Dashboard's `fetchUserProfile`, `fetchUsers`,
  `fetchAccountHeads`, the admin panel toggle and the PDF download placeholder are UI
  plumbing around these calls and are not modelled.
- `Math.random` and `Date.now` are parameters. The random draw is
  `floor(Math.random() * 900000)`, a natural below 900000. The toast id is a parameter
  (`Math.random().toString(36).substring(7)`).
- `setTimeout` is recorded as a `Timer` (id and delay). Time passing and the timer firing
  are the separate `FireTimer` step.
- Vouchers.Approve: the update statement runs with the ISO-8601 text of `new Date()`; the
  model stores the clock value as an integer timestamp.
- NewPaymentForm.Submit: `parseFloat` is a parameter and amounts are integers. Floating point,
  NaN and `Intl.NumberFormat` currency display are not modelled.
- Notifications.DismissDelay: a NaN duration is also falsy in JavaScript; durations are
  integers here, so only an absent or zero duration takes the default.
- UrlHost.Hostname: the host parse is simplified. Not modelled: tab and newline removal,
  stripping of leading and trailing C0 controls, percent-decoding, IDNA, IPv4 and IPv6
  hosts. Only lower-case "http:" and "https:" schemes are recognised. The caller always
  hands the parser a URL with a lower-case "http://" or "https://" prefix, so this last
  point loses nothing.
- Text.Trim: strings are sequences of Unicode scalar values, not UTF-16 code units.
- Vouchers.Query: rows with equal creation times come back in an order the database does not
  specify. The model returns one valid order, a stable insertion sort of the scan order.
- Database defaults for id, voucher number, dates and status on insert are parameters
  (`Defaults`). Row-level security policies are not modelled.
- App.HandleLogin: a sign-out call either completes or throws. A backend that reports a
  sign-out error without throwing is taken as completed; the SDK's behaviour there is not part
  of this model.
- App.HandleLogin: `session` is the value the auth listener holds after the handler's calls
  have been reported to it. The listener itself and its timing are not modelled. The
  startup `getSession` error path, the role-selection buttons and "back" buttons, and the
  input `onChange` handlers are not modelled.
- Dashboard error paths: a failed update or insert is logged and changes nothing. The model
  returns the table unchanged only for a missing user or a missing or clashing id.

## Findings

| source | as written | input that shows it | evidently intended | confidence | as-written member | corrected member |
|---|---|---|---|---|---|---|
| src/App.tsx:74-82 | the sign-out that enforces the role gate sits inside the `try`; if it throws, the catch only sets the generic error and the session stays | a requester signs in under the approver role and `signOut` throws: the dashboard is rendered | a user the gate denies never reaches the dashboard | medium, not executed | App.GateFailsOpen | App.GateFailsClosed |
| src/services/twilioService.ts:36-38 | any digit string starting with 91 is taken to carry India's country code already | the ten-digit mobile number 9123456789 becomes +9123456789 instead of +919123456789 | a ten-digit national number always gets +91 | medium, not executed | Twilio.NationalNumberLosesCode | Twilio.NationalNumbersGetCode |
