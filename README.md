# RescueMind core rules in Dafny

RescueMind is a casualty-monitoring application: a React client for medics
in the field, and an Express server that registers and authenticates users.
This project models the parts of it that follow precise rules, and proves
what those rules guarantee.

- **Patient monitoring** (`PatientMonitoring`, `MonitoringUtils`).
  - Every tick appends one reading of six vital signs to per-signal
    histories. Each history keeps at most the newest 120 values.
  - The live alert banner is recomputed from the new reading. A sound plays
    only when the banner's last message differs from the one remembered.
  - The table view builds one record per index, with null for missing values
    and one alert flag per signal.
  - Also modelled: the CSV export text, the statistics helper, the threshold
    table, the duration formatter, chart data and the card colours.
- **Treatment log** (`TreatmentLogs`). The form state is a class:
  - update a field, compose an action, add it (refused when type or time is
    empty), remove an action by index;
  - save the form with the current vital signs to browser storage, clear it,
    and merge stored data over it;
  - the red-highlight predicates for pulse, oxygen and an `s/d`
    blood-pressure text.
- **Hospital transfer** (`HospitalIntegration`).
  - The record derived from the saved log: the blood pressure is split on
    `/`, and missing values become `''`.
  - Its CSV export, the load from storage, and the send-status machine.
- **Image analysis** (`AIRecommendations`).
  - Splitting a data URI into MIME type and payload, and copying the decoded
    characters into a byte buffer with a loop.
  - The capture session's status machine: idle, uploading, success, error,
    and cancel.
- **Users and authentication** (`UserModel`, `AuthController`, `RequireAuth`).
  - The phone and password validators, the role enumeration and its default,
    and hashing on save only when the password changed.
  - The register and login request schemas, and the 400/409/401/500 decisions
    over a user store keyed by phone.
  - The signed token's claims, and the bearer-token guard.
- **Flows** (`Flows`). Lemmas that connect the pieces:
  - a saved log is what the transfer page exports;
  - a token from registration is admitted by the guard;
  - the treatment highlights are compared with the monitoring banner.

Supporting modules:
- `Wrappers`: `Option` and `Result`.
- `Text`: `split`, `join`, `trim`, `padStart`, `String(n)`, and `Number(s)`
  for decimal literals.
- `Json`: JavaScript values with truthiness, `?.`, `??`, `String(x)`, and
  the entries an object spread copies.
- `BrowserStorage`: `localStorage` as a map.

Numbers:
- Monitoring readings are integers counted in tenths of their unit, so
  36.6 degrees is 366 and 72 BPM is 720. The thresholds use the same unit,
  so temperature's 37.5 bound is exact.
- The treatment log's readings are whole units. Its saved JSON numbers are
  also held in tenths.

Foreign calls are parameters of the members that use them: `atob`,
`JSON.parse`, `JSON.stringify`, bcrypt hash and compare, jsonwebtoken sign
and verify, `toLocaleString`, and the database's new ids. Random samples are
method inputs.

Where the code and its comments or evident intent differ, the code is
modelled:
- Stored data merged into the treatment form overrides `startTime` too,
  although the comment says the existing one is kept.
- On the transfer page, the diastolic value is the second `/`-separated
  piece, not everything after the first `/`.
- Registration stores the user before it signs the token, so a missing
  secret answers 500 with the user already stored.
- A data URI that fails to convert rejects the capture handler before its
  `try`, so the status stays 'uploading'.
- Cancelling an upload shows 'idle' only until the aborted request settles.
  The page then shows 'error' with the cancellation message.

## Model

| member | source | states |
|---|---|---|
| MonitoringUtils.ThresholdsWellFormed | client/src/components/monitoring/monitoringUtils.js:44-51 | the threshold table has six entries, and each has min ≤ max |
| MonitoringUtils.RowCells | client/src/components/monitoring/monitoringUtils.js:3-11 | a CSV row has exactly one cell per header (seven) |
| MonitoringUtils.CsvLines | client/src/components/monitoring/monitoringUtils.js:2-16 | the lines are the header joined by ',' followed by one line per record in record order; there are records + 1 of them |
| MonitoringUtils.CsvTextLines | client/src/components/monitoring/monitoringUtils.js:13-16 | lines are joined by '\n' with no trailing newline: when no cell holds a newline, splitting the text on '\n' gives back exactly the records + 1 lines |
| MonitoringUtils.RowLineCells | client/src/components/monitoring/monitoringUtils.js:15 | nothing is quoted: a row splits on ',' into 7 fields plus one per comma inside a cell, and into exactly its cells when no cell has a comma |
| MonitoringUtils.HeadersArePlain | client/src/components/monitoring/monitoringUtils.js:2 | no header name contains ',' or a newline |
| MonitoringUtils.SeqMin | client/src/components/monitoring/monitoringUtils.js:37 | the minimum is one of the values and no value is below it |
| MonitoringUtils.SeqMax | client/src/components/monitoring/monitoringUtils.js:38 | the maximum is one of the values and no value is above it |
| MonitoringUtils.SumBounds | client/src/components/monitoring/monitoringUtils.js:39 | a sum of n values within [lo, hi] lies within [n·lo, n·hi] |
| MonitoringUtils.MeanWithinRange | client/src/components/monitoring/monitoringUtils.js:39 | the average of values within [lo, hi] is within [lo, hi] |
| MonitoringUtils.Values | client/src/components/monitoring/monitoringUtils.js:35 | the values are the points' values, in order |
| MonitoringUtils.CalculateStats | client/src/components/monitoring/monitoringUtils.js:32-42 | null exactly for empty input; otherwise min and max are values that bound all values, avg is the sum divided by the count (so min ≤ avg ≤ max), and first + trend = last |
| PatientMonitoring.PushShape | client/src/pages/PatientMonitoring.js:93-98 | after a push the history has min(n+1, 120) values, ends with the new one, and is preceded by the last min(n, 119) old values in order |
| PatientMonitoring.PushOnFull | client/src/pages/PatientMonitoring.js:93-98 | on a full history a push drops exactly the oldest value and keeps 120 |
| PatientMonitoring.HistoryKeepsNewest | client/src/pages/PatientMonitoring.js:92-99 | after any sequence of ticks a history holds exactly the newest min(k, 120) readings |
| PatientMonitoring.AppendKeepsShape | client/src/pages/PatientMonitoring.js:92-99 | a tick keeps the six histories of equal length and at most 120 long |
| PatientMonitoring.MessagesDiffer | client/src/pages/PatientMonitoring.js:59-66 | the heart-rate, oxygen and blood-pressure messages are pairwise different |
| PatientMonitoring.Banner | client/src/pages/PatientMonitoring.js:56-67 | one message per fired check and no other: the length is the number of fired checks, each message appears exactly when its condition holds, heart rate first and blood pressure last, so the order is heart rate, oxygen, blood pressure; empty exactly when no condition holds |
| PatientMonitoring.AlertRules | client/src/pages/PatientMonitoring.js:54-67 | heart-rate alert iff hr outside 60-100; oxygen alert iff ox < 95; one blood-pressure alert iff systolic outside 90-120 or diastolic outside 60-80; one entry per fired rule, in the order heart rate, oxygen, blood pressure; empty iff all in range |
| PatientMonitoring.BannerIgnoresTemperatureAndRespiration | client/src/pages/PatientMonitoring.js:54-67 | temperature and respiratory rate never change the banner |
| PatientMonitoring.HighPulseExample | client/src/pages/PatientMonitoring.js:58-60 | a pulse of 120 with other signals normal gives only the heart-rate message |
| PatientMonitoring.LowOxygenExample | client/src/pages/PatientMonitoring.js:61-63 | oxygen at 90 with other signals normal gives only the oxygen message |
| PatientMonitoring.CollectAlerts | client/src/pages/PatientMonitoring.js:54-67 | the list pushed step by step equals the banner of the reading |
| PatientMonitoring.Session.constructor | client/src/pages/PatientMonitoring.js:15-29 | the screen opens with empty histories, no alerts, an empty alert memory and no sound played |
| PatientMonitoring.Session.SlideWindow | client/src/pages/PatientMonitoring.js:92-99 | every history takes the reading's value through the rolling window; alerts, memory and sounds are unchanged |
| PatientMonitoring.Session.CheckAlerts | client/src/pages/PatientMonitoring.js:69-77 | the alerts become the reading's banner; memory and sound count change (by one sound) only when the banner is non-empty and its last message differs from the memory |
| PatientMonitoring.MemoryIsLastAlert | client/src/pages/PatientMonitoring.js:69-75 | the alert memory is empty or the last message of the banner of the reading that set it: the blood-pressure message if that reading's pressure was abnormal, else the oxygen message if its oxygen was low, else the heart-rate message |
| PatientMonitoring.Session.Tick | client/src/pages/PatientMonitoring.js:92-102 | a tick slides the window, replaces the alerts, updates the memory and sound as above and records the update time |
| PatientMonitoring.RepeatedReadingIsSilent | client/src/pages/PatientMonitoring.js:69-75 | two ticks with the same reading play the sound at most once |
| PatientMonitoring.TableLength | client/src/pages/PatientMonitoring.js:129-133 | the record count is the largest of the heart-rate, oxygen and systolic lengths |
| PatientMonitoring.BuildRecord | client/src/pages/PatientMonitoring.js:136-157 | the record built from the index equals the record specification at that index |
| PatientMonitoring.ToTableRecords | client/src/pages/PatientMonitoring.js:128-161 | the loop yields TableLength records, record i being the record at index i |
| PatientMonitoring.RecordAtFields | client/src/pages/PatientMonitoring.js:136-156 | record i has time start + 5000·i; each of the six values is null exactly past its history and otherwise that history's value at i; and every flag is false when its value is null (blood pressure needs both) |
| PatientMonitoring.AlignedTableHasNoNulls | client/src/pages/PatientMonitoring.js:137-142 | when the histories have equal length no record holds a null |
| PatientMonitoring.NewestRecordMatchesBanner | client/src/pages/PatientMonitoring.js:152-156 | the newest record's heart-rate, oxygen and blood-pressure flags agree with the banner; temperature and respiration flags use their table ranges |
| PatientMonitoring.TableExample | client/src/pages/PatientMonitoring.js:152 | readings 70, 130, 72 BPM give three records with only the middle one flagged |
| PatientMonitoring.ValueCellIsPlain | client/src/components/monitoring/monitoringUtils.js:5-10 | a numeric or null cell holds no ',' or newline |
| PatientMonitoring.ExportCellsPlain | client/src/pages/PatientMonitoring.js:163-166 | every exported cell after the time holds no ',' or newline |
| PatientMonitoring.ExportRowSplits | client/src/pages/PatientMonitoring.js:163-166 | when the time text has no comma, an exported row splits back into its seven cells |
| PatientMonitoring.ExportTextLines | client/src/pages/PatientMonitoring.js:163-166 | when the time text has no newline, the export has one line per table record plus the header |
| PatientMonitoring.ExportRowExample | client/src/components/monitoring/monitoringUtils.js:3-11 | a record exports as the time text, "80", "97", "110", "70", "36.6", "16" |
| PatientMonitoring.JsRem | client/src/pages/PatientMonitoring.js:112-113 | JavaScript's remainder agrees with the mathematical one on non-negative operands |
| PatientMonitoring.DurationText | client/src/pages/PatientMonitoring.js:109-115 | the text is h:mm:ss when at least an hour has passed, m:ss otherwise, minutes and seconds padded to two digits |
| PatientMonitoring.LongDurationFields | client/src/pages/PatientMonitoring.js:114 | from one hour on the text splits on ':' into hours, padded minutes and padded seconds |
| PatientMonitoring.ShortDurationFields | client/src/pages/PatientMonitoring.js:114 | below one hour the text splits on ':' into minutes and padded seconds |
| PatientMonitoring.FormatDurationReadsBack | client/src/pages/PatientMonitoring.js:109-115 | the fields are digits, the last two wide, minutes below 60, and they read back as the whole seconds elapsed |
| PatientMonitoring.Reverse | client/src/pages/PatientMonitoring.js:118-121 | reversal keeps the length and puts element i at position n-1-i |
| PatientMonitoring.ReverseTwice | client/src/pages/PatientMonitoring.js:121 | reversing twice gives the history back, so the copy leaves the data intact |
| PatientMonitoring.ChartData | client/src/pages/PatientMonitoring.js:117-126 | labels and data are reversed copies of the same length, with the given title and colour |
| PatientMonitoring.HrColor | client/src/pages/PatientMonitoring.js:171 | grey exactly without a value, red exactly when the banner rule flags it |
| PatientMonitoring.OxColor | client/src/pages/PatientMonitoring.js:172 | grey exactly without a value, red exactly when below 95 |
| PatientMonitoring.BpColor | client/src/pages/PatientMonitoring.js:173 | grey when either value is missing, red exactly when the banner's blood-pressure rule holds |
| PatientMonitoring.Latest | client/src/pages/PatientMonitoring.js:175-178 | the latest value is the last one, or 0 for an empty history |
| PatientMonitoring.CardColors | client/src/pages/PatientMonitoring.js:171-178 | before any tick the defaults of 0 colour every card red; after a tick each card is red exactly when the banner carries its message |
| TreatmentLogs.InitialData | client/src/pages/TreatmentLogs.js:9-15 | the form holds startTime, empty action, medication and notes, and no additional actions |
| TreatmentLogs.WithoutIndexSpec | client/src/pages/TreatmentLogs.js:58 | filtering by index deletes exactly the element at the index, and nothing when it is out of range |
| TreatmentLogs.AddAppendsAtEnd | client/src/pages/TreatmentLogs.js:53 | the action is appended after the existing ones and other fields are untouched; a text list is spread into characters; a missing or non-iterable list throws |
| TreatmentLogs.AddThenRemoveLast | client/src/pages/TreatmentLogs.js:53-58 | removing the action just added restores the form data |
| TreatmentLogs.RemoveKeepsOrder | client/src/pages/TreatmentLogs.js:58 | removal keeps the remaining actions in order, shortens the list by one exactly for an index in range, and touches no other field |
| TreatmentLogs.ActionJsonFields | client/src/pages/TreatmentLogs.js:53 | the appended object holds exactly the composed fields as texts |
| TreatmentLogs.PayloadFields | client/src/pages/TreatmentLogs.js:61-65 | the payload keeps every form field and adds vitalSigns holding the pulse, oxygen and blood-pressure readings |
| TreatmentLogs.MergeStoredObject | client/src/pages/TreatmentLogs.js:100-102 | stored keys win, startTime included, and keys absent from storage keep their current value |
| TreatmentLogs.PressureHighlightOfReading | client/src/pages/TreatmentLogs.js:129 | a reading shown as s/d is red exactly when s < 90, s > 140, d < 60 or d > 90 |
| TreatmentLogs.MissingSystolicHighlighted | client/src/pages/TreatmentLogs.js:129 | "/80" is red, since the empty systolic part reads as 0 |
| TreatmentLogs.ThreePartsNotHighlighted | client/src/pages/TreatmentLogs.js:129 | a text with two or more slashes is never red |
| TreatmentLogs.OnePartNotHighlighted | client/src/pages/TreatmentLogs.js:129 | a text without a slash is never red |
| TreatmentLogs.NonNumberSystolic | client/src/pages/TreatmentLogs.js:129 | a systolic part that is NaN compares false both ways, so only the diastolic number decides |
| TreatmentLogs.NonNumberNotHighlighted | client/src/pages/TreatmentLogs.js:129 | "x/80" is not red |
| TreatmentLogs.SimulatedReadingsNeverHighlighted | client/src/pages/TreatmentLogs.js:28-32 | the simulated ranges of pulse, oxygen and pressure never turn a card red |
| TreatmentLogs.TreatmentLog.constructor | client/src/pages/TreatmentLogs.js:9-21 | the form starts as the initial data, with an empty composer, no vital signs, no message and no save time |
| TreatmentLogs.TreatmentLog.Change | client/src/pages/TreatmentLogs.js:41-44 | only the named field changes, to the typed text |
| TreatmentLogs.TreatmentLog.ChangeNewAction | client/src/pages/TreatmentLogs.js:46-49 | only the named field of the composed action changes |
| TreatmentLogs.TreatmentLog.SetVitalSigns | client/src/pages/TreatmentLogs.js:28-32 | the vital signs become the reading, the pressure as "s/d"; nothing else changes |
| TreatmentLogs.TreatmentLog.AddAction | client/src/pages/TreatmentLogs.js:51-55 | nothing happens unless type and time are set; otherwise the composer is emptied and the action appended, or, if the list is not iterable, the append throws and the form data is not updated |
| TreatmentLogs.TreatmentLog.RemoveAction | client/src/pages/TreatmentLogs.js:57-59 | the form becomes the data with that index filtered out; nothing else changes |
| TreatmentLogs.TreatmentLog.Submit | client/src/pages/TreatmentLogs.js:71-86 | the payload is stored as text under "treatmentLog"; success sets the message and the save time, failure only the error message |
| TreatmentLogs.TreatmentLog.ExpireMessage | client/src/pages/TreatmentLogs.js:80 | the message is cleared and nothing else changes |
| TreatmentLogs.TreatmentLog.Clear | client/src/pages/TreatmentLogs.js:88-93 | the form is reset with a new start time, the composer emptied, the message and save time cleared; vital signs stay |
| TreatmentLogs.TreatmentLog.LoadStored | client/src/pages/TreatmentLogs.js:96-107 | a non-empty stored text that parses is merged over the form; otherwise nothing changes |
| HospitalIntegration.PressurePart | client/src/pages/HospitalIntegration.js:31-32 | a missing or null value gives '', a text gives a piece without '/', anything else throws |
| HospitalIntegration.NoDataNoRecord | client/src/pages/HospitalIntegration.js:23-26 | the record is null, and nothing is exported, exactly when there is no truthy vitalSigns |
| HospitalIntegration.RecordFields | client/src/pages/HospitalIntegration.js:28-34 | missing or null pulse, oxygen, medication, notes and blood pressure become '', present values pass through; a text blood pressure gives its first '/' piece as systolic and its second, or '', as diastolic; the time is the stored startTime when truthy, else now |
| HospitalIntegration.PressureParts | client/src/pages/HospitalIntegration.js:31-32 | "a/b" gives a and b; a text without '/' gives itself and ''; "a/b/rest" gives a and b, the rest is dropped |
| HospitalIntegration.NonTextPressureThrows | client/src/pages/HospitalIntegration.js:31 | a blood pressure that is neither text nor null makes the record throw |
| HospitalIntegration.ExportIgnoresMedicationAndNotes | client/src/pages/HospitalIntegration.js:40 | the exported CSV never carries medication or notes, and the temperature and respiration cells are empty |
| HospitalIntegration.StatusTrace | client/src/pages/HospitalIntegration.js:44-57 | one status per event, each the transition of the previous status (the starting one for the first event) by that event |
| HospitalIntegration.SendCycle | client/src/pages/HospitalIntegration.js:46-56 | with data, a send shows 'sending', then 'success' or 'error', then null; without data pressing send changes nothing |
| HospitalIntegration.PressOnlySends | client/src/pages/HospitalIntegration.js:45-46 | however often send is pressed, the status is 'sending' with data and unchanged without |
| HospitalIntegration.TransferPage.constructor | client/src/pages/HospitalIntegration.js:7-8 | the page starts with no stored data and no status |
| HospitalIntegration.TransferPage.Load | client/src/pages/HospitalIntegration.js:10-21 | a missing or empty stored text changes nothing; otherwise the stored data is the parse result, null when parsing fails |
| HospitalIntegration.TransferPage.Export | client/src/pages/HospitalIntegration.js:38-41 | the exported text is the one-record CSV of the record, nothing without data |
| HospitalIntegration.TransferPage.Send | client/src/pages/HospitalIntegration.js:44-46 | the status becomes 'sending' only when there is data |
| HospitalIntegration.TransferPage.Settle | client/src/pages/HospitalIntegration.js:49-54 | the status becomes 'success', or 'error' when the wait is rejected |
| HospitalIntegration.TransferPage.ExpireStatus | client/src/pages/HospitalIntegration.js:56 | the status returns to null |
| AIRecommendations.Bytes | client/src/pages/AIRecommendations.js:11-13 | the buffer has the decoded text's length and byte i is character i's code modulo 256 |
| AIRecommendations.DataUriToBlob | client/src/pages/AIRecommendations.js:8-15 | a payload atob refuses throws, a header without ':' throws, otherwise the loop fills a buffer equal to the bytes of the decoded text, with the header's MIME type |
| AIRecommendations.DataUriParts | client/src/pages/AIRecommendations.js:9-10 | for data:mime;base64,payload the MIME type is mime and the decoded segment is payload |
| AIRecommendations.NoCommaDecodesUndefined | client/src/pages/AIRecommendations.js:9 | without a comma the decoder is given the text "undefined" |
| AIRecommendations.NoColonThrows | client/src/pages/AIRecommendations.js:10 | without ':' the MIME lookup throws |
| AIRecommendations.BytesKeepLatin1 | client/src/pages/AIRecommendations.js:13 | for a Latin-1 text each byte equals its character's code and the bytes read back as the text |
| AIRecommendations.SettleRules | client/src/pages/AIRecommendations.js:44-64 | success exactly for an ok response whose body reports success with a truthy analysis; the prediction is then `{ response: analysis }`; every other outcome is an error, with the cancellation message exactly for an abort |
| AIRecommendations.AnalysisOfWellFormedBody | client/src/pages/AIRecommendations.js:50-51 | a success body succeeds exactly when its analysis is truthy |
| AIRecommendations.CaptureSession.constructor | client/src/pages/AIRecommendations.js:18-22 | the page starts idle with no prediction, error, preview or request |
| AIRecommendations.CaptureSession.Capture | client/src/pages/AIRecommendations.js:24-35 | error and prediction are cleared, the preview set and the status 'uploading'; a request starts exactly when the image converts |
| AIRecommendations.CaptureSession.Finish | client/src/pages/AIRecommendations.js:37-67 | the request settles as its outcome, or as an abort when cancelled; the abort handle is cleared |
| AIRecommendations.CaptureSession.Cancel | client/src/pages/AIRecommendations.js:70-74 | a pending request is aborted, the status becomes 'idle' and the preview is dropped |
| AIRecommendations.CancelledUploadEndsInError | client/src/pages/AIRecommendations.js:58-72 | capture, cancel, settle ends in 'error' with the cancellation message |
| UserModel.RoleNames | server/api/models/User.js:10 | only "medic" and "doctor" are roles, each name parsing back to its role |
| UserModel.PhoneShape | server/api/models/User.js:14-18 | a phone is valid exactly when it is an optional '+', a digit 1-9 and 7 to 14 further digits |
| UserModel.PhoneDecomposes | server/api/models/User.js:17 | every valid phone is such a sign, leading digit and rest |
| UserModel.PhoneExamples | server/api/models/User.js:14-18 | "+12345678901" is valid; "+00000000000" and "1234567" are not |
| UserModel.Utf16Length | server/api/models/User.js:22 | JavaScript's length lies between the character count and twice it |
| UserModel.PasswordLength | server/api/models/User.js:21-23 | eight characters always suffice, fewer than four never do, and four astral characters do |
| UserModel.UserDocument.constructor | server/api/models/User.js:6-11 | name and phone are trimmed, the role defaults to medic, and the password counts as modified |
| UserModel.UserDocument.SetPassword | server/api/models/User.js:9 | the password changes and is marked modified |
| UserModel.UserDocument.HashIfModified | server/api/models/User.js:26-35 | an unmodified password is left alone; a modified one is replaced by its hash, or kept when hashing fails |
| UserModel.UserDocument.Save | server/api/models/User.js:6-35 | validation first, then hashing only when modified; success leaves the password unmodified |
| UserModel.SaveTwiceHashesOnce | server/api/models/User.js:26-31 | saving a new user twice stores the hash of the password, hashed once |
| AuthController.RequiredText | server/api/controllers/authController.js:6-7 | a required key passes exactly when it is a text that is non-empty after the optional trim, and yields that text |
| AuthController.RegisterSchemaImpliesModel | server/api/controllers/authController.js:5-10 | what the register schema lets through is trimmed and passes the user model's validators |
| AuthController.SignToken | server/api/controllers/authController.js:17-22 | no token without a secret; otherwise the user's id and role signed with HS256 and a 1h expiry |
| AuthController.RegisterRejectsFirst | server/api/controllers/authController.js:26-27 | 400 exactly for a body failing the schema, and then the store is unchanged |
| AuthController.RegisterDuplicate | server/api/controllers/authController.js:29-30 | a stored phone gets 409 and an unchanged store |
| AuthController.RegisterAddsOne | server/api/controllers/authController.js:32-36 | a success stores exactly one new user under its new phone, with the hash and role, and keeps the store well keyed |
| AuthController.RegisterStores | server/api/controllers/authController.js:32-33 | after a success the store is the old one plus the new user |
| AuthController.RegisterSucceeds | server/api/controllers/authController.js:24-36 | a valid body for a new phone succeeds whenever hashing works and a secret is set, with a token for the new id and role |
| AuthController.RegisterSuccessToken | server/api/controllers/authController.js:35-36 | a success's token is signed over the new id and the given or default role |
| AuthController.RegisterWithoutSecretStillStores | server/api/controllers/authController.js:33-39 | without a secret, registration answers 500 with the user stored, so a retry gets 409 |
| AuthController.LoginHidesWhichFailed | server/api/controllers/authController.js:45-52 | an unknown phone and a wrong password both get 'Invalid credentials'; 400 exactly for a body failing the schema |
| AuthController.LoginFindsUser | server/api/controllers/authController.js:48-55 | a stored phone with a matching password gets a token for that user |
| AuthController.LoginAfterRegister | server/tests/auth.test.js:31-37 | after registering, logging in with the same phone and password succeeds with the new user's token |
| AuthController.RegisterBodyShape | server/api/controllers/authController.js:5-10 | a register body without a role passes as its trimmed name and phone |
| AuthController.LoginBodyValid | server/api/controllers/authController.js:12-15 | a login body with a non-blank phone and a password passes, the phone trimmed |
| AuthController.RegisterBodyValid | server/api/controllers/authController.js:5-10 | trimmed texts that satisfy the model's validators pass the register schema unchanged |
| AuthController.RegisterTestExample | server/tests/auth.test.js:24-29 | Alice's registration succeeds on an empty store |
| AuthController.LoginTestExample | server/tests/auth.test.js:39-42 | logging in to an empty store with "+00000000000" gets 401 |
| AuthController.UserStore.Register | server/api/controllers/authController.js:24-41 | the reply and the new store are those of the register decision, and the store stays well keyed |
| AuthController.UserStore.Login | server/api/controllers/authController.js:43-60 | the reply is that of the login decision |
| RequireAuth.AuthorizationHeader | server/middlewares/requireAuth.js:4 | the lower-case header is taken when truthy, otherwise the capitalised one; none when both are missing or empty |
| RequireAuth.MissingHeaderRefused | server/middlewares/requireAuth.js:4-5 | without an Authorization header the request gets 401 'Missing token' |
| RequireAuth.PrefixDecides | server/middlewares/requireAuth.js:5 | 'Missing token' exactly when the header does not start with "Bearer ", checked case-sensitively and with the space |
| RequireAuth.TokenIsSecondField | server/middlewares/requireAuth.js:6 | the token is the text after "Bearer " up to the next space |
| RequireAuth.AdmittedExactlyWhenVerified | server/middlewares/requireAuth.js:4-15 | admitted exactly with the prefix, a secret and a token that verifies; then the user is exactly the payload's userId and role; every refusal is a 401 |
| RequireAuth.BearerHeaderAdmitted | server/middlewares/requireAuth.js:6-12 | "Bearer t" is admitted with the payload verify gives t |
| RequireAuth.NoSecretRefusesAll | server/middlewares/requireAuth.js:8-9 | a missing or empty secret refuses every request, as 'Invalid token' once the header is present |
| RequireAuth.LowerCaseHeaderFirst | server/middlewares/requireAuth.js:4 | the lower-case header wins; the other spelling is used only when it is empty |
| Flows.SavedLogTransfers | client/src/pages/HospitalIntegration.js:23-34 | a log saved with pulse p, oxygen o and pressure s/d has data, and its transfer record carries p, o, s and d |
| Flows.SaveThenOpenTransfer | client/src/pages/TreatmentLogs.js:75 | saving the log then opening the transfer page shows the saved payload, given a parser that reads back what was written |
| Flows.RegisteredTokenAdmitted | server/middlewares/requireAuth.js:6-12 | the token a registration returns, sent as "Bearer t", is admitted with the new id and role |
| Flows.HighlightsAgainstBanner | client/src/pages/TreatmentLogs.js:117-129 | the pulse and oxygen highlights agree with the banner except for a zero reading; a highlighted pressure is flagged by the banner too |
| Flows.BannerWithoutHighlight | client/src/pages/TreatmentLogs.js:129 | 130/85 raises the banner's alert but is not highlighted |
| BrowserStorage.LocalStore.GetItem | client/src/pages/TreatmentLogs.js:98 | the stored text exactly when the key is present, null otherwise |
| BrowserStorage.LocalStore.SetItem | client/src/pages/TreatmentLogs.js:75 | an accepted write stores the text under the key and keeps every other key; a refused write stores nothing |
| Text.PadStart2 | client/src/pages/PatientMonitoring.js:114 | the text keeps its digits at the end, filled with leading zeros to width 2, and is left alone when already that wide |
| TreatmentLogs.LetterIsNaN | client/src/pages/TreatmentLogs.js:129 | Number("x") is NaN |
| Text.Split | client/src/pages/HospitalIntegration.js:31-32 | splitting never gives an empty list and no piece holds the separator |
| Text.SplitThenJoin | client/src/components/monitoring/monitoringUtils.js:15 | joining the pieces of a split gives the text back |
| Text.JoinThenSplit | client/src/components/monitoring/monitoringUtils.js:13-16 | splitting a join of separator-free pieces gives the pieces back |
| Text.JoinThenSplitLength | client/src/components/monitoring/monitoringUtils.js:15 | a join splits into one piece per part plus one per separator inside the parts |
| Text.SplitCount | client/src/pages/TreatmentLogs.js:129 | a split has one more piece than the text has separators |
| Text.TrimIdempotent | server/api/controllers/authController.js:6-7 | trimming twice is trimming once |
| Text.NatToStringRoundTrip | client/src/pages/PatientMonitoring.js:114 | the decimal rendering of a natural number reads back as that number |
| Text.NatNumberRoundTrip | client/src/pages/TreatmentLogs.js:129 | Number of the rendering of a natural number is that number |
| Text.TenthsNumberRoundTrip | client/src/components/monitoring/monitoringUtils.js:5-10 | Number of a rendered reading with one decimal is the reading |
| Json.Get | client/src/pages/HospitalIntegration.js:29-34 | optional property access is defined exactly for an object holding the key |
| Json.CellText | client/src/components/monitoring/monitoringUtils.js:15 | null and undefined cells are empty, texts and numbers show as themselves |
| Json.ElementTexts | client/src/components/monitoring/monitoringUtils.js:15 | `join` renders each element in place, null as the empty text and every other value as its `String` text |
| Json.IndexEntriesSpec | client/src/pages/TreatmentLogs.js:102 | spreading an array keys exactly the decimal indices, each holding its element |
| Json.SpreadOfSequences | client/src/pages/TreatmentLogs.js:102 | spreading an array or a text keys its elements or characters by index; null, booleans and numbers add nothing |

## Left out

- Random sample generation: readings are method inputs. Timers are explicit
  method calls: the 5 s tick, the 3 s message and status clearing, and the
  0.9 s simulated latency. React rendering, hooks, JSX and the `timeframes`
  state, which never affects the data, are not modelled.
- Audio playback is a counter of sounds played. A failing `play()` is not
  modelled.
- `toLocaleString`, `toLocaleTimeString` and `new Date(...)` are an opaque
  function from a time to its text.
- The Blob/DOM download of the CSV is not modelled; only the text is.
- `localStorage` is a map from key to text. A refused write is a boolean
  parameter. `JSON.parse` (`None` when it throws) and `JSON.stringify` are
  parameters.
- `fetch`, `FormData`, `AbortController` and `res.json()` are an upload
  outcome (aborted, network failure, or a response with its ok flag and
  parsed body). `atob` is a parameter. The blob's own copy of the buffer is
  not modelled.
- Floating point:
  - Monitoring values are tenths, so the average is an exact real.
  - `Number()` covers decimal literals with optional sign and surrounding
    white space. Exponents, hex, `Infinity` and float rounding are not
    modelled.
- Json.SpreadOfSequences: spreading a text is modelled per character, not per UTF-16 code unit.
- Joi's error message wording: a 400 carries which rule failed, not its
  text. Joi's own length for `min(8)` is modelled as the UTF-16 length.
- bcrypt, jsonwebtoken and Mongoose queries are parameters:
  - hashing can fail;
  - compare is a boolean function;
  - sign is a function of the claims, the secret and the options;
  - verify returns the payload or fails.
  
  A `bcrypt.compare` that throws is not modelled. The store is a map keyed
  by phone, and the database id is the `newId` parameter.
- Two concurrent registrations of the same phone, and the unique-index
  error that would follow, are not modelled. Calls are sequential.
- Overlapping captures that share one abort handle are not modelled: one
  request is in flight at a time.
- TreatmentLogs.TreatmentLog.AddAction: when the stored list is not iterable, React's state updater throws at render time and the page crashes. The model reports the throw (`Threw`), keeps the form data and empties the composer as the handler does. The crash is not modelled.
- TreatmentLogs.TreatmentLog.RemoveAction: when the stored list is not an array, the updater throws at render time and the page crashes. The model reports it (`false`) and keeps the form data. The crash is not modelled.
- After a `TypeError` the transfer page's component would crash. The model
  returns the error and keeps its state.
- Rendering the additional actions with `.map` when the stored list is not
  an array is not modelled.
- The send handler's `catch` branch cannot be reached from the code (its
  promise never rejects). It is kept as a `rejected` parameter of the
  settle event.
- server/services/geminiService.js, the wiring files (server/app.js, the
  database connection, the routes, the test app) and the presentational
  components are not part of this model.
- Arrays of vital signs hold one number type per signal. A history holding
  `undefined` or mixed values is not modelled.
