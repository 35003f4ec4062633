# Promotional campaign front end — verified model

A Dafny model of the logic inside a React front end for a promotional campaign.
The front end has a registration page where a visitor signs up for a store's
prize draw, and an administration page for the stores and their prizes. Five
pieces of logic are modelled and proved.

- **Registration hook** (`src/hooks/useRegistration.tsx`).
  - The submit handler trims the name, phone, DNI and voucher fields.
  - It runs the ordered validation chain: name, phone, DNI, voucher, photo. The first failing rule's message is the one shown.
  - It chooses the claim endpoint when a store id is present and the register-only endpoint otherwise.
  - It uploads the compressed photo. A failed upload stops the submission before anything is posted.
  - It then posts the trimmed payload and handles the reply: navigation to the exit page, or an error message.
- **Store page** (`src/pages/Tiendas.tsx`).
  - The store list is merged with the per-store prize counts.
  - A created store is prepended to the table.
  - A deactivated store is removed by a map followed by a filter.
  - An update sends a rename request (only when the name changed) plus one request per prize, then replaces the edited row by id.
  - The prizes of a store are loaded before its edit dialog opens.
  - Two display orders are supported: newest first, and by name.
- **Edit dialog** (`src/components/ui/EditStoreModal.tsx`).
  - The running total of available stock.
  - The per-prize stock edit, clamped at zero.
  - The mapping from the back end's prize shape to the edit shape.
  - The reset when the dialog is hidden.
  - The submit guard.
- **Store table** (`src/components/ui/TableWithActions.tsx`).
  - The base-URL fallback.
  - The share link `base + "/" + id`.
  - The copy notices.
  - The QR file name `qr-<name with each whitespace run replaced by "_", lower-cased>.png`.
  - The missing-canvas guard.
- **Shared JavaScript semantics** (`Text`, `Http`).
  - `trim` and `\s` over the exact ECMAScript whitespace set.
  - `.length` counted in UTF-16 code units.
  - `\d` matching ASCII digits only.
  - `||` fallbacks.
  - `Promise.all` as "the first rejection wins".
  - `${n}` for natural numbers.

Stateful handlers are class methods over fields named after the React state.
Every server reply is an input to the method, so nothing is ever sent.

`RegistrationHook` keeps a `log` of effects, in order: the `setMessage` and `setLoading` calls, the photo upload, the registration post and the navigation. The other setters (`setCompressedFile`, the form field setters, `setPreview`, `setCompressing`) are not logged; `compressedFile` is a field the methods assign directly, and the preview and the compressing flag are not modelled. Its `Valid()` invariant ties `loading` and `message` to a replay of that log. `handleSubmit` is specified by the function `SubmitEffects`, and the lemmas state the source's promises about that list.

`StoresPage` records the requests it makes in `sent`.

Files:
- `wrappers.dfy`: `Option`, `Result`.
- `text.dfy`: string semantics.
- `http.dfy`: reply shapes and `Promise.all`.
- `registration.dfy`, `stores.dfy`, `editstoremodal.dfy` and `tablewithactions.dfy`: one file per source file.

## Model

| member | source | states |
|---|---|---|
| Text.Utf16LengthIsLength | src/hooks/useRegistration.tsx:89-101 | `.length` equals the number of characters exactly when no character lies above U+FFFF |
| Text.TrimStartShape | src/hooks/useRegistration.tsx:81-84 | removing leading whitespace drops a prefix made only of whitespace and stops at the first other character |
| Text.TrimEndShape | src/hooks/useRegistration.tsx:81-84 | removing trailing whitespace drops a suffix made only of whitespace and stops at the last other character |
| Text.TrimShape | src/hooks/useRegistration.tsx:81-84 | `trim()` returns the middle of the input, between a whitespace prefix and a whitespace suffix; the result neither starts nor ends with whitespace |
| Text.TrimStartSkipsSpace | src/hooks/useRegistration.tsx:81-84 | leading whitespace does not affect the rest of the string once it is removed |
| Text.TrimEndSkipsSpace | src/hooks/useRegistration.tsx:81-84 | trailing whitespace does not affect the rest of the string once it is removed |
| Text.TrimUnique | src/hooks/useRegistration.tsx:81-84 | whitespace + core + whitespace trims to exactly the core, when the core neither starts nor ends with whitespace |
| Text.TrimIdempotent | src/hooks/useRegistration.tsx:81-84 | trimming twice is trimming once |
| Text.TrimOfTrimmed | src/hooks/useRegistration.tsx:81-84 | a string with no whitespace at either end is its own trim |
| Text.LowerChar | src/components/ui/TableWithActions.tsx:78 | the lower case of a Basic Latin or Latin-1 capital is 0x20 above it; every other character is unchanged; the result is never a capital |
| Text.ToLower | src/components/ui/TableWithActions.tsx:78 | `toLowerCase` keeps the length, maps each character through `LowerChar`, and leaves no capital |
| Text.ToLowerKeeps | src/components/ui/TableWithActions.tsx:78 | lower-casing keeps whitespace in place, leaves text without capitals unchanged, and is idempotent |
| Text.ToLowerAppend | src/components/ui/TableWithActions.tsx:78 | lower-casing distributes over concatenation |
| Text.LexLeTotal | src/pages/Tiendas.tsx:362-365 | for any two names, one of them may come first in the name order |
| Text.LexLeTransitive | src/pages/Tiendas.tsx:362-365 | the name order is transitive |
| Text.LexLeAntisymmetric | src/pages/Tiendas.tsx:362-365 | two names that may each come before the other are equal |
| Text.NatToString | src/pages/Tiendas.tsx:260 | the decimal rendering of a count is a non-empty string of digits that starts with `0` exactly when the count is 0, so it has no leading zero |
| Text.NatToStringRoundTrip | src/pages/Tiendas.tsx:260 | reading the rendered digits back gives the number |
| Http.JoinAll | src/pages/Tiendas.tsx:258 | `Promise.all` fulfils exactly when every promise fulfilled; otherwise it rejects with the earliest rejection, and everything before that fulfilled |
| Http.Sent | src/pages/Tiendas.tsx:64-67 | awaiting `fetch` rejects exactly on a network failure |
| Http.Parsed | src/pages/Tiendas.tsx:69 | awaiting `res.json()` rejects exactly on a body that does not parse |
| Registration.RuleMessage | src/hooks/useRegistration.tsx:88-107 | every rule has a non-empty message, so a rejected form always shows one |
| Registration.ValidateReportsFirstFailure | src/hooks/useRegistration.tsx:88-112 | the reported rule fails and every earlier rule passes; the form is accepted exactly when no rule fails, and then carries its compressed photo |
| Registration.PhoneAccepted | src/hooks/useRegistration.tsx:93 | the phone check accepts exactly nine ASCII digits after trimming |
| Registration.DniAccepted | src/hooks/useRegistration.tsx:97 | the DNI check accepts exactly 8 to 11 ASCII digits after trimming |
| Registration.TextLengthsAccepted | src/hooks/useRegistration.tsx:89-101 | for text inside the Basic Multilingual Plane, a name is accepted exactly at 1 to 45 characters and a voucher exactly at 6 to 20 |
| Registration.MissingPhotoRejected | src/hooks/useRegistration.tsx:105-107 | a form without a compressed photo is never accepted; once the four text fields pass, the photo rule rejects it |
| Registration.Endpoint | src/hooks/useRegistration.tsx:115 | the claim endpoint is used exactly when a store id is present, and the register-only endpoint otherwise |
| Registration.BuildPayload | src/hooks/useRegistration.tsx:146-163 | every text field is posted trimmed, with the campaign and the uploaded photo URL; `storeId` is present exactly in claim mode and is then the route's store id |
| Registration.UploadStep | src/hooks/useRegistration.tsx:122-143 | the upload produces a URL exactly for an ok status with a JSON body; a non-ok status produces "Error en la subida : status - text" |
| Registration.ReplyEffects | src/hooks/useRegistration.tsx:166-196 | an ok reply navigates to the exit page, carrying the prize name (with its default) and the photo URL only for a claim; a non-ok reply shows `❌ ` and the server's message, or "Error en el registro" without one; a failed request shows the connection message |
| Registration.SubmitEffects | src/hooks/useRegistration.tsx:76-197 | every submission first clears the message |
| Registration.RejectedFormStopsEarly | src/hooks/useRegistration.tsx:109-112 | a rejected form ends by showing the failing rule's message; it only sets messages and never touches `loading` |
| Registration.PostOnlyAfterUpload | src/hooks/useRegistration.tsx:115-171 | the registration is posted exactly when the form is accepted and the upload succeeded; it is posted once, right after the upload, to the chosen endpoint, with the trimmed payload |
| Registration.UploadFailureStops | src/hooks/useRegistration.tsx:138-143 | a failed upload shows the upload message, switches `loading` off and posts nothing |
| Registration.LoadingUntouched | src/hooks/useRegistration.tsx:109-112 | effects that do not set `loading` leave its replayed value unchanged |
| Registration.SubmitFinalState | src/hooks/useRegistration.tsx:109-196 | after a rejected form, `loading` is as it was and the rule's message is shown; after an accepted form, `loading` is off |
| Registration.ValidationError | src/hooks/useRegistration.tsx:81-107 | the validation block gives the failing rule's message, or "" exactly when the form is accepted |
| Registration.SendPhoto | src/hooks/useRegistration.tsx:119-143 | the upload block gives the photo URL or the error message, exactly as `UploadStep` |
| Registration.RegistrationHook.constructor | src/hooks/useRegistration.tsx:30-44 | the initial state: empty fields, no photo, `loading` off, empty message |
| Registration.RegistrationHook.Emit | src/hooks/useRegistration.tsx:30-34 | a state setter updates its field and the effect is recorded |
| Registration.RegistrationHook.HandleFileChange | src/hooks/useRegistration.tsx:47-73 | no file clears the photo; a compressed image replaces it; a failed compression shows its message and keeps the previous photo |
| Registration.RegistrationHook.HandleSubmit | src/hooks/useRegistration.tsx:76-197 | the submission performs exactly `SubmitEffects` of the current form, and `loading` and `message` stay consistent with the effects |
| Registration.RegistrationHook.SubmitAccepted | src/hooks/useRegistration.tsx:115-197 | an accepted form uploads, then either reports the upload error or posts the payload |
| Registration.RegistrationHook.UploadFailedStep | src/hooks/useRegistration.tsx:138-142 | a failed upload shows its message and then switches `loading` off |
| Registration.RegistrationHook.PostRegistrationStep | src/hooks/useRegistration.tsx:166-196 | the post, the handling of its reply, and `loading` off in `finally` |
| Registration.RegistrationHook.HandleReply | src/hooks/useRegistration.tsx:173-193 | the reply's effects are exactly `ReplyEffects` |
| EditStoreModal.MapToEdit | src/components/ui/EditStoreModal.tsx:78-83 | the mapping keeps the length and order, and renames each prize's fields to the edit shape |
| EditStoreModal.MapToEditAppend | src/components/ui/EditStoreModal.tsx:78-83 | the mapping distributes over concatenation |
| EditStoreModal.Listed | src/components/ui/EditStoreModal.tsx:75 | a `prizes` member that is not an array gives an empty list |
| EditStoreModal.FetchPrizesResult | src/components/ui/EditStoreModal.tsx:62-91 | the prizes load exactly for an ok reply with `success` and `data`; otherwise the message is the body's or the default; a network failure keeps its own error |
| EditStoreModal.TotalAppend | src/components/ui/EditStoreModal.tsx:44-47 | the total of available stock is additive over concatenation |
| EditStoreModal.TotalNonNegative | src/components/ui/EditStoreModal.tsx:44-47 | with no negative stock, the total is not negative |
| EditStoreModal.Quantity | src/components/ui/EditStoreModal.tsx:104 | the entered quantity is never negative; `NaN` or a negative number gives 0; a non-negative number is kept |
| EditStoreModal.ChangeStock | src/components/ui/EditStoreModal.tsx:106-110 | only the chosen stock field of the rows with the id changes; ids, names, the other field, the other rows and the length are kept |
| EditStoreModal.ChangeStockIdempotent | src/components/ui/EditStoreModal.tsx:106-110 | applying the same edit twice is applying it once |
| EditStoreModal.ChangeStockKeepsNonNegative | src/components/ui/EditStoreModal.tsx:104-110 | with the clamped quantity, every stock stays non-negative |
| EditStoreModal.TotalAfterChange | src/components/ui/EditStoreModal.tsx:44-47 | editing the initial stock leaves the total as it was; editing the available stock replaces those rows' share of the total by the new quantity |
| EditStoreModal.Modal.constructor | src/components/ui/EditStoreModal.tsx:38-41 | the initial state of the dialog |
| EditStoreModal.Modal.Sync | src/components/ui/EditStoreModal.tsx:50-95 | hidden or without data, the prizes are emptied and the error cleared; otherwise the name is taken and the prizes are loaded (or the error is kept), ending with `loading` off |
| EditStoreModal.Modal.HandlePrizeChange | src/components/ui/EditStoreModal.tsx:98-111 | the prizes become `ChangeStock` with the clamped quantity |
| EditStoreModal.Modal.HandleSubmit | src/components/ui/EditStoreModal.tsx:113-121 | nothing is submitted without data; otherwise exactly the current name and prizes are |
| Stores.CountFor | src/pages/Tiendas.tsx:89 | a store's count comes from the counts map, and is 0 when the store is missing |
| Stores.MergeCounts | src/pages/Tiendas.tsx:86-90 | the merge keeps every row and its position, and changes only the count |
| Stores.MergeCountsIdempotent | src/pages/Tiendas.tsx:86-90 | merging twice with the same counts is merging once |
| Stores.CountsOf | src/pages/Tiendas.tsx:83 | missing `data` or `counts` gives the empty map; present counts are used as they are |
| Stores.LoadRows | src/pages/Tiendas.tsx:59-99 | rows load exactly when both requests were answered and parsed and the store reply is ok with a store array; the rows are then the merge with the counts; otherwise the error is the body's message or the default |
| Stores.MissingCountsShowZero | src/pages/Tiendas.tsx:77-83 | a counts reply without counts is not an error, and every row then counts 0 |
| Stores.SumStockAppend | src/pages/Tiendas.tsx:152 | the sum of the entered stocks is additive over concatenation |
| Stores.NewStoreRow | src/pages/Tiendas.tsx:145-153 | the new row is active, created and updated now, and counts the sum of the entered stocks |
| Stores.StoreCreateResult | src/pages/Tiendas.tsx:110-120 | the store id is used exactly for an ok, parsed reply with a non-empty `storeId`; otherwise the error is the body's message or the default |
| Stores.CreatePrizeRequests | src/pages/Tiendas.tsx:122-130 | one prize creation per entered prize, in order, for the new store, with its description |
| Stores.PrizeCreateSettled | src/pages/Tiendas.tsx:128-137 | a prize creation succeeds exactly on an ok reply with a parsable body; a non-ok status rejects with the body's message or a default naming the prize |
| Stores.PrizeOutcomes | src/pages/Tiendas.tsx:122-139 | one outcome per prize, in order |
| Stores.DeleteError | src/pages/Tiendas.tsx:167-195 | a deactivation succeeds exactly on an ok status; 404 has its own message; any other failure gives the body's message or the default |
| Stores.MarkInactive | src/pages/Tiendas.tsx:185-186 | the map step keeps the length, sets `is_active` to false on every row with the deleted id, and leaves every other row as it was |
| Stores.DeactivateLocalIsFilter | src/pages/Tiendas.tsx:184-188 | map-then-filter keeps, in order, exactly the rows that have another id and were already active |
| Stores.OthersActiveMembers | src/pages/Tiendas.tsx:184-188 | a row survives exactly when it has another id and is active; the table never grows |
| Stores.OthersActiveIdempotent | src/pages/Tiendas.tsx:184-188 | deactivating the same store again changes nothing |
| Stores.UpdateRequests | src/pages/Tiendas.tsx:212-256 | there is one request per prize, plus one when the name changed |
| Stores.UpdateRequestsShape | src/pages/Tiendas.tsx:212-256 | a rename is sent exactly when the name changed, and only first; the prize updates follow in prize order with name and available stock |
| Stores.BuildUpdateRequests | src/pages/Tiendas.tsx:212-256 | the pushes produce exactly `UpdateRequests` |
| Stores.UpdateSettled | src/pages/Tiendas.tsx:217-254 | a request succeeds exactly on an ok, parsed reply with `success`; otherwise it fails with the body's message or the request's default |
| Stores.UpdateOutcomes | src/pages/Tiendas.tsx:212-258 | one outcome per request, in order |
| Stores.UpdateSavedIffAllAccepted | src/pages/Tiendas.tsx:258 | the update is saved exactly when every request was accepted; otherwise its error is one request's own failure |
| Stores.ReplaceById | src/pages/Tiendas.tsx:266-277 | the rows with the store's id take the new name, the prizes, the update time and the total of available stock; every other row and field is unchanged |
| Stores.ReplaceByIdIdempotent | src/pages/Tiendas.tsx:266-277 | saving the same edit again changes nothing more |
| Stores.FindById | src/pages/Tiendas.tsx:292 | `find` gives the first row with the id, or nothing exactly when no row has it |
| Stores.EditPrizesResult | src/pages/Tiendas.tsx:300-314 | the prizes load exactly for an ok reply with `success` and a `prizes` array, mapped to the edit shape; otherwise the error is the body's message or the default |
| Stores.BeforeTotal | src/pages/Tiendas.tsx:352-367 | any two rows are comparable in either display order |
| Stores.BeforeTransitive | src/pages/Tiendas.tsx:352-367 | both display orders are transitive |
| Stores.Insert | src/pages/Tiendas.tsx:352-367 | inserting into a sorted table keeps it sorted and adds exactly that row |
| Stores.SortRows | src/pages/Tiendas.tsx:352-367 | the sorted table is ordered and is a permutation of the table |
| Stores.SortedPairwise | src/pages/Tiendas.tsx:352-367 | in a sorted table, every row may come before every later row |
| Stores.SortKeepsRows | src/pages/Tiendas.tsx:352-367 | sorting keeps the number of rows and the set of rows |
| Stores.InsertStable | src/pages/Tiendas.tsx:352-367 | an inserted row comes after the rows it ties with and before the rows that strictly follow it |
| Stores.SortRowsStable | src/pages/Tiendas.tsx:352-367 | the sort is stable: for any row, the rows tied with it appear in the same order before and after sorting |
| Stores.StoresPage.constructor | src/pages/Tiendas.tsx:43-53 | the initial page state: no rows, loading, no error or message, dialogs closed, newest first |
| Stores.StoresPage.FetchData | src/pages/Tiendas.tsx:59-99 | both lists are requested; the merged rows replace the table, or the prefixed error is shown and the table is kept; `loading` ends off |
| Stores.StoresPage.HandleCreate | src/pages/Tiendas.tsx:103-164 | the store is posted, then its prizes; only when all succeed is the new row put first and the dialog closed; a failure goes back to the caller and leaves the table as it was |
| Stores.StoresPage.HandleDelete | src/pages/Tiendas.tsx:167-196 | a deactivated store is removed locally with the success message; a failure shows its error and keeps the table |
| Stores.StoresPage.HandleUpdate | src/pages/Tiendas.tsx:199-286 | without a selected store the error is shown and nothing is sent; otherwise exactly `UpdateRequests` are sent, and the row is replaced only when every request succeeded |
| Stores.StoresPage.SettleUpdate | src/pages/Tiendas.tsx:258-283 | the outcome of the update's requests decides between the prefixed error and the local replacement |
| Stores.StoresPage.HandleEdit | src/pages/Tiendas.tsx:291-328 | an unknown id does nothing; otherwise the store's prizes are requested, and the dialog opens on the row carrying them, or the error is shown and the selection cleared |
| Stores.StoresPage.SortedData | src/pages/Tiendas.tsx:352-367 | the displayed rows are ordered by the chosen order, are a permutation of the table, and rows the comparator ties keep their order, as the stable `Array.prototype.sort` keeps them |
| TableWithActions.BaseUrl | src/components/ui/TableWithActions.tsx:35 | the configured base URL when it is non-empty, and the production URL otherwise |
| TableWithActions.ShareUrl | src/components/ui/TableWithActions.tsx:46 | the link is the base, a `/`, then the store id |
| TableWithActions.StoreIdOf | src/components/ui/TableWithActions.tsx:96 | the inverse of the share link, as the `/:storeId` route of src/App.tsx:24 reads it back: an id read off a link is one whose share link is that link |
| TableWithActions.StoreIdRoundTrip | src/components/ui/TableWithActions.tsx:96 | the id comes back out of its share link |
| TableWithActions.ShareUrlInjective | src/components/ui/TableWithActions.tsx:169 | different stores get different links, and so different QR codes |
| TableWithActions.CopyNotice | src/components/ui/TableWithActions.tsx:44-66 | a successful copy reports the link; each failing path shows its own error |
| TableWithActions.CollapseNoSpace | src/components/ui/TableWithActions.tsx:78 | no whitespace survives the replacement |
| TableWithActions.CollapseKeepsSpaceFree | src/components/ui/TableWithActions.tsx:78 | a name without whitespace is not changed by the replacement |
| TableWithActions.TrimStartAppend | src/components/ui/TableWithActions.tsx:78 | a whitespace run is matched maximally and ends where other text begins |
| TableWithActions.CollapseAppend | src/components/ui/TableWithActions.tsx:78 | the replacement works one run at a time: cutting right after a non-whitespace character splits no run |
| TableWithActions.CollapseLeadingRun | src/components/ui/TableWithActions.tsx:78 | a leading whitespace run becomes one underscore |
| TableWithActions.CollapseRun | src/components/ui/TableWithActions.tsx:78 | one whitespace run between two parts becomes exactly one underscore |
| TableWithActions.SafeName | src/components/ui/TableWithActions.tsx:78 | the safe name has no whitespace and no capitals, and is no longer than the name |
| TableWithActions.CollapseShorter | src/components/ui/TableWithActions.tsx:78 | the replacement never lengthens a name |
| TableWithActions.QrFilename | src/components/ui/TableWithActions.tsx:79 | the file name is `qr-`, then the safe name, then `.png` |
| TableWithActions.SafeNameOfTwoWords | src/components/ui/TableWithActions.tsx:78 | two words separated by whitespace give the lower-cased words joined by one `_` |
| TableWithActions.DownloadQr | src/components/ui/TableWithActions.tsx:68-80 | without a rendered canvas the error notice is shown; otherwise the image is saved under `QrFilename` |

## Left out

- Rendering, animation, DOM access, `alert` and the clipboard are not modelled. Their outcome enters as a parameter where it matters, as in `CopyOutcome` and the set of rendered canvases.
- Timers are not modelled, such as the two-second clearing of the page message.
- Concurrency and timing are not modelled.
  - Requests are replies handed in.
  - `Promise.all` takes its outcomes in list order. The real rejection is the first one to settle in time, so when several requests fail, the message may differ.
- Image compression and its options are not modelled. The compressed file is an input.
- `new Date()` is not modelled. The current time is an integer parameter. `created_at` strings are compared as integers, so invalid dates (`NaN` in the source) are not modelled.
- `Number(value)` parsing is an input: `Option<int>`, with `None` standing for `NaN`. Fractional quantities are not modelled. Stock values from the back end are assumed to be numbers.
- Text.ToLower: covers only Basic Latin and Latin-1 capitals. The full Unicode case mapping of `toLowerCase` is not modelled, including mappings that change the length.
- Text.LexLe: `localeCompare` is modelled as code-point order. Locale collation is not modelled.
- Registration.SendPhoto: the upload error is the error's message. The "Error desconocido." case for thrown values that are not `Error` objects is not modelled.
- Registration.RegistrationHook.HandleSubmit: the source's single handler is split into `SubmitAccepted`, `UploadFailedStep`, `PostRegistrationStep`, `HandleReply`, `ValidationError` and `SendPhoto`. Together they follow the handler's steps in order. The `compressing` and `preview` state of the hook are not modelled.
- The catch in `handleEditWrapper` is not modelled: `handleEdit` catches every error itself, so that catch never runs.
- The pages `RegisterPage`, `ExitPage` and `App` (routing) are not part of this model. Neither are the roulette angle computation and the new-store dialog.

## Behaviour worth noting

The model follows the code in each of these cases.

- **Failed compression.** A failed compression shows its message and keeps any photo compressed earlier; it does not block the submission (`useRegistration.tsx:66-69`).
- **Deactivated row.** After a delete, the row is marked inactive and then filtered out of `data`, so it leaves the table (`Tiendas.tsx:184-188`).
- **Prize counts.**
  - The counts are used whenever `data.counts` is present, even when the counts response was not ok (`Tiendas.tsx:77-83`).
  - The comment at `Tiendas.tsx:79` says an empty map is used when counting fails. That holds only for a reply without `data.counts`. A network failure on the counts request, or a counts body that does not parse, still fails the whole load, because both requests share one `Promise.all` (`Tiendas.tsx:64-69`).
