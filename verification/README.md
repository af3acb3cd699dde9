# FamilyVault in Dafny

FamilyVault is a family photo and video vault that runs in the browser. A small
roster of profiles signs in with four-digit PINs. Media files go to a Google
Drive folder, and an image model captions pictures. The roster and the media
catalog are kept either in a Supabase project (the "remote" provider) or in the
browser's local storage (the "local" provider).

This project models the application's core as pure transitions over immutable
data:

- **The reconciliation engine of `App.tsx`** (`Reconciler`). It covers start-up,
  `loadData` with its missing-tables fallback and roster seeding, and
  `loadLocalData`. It covers the profile and catalog mutations and the routing
  rule that decides whether a write goes to the remote tables. It also covers
  the three persistence effects that mirror state into local storage.
- **The Supabase adapter** (`SupabaseService`). It covers client construction,
  the missing-table classifier, and list, save and delete for both tables. The
  client library is an oracle: its replies are parameters, and each call reports
  the request it sent.
- **The Google Drive client** (`DriveService`). It covers the preview and
  download URLs, the `JSON.stringify` of the upload metadata, and the
  `multipart/related` request body. The body's delimiters follow section 5.1.1
  of RFC 2046; `multipart/related` itself is defined in RFC 2387. It also covers
  the error mapping of the reply.
- **The image-analysis client** (`GeminiService`). It covers the supported-type
  guard and the fallbacks.
- **The components' handlers**:
  - `Uploader`: the upload flow and the catalog entry it builds;
  - `AdminDashboard`: the profile form, the delete buttons, avatar upload and
    the configuration form;
  - `Gallery`: lightbox navigation, key handling and rendering decisions;
  - `UserSelector`: the PIN check;
  - `PinInput`: the PIN field filter shared by the two forms.
- **`AppFlows`** wires the components to the engine, as `App.tsx` does.

Shared pieces:

- `Base`: `Option`, `Result`, and JavaScript truthiness of an optional string.
- `Strings`: `startsWith`, `includes`, `replace(/\D/g, '')`, `trim` and number
  formatting, written out.
- `Collections`: `findIndex`, replace-or-append, and `filter` by id.
- `LocalStore`: local storage as a map from keys to already-parsed values.
- `Types` and `Constants`: the records of `types.ts` and the values of
  `constants.ts`.

Every remote reply is a parameter: Supabase query and write results, the
`fetch` reply of the Drive upload, and the model's answer. So are file reads,
`window.confirm`, `crypto.randomUUID()` and `Date.now()`. A transition that
contacts the remote tables returns the requests it sent, in order.

## Model

| member | source | states |
|---|---|---|
| Constants.InitialUsers | constants.ts:4-15 | the default roster is one entry: the root administrator, with role admin and a PIN of exactly four digits |
| Collections.FindIndex | App.tsx:137 | the result is the first position holding the id, or -1 exactly when no entry holds it |
| Collections.UpsertById | App.tsx:136-144 | an existing id is replaced at the same index with every other entry unchanged; an absent id is appended at the end |
| Collections.RemoveById | App.tsx:160 | no entry with the id is left, every other entry survives, nothing new appears, and an absent id leaves the sequence unchanged |
| Collections.RemoveByIdAppend | App.tsx:181 | filtering distributes over concatenation, so survivors keep their relative order |
| Collections.RemoveByIdIdempotent | App.tsx:181 | deleting the same id twice leaves what deleting it once left |
| Collections.LookupAfterRemove | App.tsx:160 | after a delete, the id is gone and every other id finds what it found before |
| Collections.LookupAfterUpsert | App.tsx:136-144 | after an upsert, the id finds the new entry and every other id finds what it found before |
| Collections.UpsertKeepsKeysUnique | App.tsx:136-144 | upserting into a roster with unique ids keeps ids unique and adds exactly the new id to the id set |
| Collections.UpsertAllLatestWins | App.tsx:135-144 | after a series of upserts each id finds its latest upserted entry, or its original entry if never upserted |
| Collections.UpsertAllSnoc | App.tsx:135-144 | a series of upserts followed by one more is the series extended by that upsert |
| LocalStore.PutUsers | App.tsx:84 | writing the roster slot sets it and leaves the catalog, configuration and session slots unchanged |
| LocalStore.PutMedia | App.tsx:115 | writing the catalog slot sets it and leaves the other three slots unchanged |
| LocalStore.PutConfig | App.tsx:120 | writing the configuration slot sets it and leaves the other three slots unchanged |
| LocalStore.PutSession | App.tsx:125 | writing the session slot sets it and leaves the other three slots unchanged |
| LocalStore.RemoveSession | App.tsx:130 | removing the session slot empties it and leaves the other three slots unchanged |
| Strings.Contains | services/supabaseService.ts:29 | `includes` holds exactly when some position starts an occurrence |
| Strings.KeepDigits | components/AdminDashboard.tsx:167 | the result is digits only, keeps every digit of the input as often as it occurs there, and equals the input exactly when the input is all digits |
| Strings.NatToString | services/driveService.ts:60 | the status text is non-empty digits without a leading zero |
| Strings.NatToStringRoundTrip | services/driveService.ts:60 | reading the status text back gives the status |
| Strings.TrimStart | services/geminiService.ts:64 | the result is a suffix of the input, and exactly the leading whitespace is dropped |
| Strings.TrimEnd | services/geminiService.ts:64 | the result is a prefix of the input, and exactly the trailing whitespace is dropped |
| Strings.TrimEmptyIffBlank | services/geminiService.ts:64-67 | a trimmed reply is empty exactly when the reply is whitespace only |
| PinInput.FilterPin | components/UserSelector.tsx:41-45 | given the field's value at one change event, before the four-character cut, the field holds at most four digits: every digit among that value's first four characters, as often as it occurs there, and nothing else; four digits pass unchanged |
| PinInput.FilterPinIdempotent | components/AdminDashboard.tsx:167 | filtering a filtered value changes nothing, and a well-formed PIN passes unchanged |
| SupabaseService.InitSupabase | services/supabaseService.ts:7-25 | a client exists exactly when the provider is remote, the URL is non-empty and starts with "http", the key is non-empty and construction did not throw; it carries that URL and key |
| SupabaseService.IsTableMissingError | services/supabaseService.ts:28-30 | the classifier holds exactly when the code is PGRST116 or the message contains "cache" or "not find" |
| SupabaseService.ReadTable | services/supabaseService.ts:32-44 | without a client there is no request and no data or error type; an error reply gives null data with "missing tables" when the classifier flags it and "other" otherwise; a thrown call gives null data and "other"; a clean reply passes its data through |
| SupabaseService.GetUsers | services/supabaseService.ts:32-44 | the roster read selects the users table, unordered; without a client it returns null data and no error type |
| SupabaseService.GetMedia | services/supabaseService.ts:61-73 | the catalog read selects the media table, newest timestamp first; without a client it returns null data and no error type |
| SupabaseService.SaveUser | services/supabaseService.ts:46-53 | a user save is an upsert that raises exactly the reply's error; without a client nothing is sent |
| SupabaseService.DeleteUser | services/supabaseService.ts:55-59 | a user delete targets the id and never raises |
| SupabaseService.SaveMedia | services/supabaseService.ts:75-82 | a media save is a plain insert that raises exactly the reply's error; without a client nothing is sent |
| SupabaseService.DeleteMedia | services/supabaseService.ts:84-88 | a media delete targets the id and never raises |
| Reconciler.Mirror | App.tsx:107-121 | after the effects, the roster and catalog slots equal memory when the configured provider is local, the configuration slot always does, and nothing but storage changes |
| Reconciler.LoadLocalData | App.tsx:75-86 | a saved catalog is adopted, otherwise the catalog in memory stays; a saved roster is adopted, otherwise the default roster is adopted and saved |
| Reconciler.SeedUsers | App.tsx:59-66 | the seeding upserts go out in roster order, and the loop stops right after the first refused upsert |
| Reconciler.LoadData | App.tsx:42-73 | the warning is cleared; without a client the load is local with no request; with one, both tables are read, missing tables give the warning plus the local load, a non-empty roster is adopted verbatim, any other roster result seeds the default roster, and a returned catalog is adopted |
| Reconciler.Startup | App.tsx:88-105 | the saved or built-in configuration is loaded, and the roster, catalog, warning and client are those the load produced; the saved session is restored as stored, initialisation ends, and the effects persist |
| Reconciler.HandleAddUser | App.tsx:135-155 | the roster is upserted, one upsert is sent only when writes are routed remotely and a client exists, and the session follows an edit of the signed-in profile |
| Reconciler.HandleDeleteUser | App.tsx:157-165 | the root id or a declined confirm changes nothing and sends nothing; otherwise every entry with the id goes and one delete is sent when routed |
| Reconciler.HandleSaveConfig | App.tsx:167-170 | the new configuration is adopted and the whole load is rerun against it |
| Reconciler.AddMediaItem | App.tsx:172-177 | the catalog becomes the item followed by the old catalog, and one insert is sent only when routed |
| Reconciler.DeleteMediaItem | App.tsx:179-186 | a declined confirm changes nothing; otherwise every item with the id goes and one delete is sent when routed |
| Reconciler.HandleUserSelect | App.tsx:123-126 | the profile is signed in and remembered in the session slot, nothing else changes |
| Reconciler.HandleLogout | App.tsx:128-133 | nobody is signed in and the session slot is empty, nothing else changes |
| Reconciler.WriteFailureNeverRollsBack | App.tsx:146-147 | memory and local storage after every mutation are the same whatever the remote write answers |
| Reconciler.RootAdminSurvives | App.tsx:158 | once present, the root administrator stays in the roster through every upsert and delete |
| Reconciler.FallbackItemsReachNoBackend | App.tsx:108-117 | after the missing-tables fallback a new item is neither sent remotely nor mirrored locally |
| Reconciler.UnconfiguredRemoteWritesNowhere | App.tsx:174-175 | with the remote provider set but no client, writes reach neither the remote tables nor local storage |
| Reconciler.LocalModeNeverContactsRemote | App.tsx:70-72 | with the local provider a load sends nothing and is exactly the local load, seeding an empty store |
| Reconciler.OtherReadErrorSeedsDefaultRoster | App.tsx:56-67 | a roster read failing for a reason other than missing tables still adopts and upserts the default roster |
| Reconciler.MissingTablesBehavesLikeLocal | App.tsx:50-54 | with missing tables, the roster, catalog and storage equal those of a local-provider load; only the warning differs |
| Reconciler.LoadDataIdempotent | App.tsx:42-73 | loading twice with the same configuration and the same answers leaves the state of loading once |
| DriveService.PreviewUrl | services/driveService.ts:67-71 | an empty id gives an empty URL; otherwise the id sits between the thumbnail prefix and the size suffix |
| DriveService.DownloadUrl | services/driveService.ts:73-76 | an empty id gives an empty URL; otherwise the URL is the download prefix followed by the id |
| DriveService.PreviewUrlInjective | services/driveService.ts:67-71 | distinct files have distinct preview URLs |
| DriveService.DownloadUrlInjective | services/driveService.ts:73-76 | distinct files have distinct download URLs |
| DriveService.EscapeChar | services/driveService.ts:35 | no escaped character contains a line break |
| DriveService.EscapeBody | services/driveService.ts:35 | an escaped string contains no line break |
| DriveService.JsonString | services/driveService.ts:35 | a string written as JSON contains no line break |
| DriveService.UnescapeEscapeBody | services/driveService.ts:35 | reading an escaped string back gives the original string |
| DriveService.MetadataJson | services/driveService.ts:8-13 | the metadata JSON contains no line break |
| DriveService.MetadataJsonReadBack | services/driveService.ts:8-13 | the metadata JSON carries the file name, the folder id as the only parent, and the MIME type, and they read back exactly |
| DriveService.MetadataJsonInjective | services/driveService.ts:8-13 | different metadata never gives the same JSON |
| DriveService.MultipartLayout | services/driveService.ts:16-40 | the body starts with the delimiter and ends with the close delimiter, with the metadata right after the JSON part header and the data right before the close delimiter |
| DriveService.DelimiterNeverInsideParts | services/driveService.ts:32-40 | no delimiter occurs inside the metadata JSON or the base64 data, so neither part can end early |
| DriveService.ApiErrorMessage | services/driveService.ts:54-60 | an unreadable body gives "Unknown error", the API's message wins when present, and otherwise the message is exactly "Upload failed (", the status in decimal, and ")" |
| DriveService.UploadFileToDrive | services/driveService.ts:4-65 | without a folder id and key nothing is read or sent; otherwise the multipart POST goes to the endpoint with the key; 401 and 403 give access denied; other failures give the API message; a 2xx reply with an id gives that id |
| GeminiService.AnalyzeMedia | services/geminiService.ts:12-75 | the model is called exactly for the five supported types; unsupported types get the two-tag fallback; a failed, missing, blank or unparsable answer gets the one-tag fallback; it never fails |
| GeminiService.OnlyImagesReachModel | services/geminiService.ts:4-10 | every supported type is an image type |
| GeminiService.BlankAnswerFallsBack | services/geminiService.ts:64-67 | a whitespace-only answer is treated as a failure |
| Uploader.DefaultMetadata | components/Uploader.tsx:54-57 | the default description is the file name, tagged Video for video types and Gallery otherwise |
| Uploader.ProgressTrace | components/Uploader.tsx:29-93 | the handler sets 5 and 20 while uploading; a failed upload then sets only 0 with the error (three values); once the upload is through it sets 60 while analysing and one last value, 95 completed for a finished run, else 0 with the error (four values) |
| Uploader.HandleFileChange | components/Uploader.tsx:18-26 | without a file, or without both a folder id and an API key, nothing is shown, uploaded or added; otherwise exactly one upload is started |
| Uploader.StartedUpload | components/Uploader.tsx:28-98 | the file goes to the blob store; the progress values set are the trace of the stage the run reached (failed upload, failed second read, or finished); an item is produced exactly when the upload succeeds and the file is read again |
| Uploader.CatalogEntry | components/Uploader.tsx:43-80 | the item's id and url are the stored file's id, it is a video exactly for video types, it keeps the file's name, size, owner and time, only images are analysed, and other files get the default metadata |
| Uploader.GuardPrecludesConfigError | components/Uploader.tsx:23-26 | an upload started by the uploader never fails for missing configuration |
| Uploader.ProgressIsMonotone | components/Uploader.tsx:29-98 | every progress value names the picked file, progress only rises until an error, and the last value is an error exactly when the run did not finish |
| Uploader.CompletedItemIsAnnotated | components/Uploader.tsx:54-80 | a completed item has a description and tags, and a video is described by its file name and tagged Video |
| AdminDashboard.EditUser | components/AdminDashboard.tsx:61-67 | editing loads the profile's id, name, PIN and avatar into the form and shows the accounts tab |
| AdminDashboard.ResetUserForm | components/AdminDashboard.tsx:69-75 | the form is emptied and nothing else on the sheet changes |
| AdminDashboard.TypePin | components/AdminDashboard.tsx:167 | after one change event the field holds a well-formed PIN, and nothing else on the sheet changes |
| AdminDashboard.SubmitUser | components/AdminDashboard.tsx:102-115 | submission is refused without a name or with fewer than four PIN characters; otherwise the edited or a fresh id, admin role exactly when editing the root administrator, a seeded avatar when none is set, the default colour, and an emptied form |
| AdminDashboard.SubmittedPinIsFourDigits | components/AdminDashboard.tsx:104 | a PIN typed into the form and accepted on submit is exactly four digits |
| AdminDashboard.FormGrantsAdminOnlyToRoot | components/AdminDashboard.tsx:110 | a submitted profile is an administrator exactly when it carries the root id |
| AdminDashboard.EditKeepsId | components/AdminDashboard.tsx:107 | submitting an edited profile keeps its id |
| AdminDashboard.EditedPinKeptAsStored | components/AdminDashboard.tsx:61-104 | an edited profile with a name and a stored PIN of four or more characters is accepted untouched and keeps that PIN, whatever its shape |
| AdminDashboard.DeletableIds | components/AdminDashboard.tsx:228-241 | every listed profile except the root administrator gets a delete button, and no button targets an unlisted id |
| AdminDashboard.HandleAvatarFileChange | components/AdminDashboard.tsx:77-100 | missing storage settings switch to the configuration tab and send nothing; a successful upload sets the avatar to the file's preview URL; a failure leaves the form as it was |
| AdminDashboard.ToggleRemoteSync | components/AdminDashboard.tsx:302-303 | checked selects the remote provider and unchecked the local one, keeping the URL and key |
| AdminDashboard.ToggleRoundTrip | components/AdminDashboard.tsx:302-303 | switching remote sync away and back restores the settings |
| AdminDashboard.EditSetting | components/AdminDashboard.tsx:259-326 | each text field replaces exactly its own setting |
| AdminDashboard.HandleSave | components/AdminDashboard.tsx:117-120 | the saved configuration is the edited one marked active |
| Gallery.Mount | components/Gallery.tsx:12 | the gallery mounts with nothing selected |
| Gallery.JsRemainder | components/Gallery.tsx:24 | a remainder by zero is NaN; otherwise a non-negative number's remainder lies in range |
| Gallery.NextPrevInverse | components/Gallery.tsx:23-29 | within a non-empty catalog, next and previous stay in range, wrap around at the ends, and undo each other |
| Gallery.OpenAt | components/Gallery.tsx:62 | clicking a tile selects its index and keeps the state valid |
| Gallery.ShowNext | components/Gallery.tsx:23-25 | with nothing selected nothing happens; otherwise the index moves to (i+1) mod n and stays valid |
| Gallery.ShowPrev | components/Gallery.tsx:27-29 | with nothing selected nothing happens; otherwise the index moves to (i-1+n) mod n and stays valid |
| Gallery.CloseLightbox | components/Gallery.tsx:90 | Done clears the selection |
| Gallery.KeyDown | components/Gallery.tsx:31-40 | keys do nothing with nothing selected; the arrows step like the buttons while the state is valid; Escape clears the selection |
| Gallery.Caption | components/Gallery.tsx:124 | the caption is the description when non-empty, else the file name |
| Gallery.DetailOf | components/Gallery.tsx:14-21 | the lightbox previews and downloads through the item's stored file id, under the item's file name |
| Gallery.Render | components/Gallery.tsx:42-134 | an empty catalog shows only the empty state; otherwise one tile per item in order, and the lightbox shows the selected item |
| Gallery.ValidNeverCrashes | components/Gallery.tsx:87-92 | while the selection points at an item, the lightbox render never throws |
| Gallery.ItemsChangedAsWritten | components/Gallery.tsx:12 | a new catalog leaves the selection and the key listener untouched |
| Gallery.DeletingShownLastItemCrashes | components/Gallery.tsx:92 | deleting the last of two items from its own lightbox leaves an index that the next render reads past the end |
| Gallery.ItemsChanged | components/Gallery.tsx:12-40 | on a new catalog, an index that still points at an item is kept and any other closes the lightbox; the state is valid for the new catalog |
| Gallery.DeletingShownItemIsSafe | components/Gallery.tsx:101 | with the corrected handling, deleting from the lightbox never makes the next render throw |
| UserSelector.PickProfile | components/UserSelector.tsx:91 | picking a profile shows its PIN pad and keeps the typed PIN and the error line |
| UserSelector.TypePin | components/UserSelector.tsx:45 | the field only ever holds a well-formed PIN |
| UserSelector.HandleLogin | components/UserSelector.tsx:16-26 | sign-in happens exactly when a profile is picked and the typed PIN equals its stored PIN; a mismatch shows the error and clears the PIN |
| UserSelector.Cancel | components/UserSelector.tsx:61 | cancel returns to the roster and clears the error, but keeps the typed PIN |
| UserSelector.MalformedPinLocksProfile | components/UserSelector.tsx:20-45 | a profile whose stored PIN is not at most four digits can never be unlocked |
| UserSelector.LeftoverPinCarriesOver | components/UserSelector.tsx:61 | a PIN typed before Cancel unlocks the next picked profile if it matches |
| UserSelector.RetryAfterWrongPin | components/UserSelector.tsx:22-25 | after a wrong PIN, submitting again unlocks only a profile with an empty stored PIN |
| AppFlows.SubmitProfile | App.tsx:281-286 | an accepted submission upserts the profile into the roster and empties the form; a refused one changes nothing |
| AppFlows.InitialRosterOnlyRootIsAdmin | constants.ts:6-15 | the default roster's only administrator is the root one |
| AppFlows.AdminRoleStaysWithRoot | components/AdminDashboard.tsx:106-113 | submissions through the form never make anyone but the root administrator an administrator |
| AppFlows.DeleteKeepsOnlyRootAdmin | App.tsx:157-165 | deleting a profile never creates an administrator |
| AppFlows.UploadAndShare | App.tsx:228 | a completed upload is added at the head of the catalog; a failed one changes nothing |
| AppFlows.UploadedItemLeadsGallery | App.tsx:228-235 | a new upload is the first tile, previewed and downloaded through the id the blob store returned |
| AppFlows.LocalModeSavesNewItemFirst | App.tsx:113-117 | in local mode a new item heads the saved catalog and nothing is sent remotely |
| AppFlows.DeleteFromLightbox | App.tsx:258 | deleting from the lightbox removes every item with the shown id, while the gallery keeps its index and its listener's length |
| AppFlows.LightboxDeleteOfLastItemCrashes | components/Gallery.tsx:87-101 | deleting the last item from its own lightbox, while another item remains, makes the next render throw |
| AppFlows.DeleteFromLightboxCorrected | App.tsx:258 | with the corrected gallery, the delete goes to the same handler and leaves the gallery state valid for the new catalog |
| AppFlows.CorrectedLightboxDeleteNeverCrashes | components/Gallery.tsx:87-101 | with the corrected gallery, the next render after a delete from the lightbox never throws |
| AppFlows.SaveSettings | App.tsx:281-286 | saving settings adopts the edited configuration marked active and persists it |
| AppFlows.LocalSettingsSendNothing | components/AdminDashboard.tsx:303 | saving with remote sync off reloads without any remote request |
| AppFlows.SignIn | App.tsx:196-197 | a profile is signed in and remembered exactly when the PIN matches; otherwise nothing changes |

## Behaviour worth knowing

- Editing a profile and submitting it unchanged keeps its stored PIN, whatever
  its shape. The form loads the PIN unfiltered (components/AdminDashboard.tsx:64),
  and the submit checks only its length (:104). A roster adopted from the
  remote table is taken verbatim (App.tsx:56), so a stored "12345" or "ab12"
  is resubmitted as it is.
- A failed catalog read during a remote load keeps the catalog already in
  memory (App.tsx:69).
- A roster read that fails for any reason other than missing tables is handled
  like an empty roster: the default roster is adopted and seeded
  (App.tsx:56-67).
- In the local load, an absent saved catalog leaves the catalog in memory as it
  was, and nothing is written for it (App.tsx:76-77). Only the roster is seeded
  and saved.
- The remote URL check is `startsWith('http')`, not a URI syntax check
  (services/supabaseService.ts:11).
- Persisted bytes that do not parse are not caught (App.tsx:77, 81, 92, 99).
  They do not degrade to defaults, so the model makes no claim about them.
- A failed image analysis does not fall back to the uploader's default
  metadata (components/Uploader.tsx:59-65). `analyzeMedia` never throws, so the
  uploader's `catch` is never reached, and the item gets the analyser's
  fallback ("Shared media upload", tagged Gallery).

## Left out

- Rendering, styling, `components/Header.tsx` and `index.tsx`: presentation only. The gallery's render is reduced to the decisions it makes (empty state, tiles, lightbox contents, or a throw).
- React scheduling: each handler is one atomic transition, and the persistence effects run right after it (`Reconciler.Mirror`). Races between fire-and-forget writes and a reconfiguration are not modelled.
- `JSON.parse` of local storage: the store holds already-parsed values, and parse failures are not modelled.
- `window.confirm` is a boolean parameter. `alert`, `console` output, the clipboard and the timers that clear the upload indicator are dropped.
- PinInput.FilterPin: string lengths are counted in code points, while the input's `maxLength` counts UTF-16 code units, so a character outside the Basic Multilingual Plane takes two of the four places in the program and one in the model.
- Uploader.ProgressTrace: lists the progress values the handler sets, not the frames shown. React batches the updates made before the first `await` (components/Uploader.tsx:29-38), so 5 is set but never rendered.
- `crypto.randomUUID()` and `Date.now()` are parameters (`freshId`, `now`).
- File reads (`FileReader.readAsDataURL` and the split at the comma) are parameters giving the base64 text, or `None` for a failed read. Base64 encoding itself is not modelled.
- The Supabase client library, `fetch` and the model call are oracles whose answers are parameters. The schema passed to the model is not modelled.
- DriveService.UploadFileToDrive: a 2xx reply whose JSON has no `id` is modelled as a failure (`MalformedReply`). The code instead returns `undefined` as the file id, and the uploader stores it.
- GeminiService.AnalyzeMedia: the parsed answer is assumed to have the schema's shape. A parsed value of any other shape is not modelled.
- DriveService.Unescape reads back only the escapes that `JSON.stringify` writes, and `DriveService.ParseMetadata` reads only the layout `MetadataJson` writes; neither is a full JSON parser.
- Gallery.JsRemainder: the negative zero of JavaScript's `%` is not distinguished from zero. Indices are never negative here.
- The home screen's gallery shows only the first six items (App.tsx:235), and the "My Files" gallery shows only the signed-in profile's items (App.tsx:258). `AppFlows.DeleteFromLightbox` models the "All Media" gallery. The other two mount the same component, so the same stale index applies to them.
- The SQL schema text and the setup guide in the settings sheet: documentation text.
- The settings sheet copies the configuration once when it opens (components/AdminDashboard.tsx:30). Changes made elsewhere while it is open are not modelled.

## Findings

| source | as written | input that shows it | evidently intended | confidence | as-written member | corrected member |
|---|---|---|---|---|---|---|
| components/Gallery.tsx:12-92 | The lightbox index is not reset when the `items` prop shrinks. The key listener's effect depends only on `selectedIdx`, so it also keeps the old length. | Two items, the lightbox open on the second, and Delete confirmed. The catalog becomes one item while `selectedIdx` stays 1, so `items[1].userName` reads `undefined` and the render throws. | An index that no longer points at an item closes the lightbox, and the key listener sees the current length. | high; not executed | Gallery.ItemsChangedAsWritten, Gallery.DeletingShownLastItemCrashes, AppFlows.LightboxDeleteOfLastItemCrashes | Gallery.ItemsChanged, Gallery.DeletingShownItemIsSafe, AppFlows.CorrectedLightboxDeleteNeverCrashes |
