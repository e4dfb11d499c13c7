# Reef tank builder — a Dafny model of its core

The application lets a reef-aquarium keeper do several things:

- describe a tank, either in a structured form (volume, lighting, filtration, equipment, fish, corals, water readings) or as free text;
- have the description scored and commented on by a language model, or by a mock when no provider key is configured;
- save setups together with their latest analysis;
- keep a gallery of up to five tank photos and have a photo analysed;
- manage a profile and display settings.

This project models the decision logic around the model provider and the database as pure functions over immutable datatypes.

The model covers:

- **Text analysis.** The Express handler `POST /api/analyze` and the edge function `analyze`:
  - the mock and provider branches;
  - the normalisation of the model's JSON into score, breakdown, summary and result;
  - the 960-character fallback for a reply that is not JSON;
  - the edge function's soft 200 fallback.
- **Image analysis.** The edge functions `analyze-image` and `analyze-saved-image`:
  - the image checks;
  - the mock;
  - the fixed and the regular-expression fallbacks (`/score[:\s]*(\d+)/i`, `/(fish|coral|livestock)[^.]*\./i`, ...);
  - the unconditional insert of a result row.
- **The setup page and form.** The sentence a structured setup is described by. The analyse and save guards. The form's edits of the fish and coral lists against the species catalogues.
- **The saved-setup service.** Covered operations:
  - saving, including the compensating delete of the setup row when a fish or coral insert fails;
  - reading, listing and updating;
  - deleting;
  - mapping a saved row back to a form setup.
- **The saved-setup views.** Species names, chips and the preview line.
- **Result rendering.** The score gauge, the history chips, the breakdown cards and the free-text formatter.
- **The image gallery.** `upload-image` enforces the five-image cap; `manage-images` lists newest first and deletes.
- **The account functions.** `upload-profile-image`, `update-profile` and `update-user-settings`, which merge into the user's metadata.
- **The client-side guards.** The settings, profile and sign-in pages.

How the model represents the runtime:

- **Strings** are `seq<char>`.
- **JavaScript numbers** are `real`. Turning a number into text is a parameter `fmt: real -> string`. Counts and scores are rendered by a concrete `NatToString`.
- **JSON** values are a datatype with explicit JavaScript truthiness: `null`, `false`, `0` and `""` are falsy.
- **`JSON.parse`** is a parameter returning `Parsed(value)` or `Unparseable`.
- **Outside services become parameters.** This covers:
  - the language model;
  - Supabase auth, database and storage;
  - `crypto.randomUUID`;
  - the current time;
  - `Math.random`.

  Each is an argument: an outcome datatype, a verification function, a fresh id, or a bounded draw. For example, the mock score is `60 + k` with `k < 40`.
- **Tables** are sequences of rows in insertion order, and the storage buckets are sets of paths.

Modules follow the program's structure:

| module | models |
|---|---|
| `Wrappers` | `Option` and `Result` |
| `Text` | the JavaScript string operations used |
| `Json` | JSON values |
| `Http` | replies and bearer authentication |
| `Client` | how pages read a function's answer |
| `Uploads` | the shared image checks |
| `Catalogue` | the species catalogues and option lists |
| `SetupForm` | the form |
| `Describe` | the setup page |
| `Analysis` | the text analysis handlers |
| `Patterns` | the fallback's regular expressions |
| `ImageAnalysis` | the image analysis functions |
| `SetupStore` | the saved-setup service |
| `SetupsView` | the saved-setup views |
| `ScoreDisplay`, `BreakdownView`, `Formatted` | result rendering |
| `Gallery` | the image gallery |
| `Profiles` | the account functions |
| `ProfilePage`, `SettingsPage`, `AuthDialog` | the client-side pages |

Some behaviour of the code is easy to misread, and the model states it as the code has it:

- **`analyze-saved-image` keeps no cache.** The function never reads earlier result rows. It inserts a new result row on every successful call and always answers `cached: false` (`ImageAnalysis.SavedIgnoresHistory`).
- **The soft fallback's score range is 50 to 79.** The edge function `analyze` computes it as `floor(random * 30) + 50` (`Analysis.EdgeNeverFails`).
- **Temperature is described in Celsius with a Fahrenheit sign.** The form stores the temperature converted to Celsius. The description appends `°F` to that value unconverted (`Describe.TemperatureDescribedUnconverted`).
- **The form can repeat a species.** When every catalogue species is already listed, adding a fish or coral repeats the first catalogue species (`SetupForm.AddWhenExhaustedRepeats`).
- **The form's default volume is a parameter.** The form takes it from `tankVolumesLiters`, which the catalogue module does not export.

## Model

| member | source | states |
|---|---|---|
| `Analysis.SummaryEntryIff` | server/src/index.ts:116-121 | A breakdown field contributes a summary line exactly when it is truthy. |
| `Analysis.SummaryEmptyIff` | server/src/index.ts:115-121 | The summary is empty exactly when none of the four breakdown fields is truthy. |
| `Analysis.SummaryMentionsField` | server/src/index.ts:116-121 | Every truthy breakdown field appears in the summary under its heading. |
| `Analysis.Normalize` | server/src/index.ts:110-138 | Summary and result are always equal and non-empty, and score and breakdown are truthy. For a structured reply, score, breakdown and (edge) `generalAssessment` are the parsed object's own fields when truthy, and otherwise 50, `{}` and the default assessment. A reply that is not JSON (or parses to `null`) gets score 50, breakdown `{}` and its first 960 characters as summary. `generalAssessment` exists only in the edge variant, with its default text. |
| `Analysis.GeneratedLikeSerialized` | server/src/index.ts:110-125 | A non-empty reply that parses to an object is normalised exactly as that object would be. |
| `Analysis.EmptyReplyDefaults` | supabase/functions/analyze/index.ts:105-129 | An empty reply parses as `{}` and gets score 50, breakdown `{}`, the default summary and result, and (edge) the default assessment. |
| `Analysis.NormalizeIdempotent` | supabase/functions/analyze/index.ts:105-129 | Normalising the fields of an already normalised structured analysis gives the same score, breakdown, summary, result and assessment. |
| `Analysis.AnalyzeServer` | server/src/index.ts:47-143 | The status is 200, 400 or 500. 400 "tankDescription is required" is sent exactly when a parsed body lacks a truthy `tankDescription`. A missing body gets 500. With a truthy `tankDescription`, mock mode answers the normalised server mock and does not consult the provider. Otherwise a thrown provider call answers 500 with its message, and a reply answers its normalised content, an absent content reading as `''`. 500 is sent only in those two failing cases. |
| `Analysis.MockBreakdownHasKeys` | server/src/index.ts:67-72 | The canned breakdown has all four keys, each holding a string. |
| `Analysis.MockBreakdownSummary` | server/src/index.ts:65-73 | The summary of the canned breakdown lists its four fields in order, separated by blank lines. |
| `Analysis.ServerMockSummary` | server/src/index.ts:62-127 | The server's mock reply is answered with all four canned fields in the summary, in order. |
| `Analysis.SerializedKept` | server/src/index.ts:112-125 | An object the handler serialized itself keeps its truthy score, breakdown and (edge) assessment through normalisation. |
| `Analysis.ServerMockIgnoresProvider` | server/src/index.ts:58-74 | In mock mode the reply does not depend on what the provider would answer. |
| `Analysis.AnalyzeEdge` | supabase/functions/analyze/index.ts:19-168 | OPTIONS is answered by the preflight. 400 is sent exactly when a parsed body lacks `tankDescription`. A body that is not JSON, or is `null`, gets the soft fallback. With a `tankDescription`, mock mode answers the normalised edge mock. Otherwise a completed provider call answers its normalised content, and a thrown or non-2xx call gets the soft fallback. The soft fallback, and only it, has an `error` field. A normal answer has equal, non-empty summary and result. |
| `Analysis.EdgeMockNormal` | supabase/functions/analyze/index.ts:38-55 | The edge mock reply carries the drawn score 60+k and the drawn canned assessment. |
| `Analysis.EdgeNeverFails` | supabase/functions/analyze/index.ts:145-167 | The edge function answers only 200 or 400. Fallback scores lie in 50..79 and mock scores in 60..99. |
| `Describe.Clause` | client/src/components/SetupBuilderPage.tsx:93-95 | A clause is written exactly when its list is non-empty, and then starts with its lead text. |
| `Describe.Equipment` | client/src/components/SetupBuilderPage.tsx:97-100 | Each equipment name is listed exactly when its flag is set. The names are distinct, the skimmer comes first and the wavemaker last. |
| `Describe.EntryTexts` | client/src/components/SetupBuilderPage.tsx:106-113 | One `{quantity}x {species}` text per entry, in list order. |
| `Describe.WaterTexts` | client/src/components/SetupBuilderPage.tsx:116-119 | Only entered, non-zero readings appear, in the order pH, salinity, temperature. Temperature is suffixed with °F. |
| `Describe.Clauses` | client/src/components/SetupBuilderPage.tsx:93-123 | The text after the opening is empty exactly when the setup has nothing beyond volume and lighting. |
| `Describe.Description` | client/src/components/SetupBuilderPage.tsx:90-126 | Every description opens with the volume and lighting sentence. It is only that sentence exactly when the setup has no other content. |
| `Describe.DescriptionLayout` | client/src/components/SetupBuilderPage.tsx:90-126 | The description is the opening followed by the filtration, equipment, fish, coral and water clauses, in that order and with nothing between them. Each clause is present exactly when the setup has something for it, and then starts with its own lead. The fish and coral clauses list the `{quantity}x {species}` texts joined by ", ". |
| `Describe.ClausesPresent` | client/src/components/SetupBuilderPage.tsx:93-123 | Each of the five clauses is written exactly when its list is non-empty, with its lead, and the fish and coral clauses hold the joined entry texts. |
| `Describe.ClausePositions` | client/src/components/SetupBuilderPage.tsx:93-123 | Each clause occurs where the opening and the clauses before it end, and the last one ends the description. |
| `Describe.FishBeforeCorals` | client/src/components/SetupBuilderPage.tsx:106-114 | With both lists non-empty, ". Fish: " occurs before ". Corals: ". |
| `Describe.TemperatureDescribedUnconverted` | client/src/components/SetupBuilderPage.tsx:116-119 | A temperature typed in Fahrenheit is described as its Celsius value followed by °F. |
| `Describe.Analyze` | client/src/components/SetupBuilderPage.tsx:128-145 | On the form tab, a missing setup or one without fish and corals is rejected, and otherwise the description is sent. On the text tab, blank text is rejected and otherwise the text is sent. |
| `Describe.ConfirmSave` | client/src/components/SetupBuilderPage.tsx:64-68 | Nothing happens without a pending setup or with a blank name. Otherwise the setup is saved under the trimmed, non-empty name. |
| `SetupForm.InitialSetup` | client/src/components/TankSetupForm.tsx:49-59 | The form starts with a lighting from the catalogue and no fish, corals, filtration or readings. Only the heater is on. |
| `SetupForm.Update` | client/src/components/TankSetupForm.tsx:68-72 | Each supplied field replaces the old value and every other field is kept. |
| `SetupForm.UpdateIdempotent` | client/src/components/TankSetupForm.tsx:68-72 | Applying an edit twice is applying it once, and the empty edit changes nothing. |
| `SetupForm.FirstUnused` | client/src/components/TankSetupForm.tsx:76-77 | Finds the first catalogue position whose species is not in use, or reports that all are used. |
| `SetupForm.AddEntry` | client/src/components/TankSetupForm.tsx:74-84 | Exactly one entry with quantity 1 and a catalogue species is appended, and the old entries are kept. The new species is unused exactly when the catalogue is not exhausted. In that case it is the first unused catalogue species, as `find` picks: every earlier catalogue species is already in the list. Otherwise it is the first catalogue species. |
| `SetupForm.AddKeepsDistinct` | client/src/components/TankSetupForm.tsx:74-84 | A list without repeated species keeps that property under adding, while the catalogue has an unused species. |
| `SetupForm.AddWhenExhaustedRepeats` | client/src/components/TankSetupForm.tsx:79-80 | Once the catalogue is exhausted, adding creates a repeated species. |
| `SetupForm.RemoveAt` | client/src/components/TankSetupForm.tsx:86-89 | Exactly the entry at `i` is removed, order preserved. An out-of-range index changes nothing. |
| `SetupForm.RemoveKeepsDistinct` | client/src/components/TankSetupForm.tsx:86-89 | Removing keeps a list free of repeated species. |
| `SetupForm.UpdateAt` | client/src/components/TankSetupForm.tsx:91-96 | Only the entry at `i` changes, and only in the edited field. The length is kept. |
| `SetupForm.UpdateKeepsDistinct` | client/src/components/TankSetupForm.tsx:91-96 | A quantity edit, or a species edit to an unused species, keeps species distinct. |
| `SetupForm.AddFish` | client/src/components/TankSetupForm.tsx:74-84 | Adds to the fish list from the fish catalogue. Nothing else changes. |
| `SetupForm.RemoveFish` | client/src/components/TankSetupForm.tsx:86-89 | Removes fish entry `i`. Nothing else changes. |
| `SetupForm.UpdateFish` | client/src/components/TankSetupForm.tsx:91-96 | Edits fish entry `i` only. Nothing else changes. |
| `SetupForm.AddCoral` | client/src/components/TankSetupForm.tsx:98-108 | Adds to the coral list from the coral catalogue. Nothing else changes. |
| `SetupForm.RemoveCoral` | client/src/components/TankSetupForm.tsx:110-113 | Removes coral entry `i`. Nothing else changes. |
| `SetupForm.UpdateCoral` | client/src/components/TankSetupForm.tsx:115-120 | Edits coral entry `i` only. Nothing else changes. |
| `SetupForm.FiltrationOf` | client/src/components/TankSetupForm.tsx:122-125 | A selected list is kept. An autofilled string is split on ',' into pieces that join back to it. |
| `SetupForm.FiltrationForms` | client/src/components/TankSetupForm.tsx:122-125 | A non-empty selection of comma-free values gives the same list in both forms. The empty string gives `[""]`. |
| `SetupForm.NumberOf` | client/src/components/TankSetupForm.tsx:361 | A blank number field reads as 0. |
| `SetupForm.SetPh` | client/src/components/TankSetupForm.tsx:359-362 | Only the pH reading changes. |
| `SetupForm.SetSalinity` | client/src/components/TankSetupForm.tsx:372-374 | Only the salinity reading changes. |
| `SetupForm.Celsius` | client/src/contexts/UnitsContext.tsx:78-84 | In imperial units the stored value converts back to the typed Fahrenheit value, and differs from it except at -40. In metric units it is the typed value. |
| `SetupForm.SetTemperature` | client/src/components/TankSetupForm.tsx:384-388 | Only the temperature changes, and it is stored in Celsius whatever the display unit. |
| `Catalogue.FishSpecies` | client/src/data/aquariumData.ts:2-34 | The fish catalogue is non-empty and no id occurs twice. |
| `Catalogue.CoralSpecies` | client/src/data/aquariumData.ts:37-60 | The coral catalogue is non-empty and no id occurs twice. |
| `Catalogue.TankVolumes` | client/src/data/aquariumData.ts:63-76 | The volumes are non-empty and strictly increasing. |
| `Catalogue.LightingOptions` | client/src/data/aquariumData.ts:79-86 | The lighting values are distinct and include the form's default `led-medium`. |
| `Catalogue.FiltrationOptions` | client/src/data/aquariumData.ts:89-96 | The filtration values are distinct, non-empty and free of commas. |
| `Catalogue.FindSpecies` | client/src/components/MySetupsPage.tsx:135-138 | Finds the first position with the id: the entry there has the id and no earlier entry does. It reports absence exactly when no entry has it. |
| `Catalogue.SpeciesName` | client/src/components/MySetupsPage.tsx:135-138 | An unknown id is shown as itself. A known id is shown by the name of the first entry with that id, or as itself when that name is empty. |
| `Uploads.CheckImage` | supabase/functions/analyze-image/index.ts:20-51 | An image passes exactly when it is a file of an allowed type within the size limit. Presence is checked first, then type, then size. |
| `Http.Authenticate` | supabase/functions/upload-image/index.ts:17-45 | A missing or empty header gives 'Authorization required'. A token the auth service rejects gives 'Invalid token'. A success is the user the service returns for the header with 'Bearer ' removed. |
| `Client.Answer` | client/src/components/SettingsPage.tsx:120-124 | Success exactly for an ok response with a JSON body. A thrown fetch shows its message. An error body shows its `error` field, or the page's default when that field is falsy. |
| `Client.ErrorBodyShown` | client/src/components/ProfilePage.tsx:112-116 | The `{ error: m }` body every function sends with an error status is shown as exactly `m`. |
| `Text.Trim` | supabase/functions/update-profile/index.ts:58 | The trim is an infix that neither starts nor ends with white space. Only white space is dropped on either side. |
| `Text.TrimEmptyIffBlank` | client/src/components/SavedSetupsManager.tsx:76 | A string trims to empty exactly when it is blank. |
| `Text.Ellipsize` | supabase/functions/analyze-saved-image/index.ts:172 | A text of at most n characters is kept. A longer one becomes its first n characters followed by '...'. |
| `Text.SplitJoin` | client/src/components/ProfilePage.tsx:222 | Joining the pieces of a split with the same separator gives the string back. |
| `Text.JoinSplit` | client/src/components/TankSetupForm.tsx:122-125 | Splitting a join of separator-free pieces gives the pieces back. |
| `Text.PopPiece` | supabase/functions/upload-image/index.ts:106-107 | `split(c).pop()`, which gives the file extension in `upload-image` and the image id in `manage-images`, never contains `c`. It is the whole string, or the string ends with `c` followed by it. |
| `Text.LastPieceShape` | supabase/functions/upload-image/index.ts:106 | The last piece is the whole string, or the string ends with the separator followed by it. |
| `Text.ContainsIff` | supabase/functions/analyze-saved-image/index.ts:174-177 | `includes` holds exactly when the text occurs at some position. |
| `Text.ReplaceFirstAbsent` | supabase/functions/upload-image/index.ts:34 | Replacing an absent pattern leaves the string unchanged. |
| `Text.NatToStringRoundTrip` | supabase/functions/analyze-saved-image/index.ts:169-171 | `parseInt(String(n))` is `n`. |
| `Patterns.ScoreFrom` | supabase/functions/analyze-saved-image/index.ts:169 | A captured score is a non-empty string of digits. |
| `Patterns.ScoreFromFinds` | supabase/functions/analyze-saved-image/index.ts:169 | When no earlier position starts a match, a number written after "score" and separators is read back exactly. |
| `Patterns.ScoreFromLeftmost` | supabase/functions/analyze-saved-image/index.ts:169 | Positions where the pattern does not match are skipped: the search is leftmost. |
| `Patterns.SentenceFromFinds` | supabase/functions/analyze-saved-image/index.ts:174-177 | The sentence search never misses: a word followed by a dot anywhere makes it succeed. |
| `Patterns.MatchPosition` | supabase/functions/analyze-saved-image/index.ts:174-177 | What the search finds starts at a matching position, and no earlier position matches. |
| `Patterns.MatchedWord` | supabase/functions/analyze-saved-image/index.ts:176 | A match is a listed word followed by text up to and including the first dot after it. |
| `ImageAnalysis.AnalyzeImage` | supabase/functions/analyze-image/index.ts:10-155 | OPTIONS is answered by the preflight. A body that is not form data gets 500. 400 is sent exactly for an image refused by the checks, with the check's message. An accepted image with more bytes than the engine's argument limit gets 500, in mock mode too, because the spread into `String.fromCharCode` throws. An accepted image within the limit gets the mock in mock mode. Otherwise a completed provider call answers the parsed reply or the fixed fallback, a thrown fetch answers 500 with its message, and a non-2xx status answers 500 'OpenAI API request failed'. A success needs an accepted image within the limit. |
| `ImageAnalysis.AnalyzeImageBytewise` | supabase/functions/analyze-saved-image/index.ts:94-100 | The handler with byte-by-byte encoding: every accepted image in mock mode gets the mock analysis, whatever its size. The live answers are as for `AnalyzeImage`: the parsed reply or fixed fallback for a completed call, and 500 for a thrown fetch or a non-2xx status. A body that is not form data gets 500. |
| `ImageAnalysis.AnalyzeImageWithinLimit` | supabase/functions/analyze-image/index.ts:52-59 | Within the argument limit, and for every upload that is not accepted, the handler as written answers as the byte-by-byte encoding does. |
| `ImageAnalysis.LargeImageRefusedInMockMode` | supabase/functions/analyze-image/index.ts:52-59 | An accepted one-mebibyte JPEG in mock mode gets 500 as written, but the mock analysis with byte-by-byte encoding. |
| `ImageAnalysis.SectionQuotesReply` | supabase/functions/analyze-saved-image/index.ts:174-177 | With its guard true and a matching sentence present, a breakdown field is the leftmost matching sentence of the reply. |
| `ImageAnalysis.LivestockQuotesFish` | supabase/functions/analyze-saved-image/index.ts:176 | With the corrected guard, a reply with "fish" followed by a dot gets the leftmost livestock sentence, never the "no livestock" text. |
| `ImageAnalysis.LivestockQuotesSentence` | supabase/functions/analyze-saved-image/index.ts:176 | The same, for any case of "fish" in a reply that passes the corrected guard. |
| `ImageAnalysis.LivestockGuardMissesFish` | supabase/functions/analyze-saved-image/index.ts:176 | As written, "The fish thrive." gets "No specific livestock analysis available."; corrected, it does not. |
| `ImageAnalysis.RegexFallback` | supabase/functions/analyze-saved-image/index.ts:168-183 | The fallback keeps the reply as result, answers `cached: false`, and takes its score from the score pattern (75 without a match). Its livestock field is the one the literal `'fish\|coral\|livestock'` guard gives. |
| `ImageAnalysis.LivestockAgreesOnLiteral` | supabase/functions/analyze-saved-image/index.ts:176 | When a reply contains the literal text `fish\|coral\|livestock`, the written guard and the corrected one agree and give the same field. |
| `ImageAnalysis.MockVerdictScore` | supabase/functions/analyze-saved-image/index.ts:110-121 | The mock's "Overall score: n/100" verdict is read back as n by the fallback's score pattern. |
| `ImageAnalysis.SavedOutcome` | supabase/functions/analyze-saved-image/index.ts:10-216 | OPTIONS is answered by the preflight, and 401 is sent exactly for failed authentication. After that, a missing body gets 500, a falsy `imageId` gets 400 'Image ID is required', and an id that is not a string or not one of the caller's images gets 404 'Image not found'. A failed signed URL or download gets 500. For a found image, mock mode answers the mock. Otherwise a completed call answers the parsed reply or the fallback, a thrown fetch answers 500 with its message, and a non-2xx status answers 500. A success needs an `imageId` string naming one of the caller's images. A result row is written exactly for a success whose insert works, and holds the caller, the id and the answer. A provider reply that is not JSON is answered with the fallback as written. |
| `ImageAnalysis.AnalyzeSaved` | supabase/functions/analyze-saved-image/index.ts:187-205 | A failure leaves the results table unchanged. A success appends one row when the insert works and still answers when it fails. |
| `ImageAnalysis.SavedIgnoresHistory` | supabase/functions/analyze-saved-image/index.ts:187-205 | The answer does not depend on earlier stored results: there is no cache. |
| `SetupStore.RowFor` | client/src/services/tankSetupService.ts:42-54 | The inserted row copies the form's fields. A reading is stored exactly when it is entered and non-zero. |
| `SetupStore.LinesOf` | client/src/services/tankSetupService.ts:64-68 | One payload per entry, in order, carrying species and quantity. |
| `SetupStore.EntriesOf` | client/src/services/tankSetupService.ts:386-387 | One entry per loaded row, in order, carrying species and quantity. |
| `SetupStore.EntriesRoundTrip` | client/src/services/tankSetupService.ts:64-68 | Writing entries as rows and reading them back gives the same entries in the same order. |
| `SetupStore.LinesFor` | client/src/services/tankSetupService.ts:147-150 | Reads the rows of one setup. A table without a row for the id yields nothing. |
| `SetupStore.Matching` | client/src/services/tankSetupService.ts:135-140 | Selects every row with this id owned by the caller and nothing else. |
| `SetupStore.AnalysesFor` | client/src/services/tankSetupService.ts:167-173 | Selects every analysis row of the setup and nothing else. |
| `SetupStore.Latest` | client/src/services/tankSetupService.ts:224-226 | The newest analysis has the greatest `created_at`, the first such in table order, and is absent only for no rows. |
| `SetupStore.ReadAnalysis` | client/src/services/tankSetupService.ts:166-187 | An analysis is read exactly when the setup has one. It is the newest row's score, its summary when non-empty, and its breakdown when truthy, without a result. |
| `SetupStore.Load` | client/src/services/tankSetupService.ts:126-195 | Without a user the load is refused. It succeeds exactly when the caller has one row with this id and the fish and coral queries answer; their errors come back as "Failed to load fish: …" and "Failed to load corals: …". A success is that row with exactly its fish and coral rows and its newest analysis. A failing analysis query only leaves the analysis out. |
| `SetupStore.FromSaved` | client/src/services/tankSetupService.ts:378-394 | Copies volume, lighting, filtration and flags. Maps fish and corals element-wise in order. A reading is the row's when entered and non-zero, and absent otherwise. |
| `SetupStore.DeleteLastAppended` | client/src/services/tankSetupService.ts:74-78 | The compensating delete of the row just inserted restores the setup table. |
| `SetupStore.AnalysisRowFor` | client/src/services/tankSetupService.ts:101-109 | The analysis row keeps the score. Its summary is the summary, else the result, else null. Its breakdown is kept when truthy. |
| `SetupStore.WriteChildren` | client/src/services/tankSetupService.ts:62-115 | When the child writes pass, the fish and corals of the setup are appended in order. The setup table is untouched. |
| `SetupStore.Save` | client/src/services/tankSetupService.ts:31-124 | Without a user, or with a failing setup insert, nothing is stored. The setup table at most gains the new row. Once the row is inserted it stays exactly when the fish and coral inserts pass or the clean-up delete fails. A failing insert is reported as a failure; passing inserts answer with what loading the new id gives. |
| `SetupStore.SaveReadsBack` | client/src/services/tankSetupService.ts:117-119 | A save whose writes pass answers with what loading the new id gives. |
| `SetupStore.WrittenLoads` | client/src/services/tankSetupService.ts:126-164 | Loading a freshly saved setup finds its row and exactly its fish and corals. |
| `SetupStore.SaveLoadRoundTrip` | client/src/services/tankSetupService.ts:42-119 | Saving, loading and mapping back gives the form setup with every falsy reading dropped. So the round trip is the identity exactly when every reading is unset or non-zero. |
| `SetupStore.SavedAnalysisReadBack` | client/src/services/tankSetupService.ts:101-109 | The analysis saved with a setup is read back with its score and its summary-or-result. |
| `SetupStore.SaveCleanupFailureKeepsRow` | client/src/services/tankSetupService.ts:74-97 | When the clean-up delete fails as well, the save reports failure but the setup row stays as the caller's only row with that id. |
| `SetupStore.SaveCoralFailureKeepsFish` | client/src/services/tankSetupService.ts:93-97 | A failing coral insert deletes the setup row but leaves its fish rows behind. |
| `SetupStore.UpdateRows` | client/src/services/tankSetupService.ts:293-308 | Only the caller's row with this id is replaced by the form's fields. |
| `SetupStore.DeleteLines` | client/src/services/tankSetupService.ts:315-316 | Exactly the child rows of the setup are removed. |
| `SetupStore.Update` | client/src/services/tankSetupService.ts:284-375 | Without a user, or with a failing row update, nothing changes. Otherwise the setup table is the row update. A failing fish insert answers "Failed to update fish: " with its error, then a failing coral insert answers "Failed to update corals: ". When the child inserts pass, the answer is what loading the setup from the new store gives. The old fish and corals are removed only when their deletes succeed, and a failing delete is not reported. |
| `SetupStore.UpdateFishFailureLosesFish` | client/src/services/tankSetupService.ts:314-332 | When the old fish were deleted and the new fish cannot be inserted, the update fails with the fish message and the setup is left with no fish at all. |
| `SetupStore.UpdateReplacesLines` | client/src/services/tankSetupService.ts:314-350 | When the old lines were deleted, a successful update reads back exactly the new fish and corals. |
| `SetupStore.UpdateKeepsUndeletedFish` | client/src/services/tankSetupService.ts:314-350 | When the delete of the old fish failed unnoticed, a successful update reads back the old fish followed by the new ones. |
| `SetupStore.Delete` | client/src/services/tankSetupService.ts:259-282 | Without a user, or on a database error, nothing changes. Otherwise exactly the caller's row with this id is removed. |
| `SetupStore.List` | client/src/services/tankSetupService.ts:197-257 | Without a user the listing is refused, and a query error is passed on; otherwise it succeeds. Every one of the caller's setups is listed, and only those, each with exactly its fish, its corals and its newest analysis. |
| `SetupStore.ListAgreesWithLoad` | client/src/services/tankSetupService.ts:126-257 | A listed setup whose id the caller has only once is exactly what loading that id answers. |
| `SetupStore.OwnedBy` | client/src/services/tankSetupService.ts:214 | Exactly the caller's rows are selected, in table order. |
| `SetupsView.SpeciesLabel` | client/src/components/MySetupsPage.tsx:135-138 | An id outside the catalogue is shown as itself. |
| `SetupsView.SpeciesLabelOfListed` | client/src/components/SavedSetupsManager.tsx:137-142 | A catalogue species is shown by its catalogue name. |
| `SetupsView.ChipsFor` | client/src/components/MySetupsPage.tsx:249-265 | There is no chip section exactly for an empty list. At most three chips name the first lines, and "+N more" appears exactly when there are more than three. |
| `SetupsView.ChipsCountAll` | client/src/components/MySetupsPage.tsx:258-265 | The shown chips plus N add up to the length of the list. |
| `SetupsView.Preview` | client/src/components/SavedSetupsManager.tsx:144-148 | The preview starts with the volume and "gal • " and ends with " corals • " and the lighting. |
| `SetupsView.PreviewShowsCounts` | client/src/components/SavedSetupsManager.tsx:144-148 | For equal volume and lighting, two previews are equal exactly when the fish counts and the coral counts are equal. |
| `SetupsView.HandleSave` | client/src/components/SavedSetupsManager.tsx:75-90 | A blank name is refused first and a missing setup second. A save uses the trimmed name. |
| `SetupsView.SaveEnabledIffAnalyzable` | client/src/components/SavedSetupsManager.tsx:178 | The save button is enabled exactly when the setup page would analyse the setup. |
| `SetupsView.LoadWithAnalysis` | client/src/components/MySetupsPage.tsx:125-133 | Loads only a setup with a stored analysis. The loaded form setup is exactly `FromSaved` of the saved setup, together with that analysis. |
| `SetupsView.ConfirmAndDelete` | client/src/components/MySetupsPage.tsx:70-74 | The delete is made exactly when the user confirms. |
| `ScoreDisplay.Clamp` | client/src/components/SetupScoreGauge.tsx:10 | The result lies in [0, 100] and equals a score already in range. |
| `ScoreDisplay.ClampIdempotentMonotone` | client/src/components/SetupScoreGauge.tsx:10 | Clamping twice is clamping once, and clamping keeps the order of two scores. |
| `ScoreDisplay.ColourOf` | client/src/components/SetupScoreGauge.tsx:96-102 | Five colour bands with limits at 80, 70, 60 and 50. |
| `ScoreDisplay.LabelOf` | client/src/components/SetupScoreGauge.tsx:105-112 | Six label bands with limits at 90, 80, 70, 60 and 50. 'Excellent' exactly from 90. |
| `ScoreDisplay.BandsMonotone` | client/src/components/SetupScoreGauge.tsx:96-112 | A higher score never gets a worse colour or label. |
| `ScoreDisplay.LabelsRefineColours` | client/src/components/SetupScoreGauge.tsx:96-112 | Green splits into Excellent and Very Good. Below 80, colours and labels correspond one to one. |
| `ScoreDisplay.GaugeFor` | client/src/components/SetupScoreGauge.tsx:8-92 | The gauge shows the clamped score, and the two segments sum to 100. Colour and label are those of the raw score. |
| `ScoreDisplay.ChipOf` | client/src/components/AnalysisHistoryPage.tsx:107-111 | 'success' exactly from 80, 'warning' exactly in [60, 80), 'error' exactly below 60. |
| `ScoreDisplay.ChipsCoarsenColours` | client/src/components/AnalysisHistoryPage.tsx:107-111 | The history chips coarsen the gauge colours. |
| `ScoreDisplay.LoadHistory` | client/src/components/AnalysisHistoryPage.tsx:68-95 | An ok answer replaces both lists, with a missing list becoming `[]`. A failure shows `data.error` or the default message and keeps the lists. Loading always ends. |
| `ScoreDisplay.RetryKeepsStaleError` | client/src/components/AnalysisHistoryPage.tsx:71-91 | A successful retry does not clear the error of a failed load. |
| `BreakdownView.Sections` | client/src/components/AnalysisBreakdown.tsx:10-39 | The four sections are in the fixed order with their fixed titles. Each has the breakdown field as its content. |
| `BreakdownView.Available` | client/src/components/AnalysisBreakdown.tsx:41 | Exactly the sections with truthy content are kept, in order. |
| `BreakdownView.AvailableOrdered` | client/src/components/AnalysisBreakdown.tsx:41 | Filtering keeps the fixed order. |
| `BreakdownView.Render` | client/src/components/AnalysisBreakdown.tsx:9-92 | "No detailed breakdown available." appears exactly when no field is truthy. Otherwise one card per truthy field, in order, showing that field. |
| `BreakdownView.ShownSections` | client/src/components/AnalysisBreakdown.tsx:41-53 | A section is shown exactly when its field is truthy, with its title and the field as content. |
| `BreakdownView.RenderMatchesSummary` | client/src/components/AnalysisBreakdown.tsx:43-48 | The cards and the analysis summary agree. The fallback sentence appears exactly when the summary is empty, and a card exactly when the summary has that field's line. |
| `Formatted.KeepNonBlank` | client/src/components/FormattedResponse.tsx:11 | Exactly the non-blank parts are kept. |
| `Formatted.KeepNonBlankAppend` | client/src/components/FormattedResponse.tsx:11 | The filter distributes over concatenation, so order and repeats are kept. |
| `Formatted.KeepNonBlankOne` | client/src/components/FormattedResponse.tsx:11 | A single part is kept exactly when it is not blank. |
| `Formatted.LeadingDigits` | client/src/components/FormattedResponse.tsx:31 | Gives the length of the longest run of digits the line starts with. |
| `Formatted.NumberPrefixIff` | client/src/components/FormattedResponse.tsx:31 | The greedy digit reading agrees with the regular expression `^\d+\.\s`. |
| `Formatted.BulletText` | client/src/components/FormattedResponse.tsx:71 | At most one symbol marker is removed, then at most one number marker. |
| `Formatted.Classify` | client/src/components/FormattedResponse.tsx:19-87 | A header is decided first, then a bullet. Headers and plain lines show the trimmed line. |
| `Formatted.BulletNeverEmpty` | client/src/components/FormattedResponse.tsx:31-71 | A trimmed bullet line keeps some text after its markers. |
| `Formatted.Format` | client/src/components/FormattedResponse.tsx:9-92 | One entry per non-blank section, each with one classified line per non-blank line. |
| `Formatted.NonBlankHasLine` | client/src/components/FormattedResponse.tsx:11-14 | A non-blank section has a non-blank line, so no shown section is empty. |
| `Formatted.SingleLine` | client/src/components/FormattedResponse.tsx:11-14 | A single non-blank line is one section with that one line. |
| `Formatted.HeaderBeatsBullet` | client/src/components/FormattedResponse.tsx:22-33 | A bulleted line mentioning "Notes" is a header. |
| `Formatted.MarkersRemovedOnce` | client/src/components/FormattedResponse.tsx:71 | Only one marker of each kind is removed. |
| `Formatted.NumberMarker` | client/src/components/FormattedResponse.tsx:71 | A numbered line loses its number. |
| `Formatted.BothMarkers` | client/src/components/FormattedResponse.tsx:71 | A dash followed by a number loses both. |
| `Gallery.Owned` | supabase/functions/upload-image/index.ts:48-51 | Exactly the user's rows, in table order. |
| `Gallery.OwnedAppend` | supabase/functions/upload-image/index.ts:123-135 | Appending a row adds it to its owner's rows only. |
| `Gallery.Lookup` | supabase/functions/manage-images/index.ts:96-111 | A row is found only when it has the id and belongs to the caller. No such row gives nothing; exactly one such row is found. |
| `Gallery.Matching` | supabase/functions/manage-images/index.ts:96-101 | Selects every row with the id and nothing else. |
| `Gallery.DeleteRows` | supabase/functions/manage-images/index.ts:123-127 | Exactly the caller's rows with the id are removed. |
| `Gallery.DeleteRowsOwned` | supabase/functions/manage-images/index.ts:123-127 | Deleting never adds to anyone's images and leaves other users' images unchanged. |
| `Gallery.UploadImage` | supabase/functions/upload-image/index.ts:15-162 | A failed authentication answers 401 with its message. A user already at five images gets 400 'Maximum of 5 images', and a refused file gets 400 with the check's message. A failure changes nothing. A success needs fewer than five images and an accepted file. It stores at `tank-images/<user>/<uuid>.<ext>` on a fresh path and appends exactly that row, whose owner, id, time, original name, size, type and description come from the caller, the inputs and the form. When every step passes and the path is fresh, the upload succeeds. |
| `Gallery.UploadKeepsCap` | supabase/functions/upload-image/index.ts:47-65 | Uploading never takes a user past five images. |
| `Gallery.NewestFirstCons` | supabase/functions/manage-images/index.ts:56 | A row no older than a newest-first list can be put in front of it. |
| `Gallery.InsertByTime` | supabase/functions/manage-images/index.ts:56 | Insertion keeps a list newest first, and holds the same rows plus the new one. |
| `Gallery.SortNewestFirst` | supabase/functions/manage-images/index.ts:56 | The result is newest first and holds the same rows. |
| `Gallery.ListingFor` | supabase/functions/manage-images/index.ts:50-82 | The listing holds one entry per image of the user, newest first. |
| `Gallery.ListingOnlyOwned` | supabase/functions/manage-images/index.ts:52-55 | Each listed entry is one of the user's images. |
| `Gallery.ListingHasOwned` | supabase/functions/manage-images/index.ts:52-74 | Each of the user's images is listed. |
| `Gallery.ManageImages` | supabase/functions/manage-images/index.ts:15-158 | Only DELETE changes the gallery. A failed authentication answers 401. A GET whose listing read works answers with the caller's images. A DELETE with an empty last path segment gets 400 'Image ID is required', and one whose id names no image of the caller gets 404. Otherwise the object is removed when the storage removal works, and the row is removed with a 'deleted' answer exactly when the row delete works, whatever the storage removal did. 405 is sent exactly for other methods once authenticated. |
| `Gallery.ManageKeepsCap` | supabase/functions/manage-images/index.ts:84-139 | Managing never takes a user past five images and never touches another user's images. |
| `Profiles.Merge` | supabase/functions/update-user-settings/index.ts:67-71 | Every other key is kept with its value. The written key gets its value, or is dropped when undefined. |
| `Profiles.MergeLastWins` | supabase/functions/update-profile/index.ts:76-79 | A later write of a key replaces an earlier one. |
| `Profiles.ProfilePath` | supabase/functions/upload-profile-image/index.ts:78-79 | The path is `<user>/profile.` followed by an extension without a dot. |
| `Profiles.UploadProfileImage` | supabase/functions/upload-profile-image/index.ts:10-150 | 405 exactly for a method other than OPTIONS and POST, and 401 exactly for no user. A refused image gets 400 with the check's message. Refusals change nothing. A passing upload puts the file at the user's path. A success sets `avatar_path`, keeping the other metadata. When the image is accepted, the upload works, the public URL is non-empty and the metadata update works, the request succeeds. |
| `Profiles.ReuploadReplaces` | supabase/functions/upload-profile-image/index.ts:78-86 | A second avatar with the same extension overwrites the first. |
| `Profiles.OtherExtensionLeavesOld` | supabase/functions/upload-profile-image/index.ts:78-86 | An avatar with another extension leaves the old object in the bucket. |
| `Profiles.UpdateProfile` | supabase/functions/update-profile/index.ts:10-107 | 405, 401, 400 'required' (missing or non-string name) and 400 'between 1 and 100' (trimmed length outside 1..100) in that order. A success stores the trimmed name and keeps the other keys. |
| `Profiles.BlankNameRejected` | supabase/functions/update-profile/index.ts:50-64 | A white-space name passes the presence check but fails the length check. |
| `Profiles.UpdateUserSettings` | supabase/functions/update-user-settings/index.ts:10-98 | 405, 401 and 400 'Settings are required' exactly as the guards say. A success sets `display_units` and `email_notifications` and keeps every other key. |
| `Profiles.OnlyCallerChanged` | supabase/functions/update-user-settings/index.ts:64-73 | The three account functions leave every other user's metadata as it was. |
| `ProfilePage.Heads` | client/src/components/ProfilePage.tsx:222 | Gives the first character of each non-empty piece, in order. |
| `ProfilePage.Initials` | client/src/components/ProfilePage.tsx:221-223 | At most two characters: the upper-cased first letters of the first non-empty words. |
| `ProfilePage.InitialsOfTwoWords` | client/src/components/ProfilePage.tsx:221-223 | "first last" gives the two capitals. |
| `ProfilePage.DisplayName` | client/src/components/ProfilePage.tsx:74 | A truthy `display_name` wins, then the e-mail's part before '@', then 'User'. |
| `ProfilePage.AvatarUrl` | client/src/components/ProfilePage.tsx:64-71 | `avatar_path` (as a public URL) takes precedence over `avatar_url`. There is no image exactly when both are falsy. |
| `ProfilePage.UploadedAvatarShown` | client/src/components/ProfilePage.tsx:64-67 | After a successful upload the page shows the uploaded object, whatever `avatar_url` remains. |
| `ProfilePage.UpdatedNameShown` | client/src/components/ProfilePage.tsx:74 | After a successful name update, the reloaded user shows the trimmed name. |
| `ProfilePage.LocalUpload` | client/src/components/ProfilePage.tsx:129-144 | Nothing happens without a file or session. A disallowed type, then a size over 5 MiB, is refused before any request. |
| `ProfilePage.LocalCheckMatchesServer` | client/src/components/ProfilePage.tsx:134-144 | The page sends a file exactly when the server's image checks accept it. |
| `ProfilePage.Cancel` | client/src/components/ProfilePage.tsx:89-92 | Cancelling stops editing and restores the edited name to the shown name. Messages are kept. |
| `ProfilePage.CancelForgetsEdits` | client/src/components/ProfilePage.tsx:84-92 | Cancelling forgets whatever was typed. |
| `ProfilePage.Save` | client/src/components/ProfilePage.tsx:94-127 | On success the page shows the name as typed and stops editing. On failure it shows the error and keeps the name. |
| `ProfilePage.SavedNameShownUntrimmed` | client/src/components/ProfilePage.tsx:118 | A name typed with surrounding spaces is shown with them, though the server stores it trimmed. |
| `SettingsPage.Overlay` | client/src/components/SettingsPage.tsx:108 | Patched fields take the new values, and the others keep theirs. |
| `SettingsPage.OverlayLaws` | client/src/components/SettingsPage.tsx:108 | The empty patch changes nothing. A patch applied twice acts once. Two patches compose into one. |
| `SettingsPage.Body` | client/src/components/SettingsPage.tsx:117 | The body holds the units and notification choice under `settings`. |
| `SettingsPage.SaveSettings` | client/src/components/SettingsPage.tsx:103-138 | On success the overlay becomes the page's and the app's settings. On failure the settings are kept and the error is shown. Loading always ends. |
| `SettingsPage.SavedSettingsStored` | supabase/functions/update-user-settings/index.ts:48-73 | The body the page sends is stored unless the update fails, and other metadata keys are kept. |
| `SettingsPage.PasswordProblem` | client/src/components/SettingsPage.tsx:140-149 | A mismatch is refused first, then a length under 6. Otherwise the request goes ahead. |
| `SettingsPage.ChangePassword` | client/src/components/SettingsPage.tsx:140-184 | A refusal only sets the error. A success closes and clears the dialog. A failure keeps the dialog and shows the error. |
| `SettingsPage.MismatchReportedFirst` | client/src/components/SettingsPage.tsx:141-149 | A mismatch is reported even for a short password, and an enabled button can still lead to a refusal. |
| `SettingsPage.DeletionProblem` | client/src/components/SettingsPage.tsx:227-231 | Deletion goes ahead exactly for the word 'DELETE'. |
| `SettingsPage.DeleteButtonMatchesCheck` | client/src/components/SettingsPage.tsx:480 | The delete button is enabled exactly when the check on submit passes. Other case or padding is refused. |
| `AuthDialog.Close` | client/src/components/AuthDialog.tsx:36-45 | Closing clears every field and message and stops loading, keeping only the mode. |
| `AuthDialog.CloseForgets` | client/src/components/AuthDialog.tsx:36-45 | Two dialogs in one mode close to the same state, and closing is idempotent. |
| `AuthDialog.SwitchMode` | client/src/components/AuthDialog.tsx:94-98 | Sets the mode and clears both messages. Everything else is kept. |
| `AuthDialog.SignUpProblem` | client/src/components/AuthDialog.tsx:62-69 | A mismatch is refused first, then a length under 6. |
| `AuthDialog.SameRulesAsPasswordChange` | client/src/components/AuthDialog.tsx:62-69 | Sign-up and password change refuse the same pairs, for the same reasons and in the same order. |
| `AuthDialog.Settle` | client/src/components/AuthDialog.tsx:53-91 | A throw shows the fixed message. A returned error shows its own message. A clean answer takes the success state. |
| `AuthDialog.Submit` | client/src/components/AuthDialog.tsx:47-92 | Loading always ends. Sign-in closes on success. Sign-up and reset show their message and return to sign-in. A refused sign-up does not reach the service. |
| `AuthDialog.RefusedSignUpAsksNothing` | client/src/components/AuthDialog.tsx:61-71 | A refused sign-up's outcome does not depend on the service. |
| `AuthDialog.SuccessReturnsToSignIn` | client/src/components/AuthDialog.tsx:54-86 | Every successful submission ends in sign-in mode. |
| `AuthDialog.SubmitEnabledLaws` | client/src/components/AuthDialog.tsx:226 | Only reset mode may be submitted without a password. |

## Left out

- The language model provider, the Supabase clients, signed URLs and `fetch` are inputs: outcome datatypes, a token-verification function and flags. Base64 encoding itself is not modelled. Only whether the spread conversion of `analyze-image` throws is, through the engine's argument limit `argLimit`. Prompts are not modelled.
- `Http.RuntimeError`: the 500 message of a thrown runtime error, such as reading a property of `null`, is a placeholder. The engine's own message text is not modelled.
- Provider content: `None` stands for a `null` `content`. A reply whose `message` has no `content` key at all, so that it reads as `undefined`, is not modelled. In `analyze-image` such a reply would get the fallback without `generalAssessment` and `result` (supabase/functions/analyze-image/index.ts:116-135), and in `analyze-saved-image` a 500 (supabase/functions/analyze-saved-image/index.ts:164). The model answers both as for `null`.
- `Math.random`, `crypto.randomUUID` and the clock are parameters: a bounded draw, a given id, a given time.
- Concurrency between requests is not modelled. The model is sequential, so the check-then-insert races on the five-image cap and on result rows are not captured.
- Floating point is not modelled. Numbers are exact reals, NaN and Infinity are absent, a number that does not parse reads as 0, and turning a number into text is the parameter `fmt`.
- Only ASCII letters have case. This matches the `i` flag without `u`; `toUpperCase` on other letters is not modelled. Strings are sequences of UTF-16 code units without surrogate pairs.
- `String(v)` of an object whose own `toString` key is a string would throw in JavaScript. The model renders it like any other object.
- `SetupForm.InitialSetup`: the default volume is a parameter, because `tankVolumesLiters` is not exported by the catalogue module.
- `Gallery.UploadImage`: the removal of the stored object after a failed insert is modelled as the storage set being unchanged. A failing removal is not modelled.
- `SetupStore.List` and `SetupStore.Latest` keep table order. The database's `created_at` ordering of the setup list is not modelled, and neither are cascading deletes of child rows.
- `Profiles.Merge`: assumes `updateUserById` stores the sent `user_metadata` as the whole new metadata. Then a key sent as `undefined` is dropped. If the auth service merged the sent object into the stored one instead, such a key would keep its stored value.
- `SetupStore.Load`: the message of a failing `.single()` is the constant `NoSingleRow`. The analysis read takes the newest row by `SetupStore.Latest`, which may pick a different row than the database among rows with the same `created_at`.
- Exceptions thrown inside the saved-setup service, answered with "An unexpected error occurred …", are not modelled.
- User-interface layout, styling, icons, dialogs opening and closing, timers that clear messages (`setTimeout`), placeholders and option labels are not modelled.
- The pages' initial loads (`useEffect`, `loadUserSettings`, `get-user-settings`) are not modelled.
- The change-password, delete-account and remove-profile-image requests are not modelled. `handleExportData` is not modelled either. Only the page-side guards in front of them are.
- After an avatar upload the page refreshes the user. Only the resulting metadata is modelled, not `refreshUser` or `data.imageUrl`.
- The functions `export-user-data`, `get-analysis-history` and `health`, and the dead file `client/src/App_old.tsx`, are not part of this model.
- Date and locale formatting, and file-size formatting, are not modelled.

## Findings

| source | as written | input that shows it | evidently intended | confidence | as-written member | corrected member |
|---|---|---|---|---|---|---|
| supabase/functions/analyze-image/index.ts:55 | The accepted image is base64-encoded with `String.fromCharCode(...new Uint8Array(imageBuffer))`, one call argument per byte, before the mock check. | An accepted one-mebibyte JPEG in mock mode, with an engine that accepts fewer arguments per call than that. | The byte-by-byte conversion that `analyze-saved-image` uses for large images (supabase/functions/analyze-saved-image/index.ts:94-100), which any accepted size survives. | medium; not executed | `ImageAnalysis.LargeImageRefusedInMockMode` | `ImageAnalysis.AnalyzeImageBytewise` |
| supabase/functions/analyze-saved-image/index.ts:176 | The livestock guard `content.includes('fish\|coral\|livestock')` looks for that literal text, bars included. | A reply "The fish thrive." that is not JSON. | The guard of the alternation the regular expression beside it uses: the reply mentions fish, coral or livestock. | high; not executed | `ImageAnalysis.LivestockGuardMissesFish` | `ImageAnalysis.LivestockQuotesFish` |

In the first row, the handler as written is `ImageAnalysis.AnalyzeImage`, and `ImageAnalysis.AnalyzeImageWithinLimit` shows it agrees with the byte-by-byte handler up to the limit. In the second row, with the literal guard, that reply gets "No specific livestock analysis available." even though it has a livestock sentence. `ImageAnalysis.LivestockAsWritten` is the field as written, and the fallback breakdown of the handler uses it. `ImageAnalysis.Livestock` is the corrected field. `ImageAnalysis.LivestockAgreesOnLiteral` shows the two agree on a reply that does contain the literal text.
