# ViaVo virtual try-on: a Dafny model of the client core

ViaVo is a single-page fashion try-on app. A visitor uploads a face photo and a
full-body photo, then picks garments from a four-item catalog, choosing a size and
colour for each. A remote image model analyses the body and synthesizes a try-on
picture. The results page shows that picture in a zoom-and-pan viewer, next to a
size recommendation for each garment.

This project models the deterministic logic of the client:

- the data model (`Types`) and the static catalog (`Catalog`);
- the service helpers (`GeminiService`):
  - the base64 payload extraction;
  - the empty-payload check before body analysis;
  - the product description sent to the image model;
  - picking the first inline image from the reply;
  - the nearest-measurement size recommendation;
- the session store (`AppContext`);
- the upload control (`FileUpload`) and the header (`Header`);
- the upload, products and results pages (`UploadPage`, `ProductsPage`, `ResultsPage`);
- the whole application as one transition system over the step, the session and
  the pages' own state (`AppFlow`).

Calls to the remote model are not computed. Each one is a parameter of type
`Remote<T>` that says what the call answered: a body, or a throw.

Four behaviours of the code shape the size and upload parts of the model:

- The size distance adds the chest and waist differences with equal weight
  (services/geminiService.ts:123-124).
- A measurement of 0 counts as absent, because the code tests each one for
  truthiness before using it (services/geminiService.ts:123-124).
- A recommendation's confidence is the constant 0.95. It is not copied from
  the analysis (services/geminiService.ts:130).
- An uploaded file is forwarded as the browser's data URL. There is no resizing
  or re-encoding step (components/FileUpload.tsx:27).

Modules: `Types`, `Strings` (split, join, decimal digits), `GeminiService`,
`Catalog`, `AppContext`, `FileUpload`, `Header`, `UploadPage`, `ProductsPage`,
`ResultsPage`, `AppFlow`.

## Model

| member | source | states |
|---|---|---|
| Types.ParseCategory | types.ts:6 | a category is accepted exactly when it is spelled `tops`, `bottoms` or `outerwear`, and it reads back to that spelling |
| Types.CategoryRoundTrip | types.ts:6 | every category survives writing and reading back its spelling |
| Types.ParseGender | types.ts:12 | a gender is accepted exactly when it is spelled `men`, `women` or `unisex` |
| Types.GenderRoundTrip | types.ts:12 | every gender survives writing and reading back its spelling |
| Types.ParseFitStatus | types.ts:26 | a fit status is accepted exactly when it is spelled `optimal`, `tight` or `loose` |
| Types.ParseStep | types.ts:58-63 | a step value is accepted exactly when it is one of the four spellings `landing`, `upload`, `products`, `results` |
| Types.StepRoundTrip | types.ts:58-63 | every step survives writing and reading back its value |
| Strings.Split | services/geminiService.ts:9 | splitting on a separator gives at least one piece, and no piece holds the separator; joining the pieces gives back the input; the input holds no separator exactly when the only piece is the whole input |
| Strings.SplitJoin | services/geminiService.ts:9 | splitting the join of separator-free pieces gives back those pieces |
| Strings.NatToDecimal | pages/ResultsPage.tsx:60 | a number's decimal text is all digits, with no leading zero, and its value is the number |
| GeminiService.ExtractBase64Data | services/geminiService.ts:7-11 | null or "" gives ""; text without a comma comes back unchanged; otherwise the result is the text between the first comma and the next one; the result never holds a comma |
| GeminiService.ExtractAfterComma | services/geminiService.ts:9-10 | with exactly one comma in the input, the payload is everything after that comma |
| GeminiService.ExtractAfterHeader | services/geminiService.ts:106 | extracting from the PNG data-URL header followed by comma-free data gives back that data |
| GeminiService.AnalyzeBody | services/geminiService.ts:13-16 | analysis fails with "Invalid photo data" exactly when the extracted payload is empty; it succeeds exactly when the payload is non-empty and the remote call answered |
| GeminiService.EmptyPayloadMakesNoRequest | services/geminiService.ts:15-16 | with an empty payload the outcome does not depend on the remote answer, so no request is made |
| GeminiService.ProductInfo | services/geminiService.ts:71-74 | a description exists exactly when every product has an options entry; it is one `name in size S (colour)` entry per product, in order, joined by ", " |
| GeminiService.ProductInfoEmpty | services/geminiService.ts:71-74 | with nothing selected the description is the empty text |
| GeminiService.ProductInfoAppend | services/geminiService.ts:71-74 | one more selected product adds ", " and that product's own `name in size S (colour)` entry at the end, so the text lists the products in selection order |
| GeminiService.SingleProductInfo | services/geminiService.ts:71-74 | a single product's description is its own entry, with no separator |
| GeminiService.FirstInlineImage | services/geminiService.ts:101-110 | an image exists exactly when some part carries inline data; it is the PNG header followed by the data of the first such part, and all parts before it carry none |
| GeminiService.GenerateTryOnResult | services/geminiService.ts:61-113 | synthesis fails for a missing options entry; it succeeds exactly when the call answered with parts and one of them carries an image; the result is the first image as a PNG data URL |
| GeminiService.SynthesisPayloadRoundTrip | services/geminiService.ts:101-112 | extracting the payload from the synthesized data URL gives back the first image part's comma-free data |
| GeminiService.Distance | services/geminiService.ts:122-124 | a distance is never negative; it is 0 exactly when every truthy chest or waist field equals the measured value |
| GeminiService.EarliestMinimumUnique | services/geminiService.ts:125 | at most one entry is the earliest of minimal distance |
| GeminiService.ClosestEntry | services/geminiService.ts:121-126 | on a non-empty table, the chosen entry has minimal distance and no earlier entry ties with it |
| GeminiService.DefaultSize | services/geminiService.ts:119 | the default is the first listed size, or undefined when none is listed |
| GeminiService.RecommendedSize | services/geminiService.ts:118-126 | an empty table gives the default size; otherwise the size of the earliest entry of minimal distance |
| GeminiService.ScanSizes | services/geminiService.ts:118-126 | the forEach scan with an infinite starting bound: an empty table leaves the default; otherwise the result is the size of the earliest entry of minimal distance |
| GeminiService.GetRecommendations | services/geminiService.ts:116-134 | one recommendation per product, in input order, with the product's id, the recommended size, confidence 0.95 and no alternative size |
| GeminiService.RecommendedSizeIsDeclared | services/geminiService.ts:116-126 | when the table's sizes are among the listed ones and at least one size is listed, the recommendation is a listed size |
| GeminiService.NoChestOrWaistPicksFirst | services/geminiService.ts:123-125 | when no entry has a truthy chest or waist, every distance is 0 and the first entry wins |
| Catalog.CatalogIds | constants.tsx:5-79 | the catalog has four products, with ids p1 to p4, and no id repeats |
| Catalog.TablesFollowSizes | constants.tsx:14-22 | each product's measurement table lists exactly its sizes, in the same order |
| Catalog.OneDrivingMeasurement | constants.tsx:17-22 | every entry of a top records a truthy chest and length and no waist or shoulders, and every entry of the trousers a truthy waist and length and no chest or shoulders; the driving measurement strictly increases along the size order |
| Catalog.HenleyChest | constants.tsx:17-22 | the henley is measured by chest alone, and its chest strictly increases with size |
| Catalog.SweaterChest | constants.tsx:35-40 | the sweater is measured by chest alone, and its chest strictly increases with size |
| Catalog.TrousersWaist | constants.tsx:53-59 | the trousers are measured by waist alone, and their waist strictly increases with size |
| Catalog.PoloChest | constants.tsx:72-77 | the polo is measured by chest alone, and its chest strictly increases with size |
| Catalog.OneColourEach | constants.tsx:15 | every product lists exactly one colour and at least one size, so the first colour and size exist |
| Catalog.HenleyAtChest100 | constants.tsx:18-20 | at a chest of 100 cm the henley's S, M and L are 8, 0 and 8 cm away, and M is recommended |
| Catalog.CatalogPicksDeclaredSizes | constants.tsx:14-22 | for any analysis, every catalog product is recommended one of its listed sizes |
| AppContext.DefaultSession | context/AppContext.tsx:16-24 | the default session has no photos, no result and no analysis, and its product list, options and recommendations are empty |
| AppContext.SetStep | context/AppContext.tsx:32 | setting the step changes the step only |
| AppContext.UpdatePhotos | context/AppContext.tsx:34-36 | updating the photos sets both photo fields and changes nothing else |
| AppContext.SelectProduct | context/AppContext.tsx:38-53 | the option keys become the old keys plus the product's id, mapped to the new options, with the other options kept; a selected id keeps the product list, a new one is appended; nothing else changes |
| AppContext.RemoveProduct | context/AppContext.tsx:55-63 | every product with the id is dropped and the id's options key is removed; the other options and fields are kept |
| AppContext.WithoutId | context/AppContext.tsx:58 | filtering keeps exactly the products whose id differs |
| AppContext.WithoutIdIds | context/AppContext.tsx:58 | the ids left after filtering are the old ids minus the removed one |
| AppContext.WithoutAbsentId | context/AppContext.tsx:58 | filtering out an id nobody has changes nothing |
| AppContext.WithoutIdAppend | context/AppContext.tsx:58 | filtering distributes over concatenation |
| AppContext.SetResult | context/AppContext.tsx:65-67 | storing a result sets the image, analysis and recommendations and keeps the photos and the selection |
| AppContext.ResetSession | context/AppContext.tsx:69-72 | a reset gives the default session at the landing step |
| AppContext.SelectedIffListed | context/AppContext.tsx:40 | a product counts as selected exactly when its id is among the selected products' ids |
| AppContext.DefaultSessionSynced | context/AppContext.tsx:16-24 | the default session has ids equal to option keys, no duplicate ids, and no half-stored result |
| AppContext.SelectProductKeepsSynced | context/AppContext.tsx:38-53 | selecting keeps ids equal to option keys and free of duplicates, and leaves the product selected |
| AppContext.RemoveProductKeepsSynced | context/AppContext.tsx:55-63 | removing keeps ids equal to option keys and free of duplicates, and leaves the product unselected |
| AppContext.WithoutIdNoDuplicates | context/AppContext.tsx:58 | filtering never introduces a duplicate id |
| AppContext.SelectProductIdempotent | context/AppContext.tsx:40-46 | selecting the same product with the same options twice is the same as once |
| AppContext.SelectThenRemove | context/AppContext.tsx:47-62 | selecting then removing a product restores the session exactly when the product was not selected before |
| AppContext.TwoSelections | context/AppContext.tsx:47-51 | selecting two new products gives the old list followed by exactly those two, in order, records both options, and keeps the store consistent |
| AppContext.OperationsKeepResultPaired | context/AppContext.tsx:34-67 | no store operation leaves a result image without an analysis, or the reverse |
| FileUpload.HandleFileChange | components/FileUpload.tsx:16-29 | a file is forwarded exactly when one was chosen and it is at most 10 MiB; what is forwarded is the reader's data URL, unchanged |
| FileUpload.SizeLimitBoundary | components/FileUpload.tsx:19 | a file of exactly 10 MiB is accepted and one byte more is rejected |
| Header.NavTarget | components/Header.tsx:26-33 | Home, Photos and Try-On lead to landing, upload and products, and never to results |
| Header.NavTargets | components/Header.tsx:26-30 | the navigation targets are exactly the landing, upload and products steps |
| Header.HighlightCount | components/Header.tsx:35 | on the results step no item is highlighted; on every other step exactly one is |
| Header.ClickLogo | components/Header.tsx:15 | the logo gives the default session at the landing step |
| Header.ClickNav | components/Header.tsx:33 | a navigation item sets its target step and keeps the session |
| Header.ClickBack | components/Header.tsx:44-46 | the back button goes to the landing step and keeps the session |
| UploadPage.HandleFaceUpload | pages/UploadPage.tsx:11 | a face upload replaces the face slot and keeps the body slot |
| UploadPage.HandleBodyUpload | pages/UploadPage.tsx:12 | a body upload replaces the body slot and keeps the face slot |
| UploadPage.HandleRemove | pages/UploadPage.tsx:13-14 | removing a photo empties that slot only |
| UploadPage.ChooseFile | components/FileUpload.tsx:16-29 | no file or a rejected file leaves the session unchanged; an accepted one fills its slot with the data URL; the other slot is kept |
| UploadPage.Continue | pages/UploadPage.tsx:16 | continue leads to the products step exactly when both photos are truthy; otherwise nothing happens; the session is kept |
| UploadPage.DeliverCaptured | pages/UploadPage.tsx:11-12 | a read completing through the handler made at selection time writes back the other slot as it was then |
| UploadPage.CapturedDeliveryLosesFacePhoto | pages/UploadPage.tsx:11-12 | with both slots empty, two reads completing face first lose the face photo |
| UploadPage.Deliver | pages/UploadPage.tsx:11-12 | a read completing against the current session fills its slot and keeps the other |
| UploadPage.RemovedPhotoComesBack | pages/UploadPage.tsx:11-14 | as written, a face read finishing after the body photo was removed writes the removed body photo back |
| UploadPage.DeliveryKeepsRemoval | pages/UploadPage.tsx:11-14 | delivered against the current session, a read fills its own slot and leaves a slot removed meanwhile empty |
| UploadPage.DeliveriesKeepBothPhotos | pages/UploadPage.tsx:11-12 | delivered against the current session, both photos survive, in either order |
| ProductsPage.HandleProductClick | pages/ProductsPage.tsx:16-25 | clicking a selected product removes it and opens no dialog; clicking another opens the dialog on its first size and colour and keeps the session |
| ProductsPage.PickSize | pages/ProductsPage.tsx:162-165 | the j-th size button picks exactly the configured product's j-th size; without a dialog or such a button nothing changes; the dialog and colour are kept, so the picked size stays one the product offers |
| ProductsPage.CloseConfiguration | pages/ProductsPage.tsx:142 | the backdrop and the close button close the dialog |
| ProductsPage.ConfirmSelection | pages/ProductsPage.tsx:27-32 | confirming selects the configured product with the picked size and colour and closes the dialog; with no dialog open nothing happens |
| ProductsPage.StartTryOn | pages/ProductsPage.tsx:34-54 | the run stops at once exactly when nothing is selected, and asks for photos exactly when a photo is missing; it succeeds exactly when there is a selection, both photos are truthy, and both the analysis and the synthesis succeed; on success it used the body analysis, recommendations for the current selection, and synthesis from the current photos and options |
| ProductsPage.PreconditionsNeedNoRemoteCall | pages/ProductsPage.tsx:35-40 | with nothing selected or a photo missing, the outcome does not depend on either remote answer |
| ProductsPage.ApplyTryOn | pages/ProductsPage.tsx:35-60 | on success the result is stored and then the step becomes results; a missing photo leads to the upload step; a failure or an empty selection changes nothing |
| ProductsPage.SuccessfulTryOn | pages/ProductsPage.tsx:44-54 | with a consistent session, photos, an answered analysis and an image in the reply, the run succeeds with a PNG data URL and one recommendation per selected product, in order |
| ResultsPage.AdjustZoom | pages/ResultsPage.tsx:40-46 | the zoom becomes the old zoom plus the change, clamped to 1..4; reaching 1 recentres the image; any other zoom keeps the pan |
| ResultsPage.ZoomStepRoundTrip | pages/ResultsPage.tsx:95-101 | zooming in a half step and back out returns to the same viewer when no bound is hit |
| ResultsPage.MouseDown | pages/ResultsPage.tsx:24-28 | pressing starts a drag only above zoom 1, remembering the cursor relative to the pan |
| ResultsPage.MouseMove | pages/ResultsPage.tsx:30-36 | moving pans to the cursor minus the drag start while dragging, and does nothing otherwise |
| ResultsPage.MouseUp | pages/ResultsPage.tsx:38 | releasing or leaving ends the drag and changes nothing else |
| ResultsPage.DragPansByDisplacement | pages/ResultsPage.tsx:24-36 | a press followed by a move pans the image by exactly the cursor's displacement |
| ResultsPage.NoPanAtMinimumZoom | pages/ResultsPage.tsx:25 | at zoom 1, with no drag in progress, a press and a move leave the viewer as it was |
| ResultsPage.ExportFileName | pages/ResultsPage.tsx:56-60 | there is a file name exactly when the result image is truthy; it is `viavo-tryon-result-`, then the timestamp's decimal digits with no leading zero, then `.png` |
| ResultsPage.ModifySession | pages/ResultsPage.tsx:219-220 | Modify Session goes to the products step and keeps the session |
| AppFlow.Navigate | App.tsx:36-44 | a change of step remounts the pages with fresh state; staying on the same step keeps their state |
| AppFlow.OtherPagesIgnored | App.tsx:36-44 | only the current step's page is rendered, so an event raised by any other page's control changes nothing |
| AppFlow.UploadControlsFollowSlots | components/FileUpload.tsx:41-76 | a slot's file input exists only while the slot is empty and its remove button only while it holds a photo; continue does nothing until both photos are truthy, and then leads to the products step with the session kept |
| AppFlow.DialogGuardsProducts | pages/ProductsPage.tsx:140-189 | while the dialog is open the catalog cards do nothing; without it the size, close and confirm buttons do nothing; the try-on bar does nothing without a selection or while the dialog is open |
| AppFlow.ResultsGuardControls | pages/ResultsPage.tsx:16-22 | without a truthy result image and an analysis, every results control but restart does nothing, and restart starts a fresh session on the landing step; with them, restart does nothing |
| AppFlow.BackHiddenOnLanding | components/Header.tsx:44-46 | the back button does nothing on the landing step, and elsewhere leads to the landing step with the session kept |
| AppFlow.InitSatisfiesInv | context/AppContext.tsx:16-30 | the initial application satisfies the invariant |
| AppFlow.StepKeepsInv | pages/ProductsPage.tsx:16-61 | every event keeps the invariant: ids equal option keys with no duplicates; a result image always comes with an analysis; the results step always has a result to show; zoom stays in 1..4; the configured size is offered; pages off screen hold fresh state |
| AppFlow.NavigationKeepsInv | components/Header.tsx:13-52 | the landing button, the header, continue, Modify Session and the guard's restart keep the invariant; a step change gives the pages fresh state |
| AppFlow.PhotoEventsKeepInv | pages/UploadPage.tsx:11-14 | choosing or removing a photo keeps the invariant |
| AppFlow.ProductClickKeepsInv | pages/ProductsPage.tsx:16-25 | a catalog card click keeps the invariant, including the dialog opening on an offered size |
| AppFlow.DialogEventsKeepInv | pages/ProductsPage.tsx:27-32 | picking a size, closing and confirming the dialog keep the invariant |
| AppFlow.ViewerEventsKeepInv | pages/ResultsPage.tsx:24-46 | the zoom buttons and the cursor keep the invariant, with zoom in 1..4 |
| AppFlow.OutcomeKeepsInv | pages/ProductsPage.tsx:35-60 | storing any try-on outcome from the products step keeps the invariant, given a non-empty image on success |
| AppFlow.TryOnKeepsInv | pages/ProductsPage.tsx:34-61 | the try-on button keeps the invariant, including a truthy result image on entering results |
| AppFlow.RunKeepsInv | pages/ProductsPage.tsx:16-61 | every sequence of events keeps the invariant |
| AppFlow.ReachableStates | pages/ResultsPage.tsx:16-22 | in every reachable state the session is consistent and zoom is in 1..4; on the results step there is a truthy result image and an analysis, so the restart guard is never shown there |
| AppFlow.ResultsEnteredOnlyAfterSetResult | pages/ProductsPage.tsx:53-54 | the results step is entered only by a successful try-on, right after its result was stored, and with a fresh viewer |
| AppFlow.HeaderNeverEntersResults | components/Header.tsx:13-52 | no header control leads to the results step from another step |
| AppFlow.FailedTryOnChangesNothing | pages/ProductsPage.tsx:55-57 | a failed try-on leaves the whole application unchanged |
| AppFlow.MissingPhotoGoesToUpload | pages/ProductsPage.tsx:36-40 | with a photo missing, the try-on button leads to the upload step and keeps the session |
| AppFlow.RejectedFileChangesNothing | components/FileUpload.tsx:17-22 | no file, or a file over the limit, leaves the whole application unchanged |

## Left out

- The remote model calls are not computed. This covers the client set-up, the requests, the prompt text and `JSON.parse` of the reply. `Remote<T>` stands for what a call answered, so a reply that does not match `BodyAnalysis` is out of scope.
- The analysis schema does not ask for `fitMetrics`, yet the results page reads it. The model adds no validation for it.
- The generating flag and its disabled button are left out. A try-on runs as one atomic step, with no other event between its two awaits.
- The file reader's callback is modelled as delivering its data URL at once. Interleavings of a pending read with other events are left out in general. The two under "## Findings" are modelled only as examples of the stale-handler cause: a lost face photo, and a removed photo that comes back.
- A failed read is not modelled. Its `onloadend` still fires, with a null result. `onUpload(null)` then empties the slot and writes back the other slot as it was captured.
- Full-screen toggling, the DOM anchor used for export, `alert`, `console` and all markup are left out. `Date.now` becomes the `timestamp` parameter.
- The rounding of the percent labels is left out. Zoom, pan positions and centimetres are `real`.
- `Object.entries` puts integer-like keys first, in ascending order. A measurement table is modelled as a sequence in iteration order. For the trousers' keys `28` to `36` that order is the declared one.
- NaN and infinite measurements are left out. The scan's starting bound of Infinity is modelled as "no best entry yet".
- The `accept="image/*"` attribute is not modelled. It only suggests image files to the file dialog. The change handler checks no file type, so the model accepts a file of any type that is within the size limit.
- The page transition animation in `StepTransition` is left out. Only its effect of mounting a different page on a step change is modelled (`AppFlow.Navigate`).
- The header hides the navigation items on narrow screens and the back button on wide ones. The model lets every header control fire on any screen.
- ProductsPage.HandleProductClick: requires the product to list at least one size and one colour, which every catalog product does (`Catalog.OneColourEach`). For a product with no colours, `product.colors[0].name` throws a TypeError in the click handler. For a product with no sizes, `product.sizes[0]` is `undefined` and becomes the picked size. Neither case is modelled.
- A fit metric's `value` is documented as a score from 0 to 100. Nothing in the application enforces or uses that range, so the model leaves it unconstrained.
- The header's item labels and icons are display only. A navigation item is modelled by the step it sets (`Header.NavTarget`).
- There is no image normalisation step (resizing, white background, re-encoding) in the code, so none is modelled.

## Findings

| source | as written | input that shows it | evidently intended | confidence | as-written member | corrected member |
|---|---|---|---|---|---|---|
| pages/UploadPage.tsx:11-12 | each upload handler writes back the other slot as it was when the handler was created, and the file read completes later | choose a face photo and then a body photo before either read has finished; the face read completes first, and the body read then writes back the empty face slot | each completed read fills its own slot and keeps whatever the other slot holds at that moment | low, not executed: it depends on the second file being chosen before the page re-renders with the first photo | UploadPage.CapturedDeliveryLosesFacePhoto | UploadPage.DeliveriesKeepBothPhotos |
| pages/UploadPage.tsx:11-14 | a pending read's handler also writes back the other slot as it was when its file was chosen, even after that slot was cleared | with a body photo present, choose a face file and remove the body photo before the face read finishes; the face read then writes the removed body photo back | a completed read leaves a slot removed in the meantime empty | low, not executed: it depends on the removal happening while the read is pending | UploadPage.RemovedPhotoComesBack | UploadPage.DeliveryKeepsRemoval |
