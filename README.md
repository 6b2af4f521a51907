# Cooper of the Crop portfolio: a verified model of its rules

This project models the small deterministic rules inside a sports-photography portfolio site and
its admin area, and proves what they promise. The site has two parts:

- The public pages are static. Their galleries are built from `js/config.js`.
- The admin area is a set of React pages over a hosted database and file store.

The parts modelled are:

- **Themes** (`js/theme.js`):
  - normalising an arbitrary value onto the default theme;
  - the preset lookup;
  - the CSS variables and motion level written by `applyTheme`;
  - the admin theme studio, which keeps a draft theme and a published theme and edits them through its controls (preset select, motion select, colour inputs).
- **Uploads** (`app/admin/upload/page.tsx`):
  - which files are queued;
  - the storage path of each upload;
  - how an image is scaled to fit 2048 x 2048;
  - the progress list and how each upload moves its entry through pending, uploading, success or error;
  - the buttons that remove entries.
- **Best Of curation** (`app/admin/best-of/page.tsx`):
  - the order a new entry gets;
  - moving an entry (exchange with a neighbour, then renumber);
  - switching an entry on or off;
  - the images still available to add.
- **The grid gallery** (`js/gallery.js`):
  - which pictures a category shows and under which paths;
  - the featured first item;
  - the orientation class from the aspect ratio;
  - the lightbox with explicit wrap-around.
- **The stacked gallery** (`js/gallery-cinematic.js`):
  - the category-to-folder mapping;
  - the items;
  - the lightbox whose buttons wrap with the remainder operator;
  - the counter text.
- **The galleries admin page** (`app/admin/galleries/page.tsx`):
  - switching visibility;
  - the heading;
  - the image count label.
- **The dashboard** (`app/admin/dashboard/page.tsx`): counting the images per category.

Module by file:

- `theme.dfy`, `upload.dfy`, `best_of.dfy`, `gallery.dfy`, `cinematic_gallery.dfy`, `galleries.dfy` and `dashboard.dfy` each model one source file.
- `records.dfy` holds the shapes of the database rows.
- `portfolio.dfy` holds the gallery configuration.
- `wrappers.dfy`, `seqs.dfy` and `text.dfy` are shared helpers: an Option type, a filter, and decimal rendering.

Where the source changes state step by step, the model does too:

- The theme studio and the three admin pages with state are classes. Their methods reassign the fields.
- Loops become methods with invariants, proved against specification functions:
  - the colour copy loop;
  - the upload loop;
  - the gallery item loops;
  - the dashboard's counting `reduce`.
- `moveImage` exchanges two slots of an array copy through a temporary.

Whatever the browser, the database or the file store would answer is a parameter of the operation that needs it.

A JavaScript value that is absent, `null`, `undefined` or the empty string is modelled as the empty string. That is the string-valued part of JavaScript's falsy values, which the source tests with `||`. Non-string values are not represented (see "Left out").

## Model

| member | source | states |
|---|---|---|
| Theme.Normalized | js/theme.js:100-118 | every normalised theme is well formed: id, name and motion non-empty, exactly the six colour keys, each with a non-empty value |
| Theme.NormalizeContract | js/theme.js:100-118 | a non-object gives the default theme; otherwise id, name and motion are the incoming value when truthy and the default's when not; the colours are exactly the six keys (other keys dropped), each the incoming colour when truthy and the default's otherwise |
| Theme.OverlayAt | js/theme.js:110-116 | the colour loop keeps the key set of its base and a key takes the source value exactly when it is visited and that value is truthy |
| Theme.OverlayKeepsKeys | js/theme.js:109-116 | the colour loop keeps the keys of its base and never replaces a non-empty value by an empty one |
| Theme.NormalizeFixesWellFormed | js/theme.js:100-118 | a theme that is already normalised comes back unchanged |
| Theme.NormalizeIdempotent | js/theme.js:100-118 | normalising twice gives the same theme as normalising once |
| Theme.CopyTruthyColors | js/theme.js:110-116 | the `ColorKeys.forEach` loop produces the colour overlay of the specification |
| Theme.NormalizeTheme | js/theme.js:100-118 | the step-by-step overwrite of a default copy equals the normalised theme |
| Theme.FindById | js/theme.js:92-94 | like `Array.prototype.find`: the result is the first preset in the list with the requested id, or none when no preset has it |
| Theme.GetPresetById | js/theme.js:92-94 | the result is a well-formed preset; it has the requested id when some preset does; it is the default theme when none does |
| Theme.PresetsWellFormed | js/theme.js:27-81 | every preset is well formed |
| Theme.CssVarsContract | js/theme.js:120-130 | `Theme.ToCssVars`, the model of toCssVars, yields exactly seven custom properties: `--<key>` holding each colour, and `--motion-level` holding the motion or `subtle` when it is falsy |
| Theme.CssVarNamesDistinct | js/theme.js:120-130 | the seven custom-property names are pairwise different, so none overwrites another |
| Theme.MotionLevel | js/theme.js:139-143 | the motion level is `reduced` whenever reduced motion is preferred, and the normalised theme's own level otherwise |
| Theme.ApplyTheme | js/theme.js:139-147 | the properties applyTheme sets are those of the normalised theme with the settled motion level |
| Theme.AppliedVarsContract | js/theme.js:139-147 | applyTheme writes seven properties: the normalised colours, and a motion level that is `reduced` whenever reduced motion is preferred |
| Theme.EditedAt | js/theme.js:304-316 | an edit from the controls keeps the draft well formed, keeps its id and name, sets the motion only from a present motion control, and changes only the colours whose input is non-empty |
| Theme.EditTheme | js/theme.js:304-316 | normalising the draft and then taking the motion and the non-empty colours from the controls gives the specified edit, which is well formed |
| Theme.RefreshThenEditKeeps | js/theme.js:287-316 | showing a well-formed theme in the controls and then reading them back gives the same theme |
| Theme.RefreshShows | js/theme.js:287-302 | refreshing keeps the set of colour inputs, and every input of a colour key shows the theme's colour |
| Theme.RefreshedControls | js/theme.js:287-302 | a control exists afterwards exactly when it did before; each that exists shows the well-formed theme's id, motion or colour; the set of colour inputs is kept |
| Theme.ThemeStudio.constructor | js/theme.js:260-271 | both themes are loaded and normalised, falling back to the default when nothing is stored; the draft is shown in the controls and applied |
| Theme.ThemeStudio.RefreshInputs | js/theme.js:287-302 | every control that exists shows the theme's value; the controls then show a well-formed theme |
| Theme.ThemeStudio.UpdateThemeFromInputs | js/theme.js:304-317 | the draft becomes the controls' edit of the normalised draft, stays well formed, and is applied |
| Theme.ThemeStudio.ShowAndApply | js/theme.js:325-327 | a shown-then-read-back theme becomes the draft unchanged; the published theme is untouched |
| Theme.ThemeStudio.SelectPreset | js/theme.js:322-329 | choosing a preset makes that preset (or the default when the id is unknown) the draft; the published theme is untouched; the preset select shows its id, the other controls keep their presence and colour keys, and the draft is applied |
| Theme.ThemeStudio.SetDraftTheme | js/theme.js:371-375 | the normalised argument becomes the draft, is shown in the controls (which keep their presence and colour keys) and is applied |
| Theme.ThemeStudio.RevertDraft | js/theme.js:387-391 | the draft becomes the published theme, which is untouched; the controls show it, keep which of them exist and keep their colour keys; the reverted draft is applied |
| Theme.ThemeStudio.ResetDefault | js/theme.js:392-396 | the draft becomes the default theme and the published theme is untouched; the controls show it, keep which of them exist and keep their colour keys; the default is applied |
| Theme.ThemeStudio.SaveDraft | js/theme.js:376-380 | neither theme changes; the stored theme is the draft |
| Theme.ThemeStudio.Publish | js/theme.js:381-386 | the published theme becomes the draft, the draft is unchanged, and the stored theme is the new published theme |
| Theme.ThemeStudio.OnVisible | js/theme.js:344-356 | without a changed timestamp neither theme nor any control changes; with one, each theme is reloaded when its slot holds a theme and kept otherwise, and the controls show the draft, keeping which of them exist and their colour keys |
| Theme.ThemeStudio.OnReducedMotionChange | js/theme.js:135-137 | the media-query answer is recorded for the next application |
| Theme.ThemeStudio.GetDraftTheme | js/theme.js:369 | returns the draft |
| Theme.ThemeStudio.GetPublishedTheme | js/theme.js:370 | returns the published theme |
| Upload.QueuedEntries | app/admin/upload/page.tsx:62-66 | one entry per image file, in order, each pending at progress 0 under the file's name |
| Upload.SanitizeFileName | app/admin/upload/page.tsx:95 | the length is kept; every character of the result is allowed or `_`; allowed characters stay where they were; every other character becomes `_` |
| Upload.SanitizeKeepsSafeNames | app/admin/upload/page.tsx:95 | a name that is already safe is unchanged, so sanitising is idempotent |
| Upload.LastIndexOf | app/admin/upload/page.tsx:97 | the result is -1 or a position holding the character, with no occurrence after it |
| Upload.BaseName | app/admin/upload/page.tsx:97-100 | the base name is a prefix of the sanitised name: the whole name when it has no `.`, otherwise the part before a `.` after which no `.` follows |
| Upload.ObjectNameShape | app/admin/upload/page.tsx:94-101 | the object name holds no `/`, starts with the timestamp's digits (which read back as the timestamp) and `_`, and ends in `.jpg` |
| Upload.StoragePathFolder | app/admin/upload/page.tsx:101 | every path is the category's folder, `/`, and the object name, so every upload lands directly in its category's folder |
| Upload.FitWithinContract | app/admin/upload/page.tsx:168-182 | `Upload.FitWithin`, the model of the scaling branch: a picture that fits keeps its size; the result fits 2048 x 2048; the aspect ratio is kept (as a cross product); when scaling, the width becomes 2048 if the width is strictly longer, else the height does |
| Upload.ScaledSideBound | app/admin/upload/page.tsx:173-180 | scaling the shorter side by max/longer keeps it within [0, max] and the ratio exact |
| Upload.ScaleDimensions | app/admin/upload/page.tsx:168-182 | the reassignments of `width` and `height` compute the scaled size of the specification |
| Upload.CompressContract | app/admin/upload/page.tsx:157-222 | `Upload.Compress`, the model of compressImage: each failure rejects with its own message; on success the reported size is the floor of the scaled size, within 2048 x 2048, and a picture that already fits keeps its exact size |
| Upload.CompressImage | app/admin/upload/page.tsx:157-222 | the step-by-step compression gives the specified answer |
| Upload.ApplyStepsSnoc | app/admin/upload/page.tsx:77-152 | applying one more progress update extends the entry's history by that update |
| Upload.ApplyStepsKeepsName | app/admin/upload/page.tsx:77-152 | no progress update changes an entry's file name |
| Upload.OutcomeSucceeds | app/admin/upload/page.tsx:75-140 | `Upload.Outcome` and `Upload.Pipeline`, the model of one uploadFile run: a fully successful upload goes uploading at 0, then 25, then 75, and ends as success at 100; it stores its storage path and inserts one draft row at order 0 with the compressed size |
| Upload.OutcomeFails | app/admin/upload/page.tsx:75-152 | `Upload.Outcome`, the model of uploadFile's catch path: a failure anywhere ends the entry as an error with a message and its name kept, and inserts no row |
| Upload.AfterFilesEntries | app/admin/upload/page.tsx:71-81 | applying n files' updates patches entries start to start+n-1, each with its own file's updates, and leaves every other entry as it was |
| Upload.AfterFilesOwnEntries | app/admin/upload/page.tsx:68-73 | when the index base is the length the page had rendered, each file's updates land on its own queued entry; earlier entries and entries of files not yet reached are untouched |
| Upload.RemoveAt | app/admin/upload/page.tsx:225-233 | an index in range removes exactly that entry and keeps the rest in order; any other index changes nothing |
| Upload.UploadPage.constructor | app/admin/upload/page.tsx:23-24 | the page starts on the track category with an empty list |
| Upload.UploadPage.SelectCategory | app/admin/upload/page.tsx:23 | the chosen category is recorded |
| Upload.UploadPage.Patch | app/admin/upload/page.tsx:77-81 | one `setUploads` update extends the entry's history by one update |
| Upload.UploadPage.UploadOne | app/admin/upload/page.tsx:75-153 | one file's upload applies the specified updates to its entry, and appends the specified files and rows |
| Upload.UploadPage.StoreCompressed | app/admin/upload/page.tsx:84-140 | after compression succeeds, the entry reaches 25 and then either fails with the storage error or, once the object is stored under its path, goes on to the row insert, as the specification says |
| Upload.UploadPage.InsertRow | app/admin/upload/page.tsx:114-140 | after the object is stored the entry reaches 75 and then either fails with the database error or records one draft row for the stored path and ends as success |
| Upload.UploadPage.UploadEach | app/admin/upload/page.tsx:71-154 | the loop leaves the list, stored files and rows of the specification after all files |
| Upload.UploadPage.HandleFiles | app/admin/upload/page.tsx:52-155 | with no image file, it alerts and nothing changes; otherwise the image files are queued after the existing entries and uploaded in order, the i-th at the rendered length plus i |
| Upload.UploadPage.RetryUpload | app/admin/upload/page.tsx:225-228 | the entry at the index is removed |
| Upload.UploadPage.CancelUpload | app/admin/upload/page.tsx:230-233 | the entry at the index is removed |
| Upload.UploadPage.ClearCompleted | app/admin/upload/page.tsx:235-237 | exactly the uploading or pending entries stay, in order |
| BestOf.MaxOrder | app/admin/best-of/page.tsx:57-59 | the largest order is at least every entry's order and is the order of some entry |
| BestOf.NextOrder | app/admin/best-of/page.tsx:57-65 | a new entry's order is 0 for an empty list, greater than every existing order, and exactly one more than some existing order |
| BestOf.SwappedContract | app/admin/best-of/page.tsx:124-127 | the exchange is a permutation: the two places hold each other's entry and every other place keeps its own |
| BestOf.RenumberedContract | app/admin/best-of/page.tsx:130 | every order becomes its position; id, image and flag are kept |
| BestOf.MovedContract | app/admin/best-of/page.tsx:118-130 | `BestOf.Moved`, the model of moveImage's new list: a target outside the list changes nothing; otherwise the entry and its neighbour are exchanged, all other entries stay in place, every order equals its position, and the entries apart from their orders are a permutation of the old ones |
| BestOf.MoveDownThenUp | app/admin/best-of/page.tsx:117-130 | moving an entry down and then back up restores the list, renumbered |
| BestOf.WithEnabledContract | app/admin/best-of/page.tsx:108-110 | `BestOf.WithEnabled`, the model of the local flag update: only entries with the id change, and only their flag, which takes the new value; setting it back restores the list |
| BestOf.AvailableImagesContract | app/admin/best-of/page.tsx:156-158 | `BestOf.AvailableImages`, the model of availableImages: no available image is featured, and every image that is not featured is available |
| BestOf.BestOfPage.constructor | app/admin/best-of/page.tsx:12-15 | the page starts empty and loading, with the dialog closed |
| BestOf.BestOfPage.LoadData | app/admin/best-of/page.tsx:21-52 | each list is replaced when its query succeeds; a failed images query stops before the featured one; loading ends in every case |
| BestOf.BestOfPage.AddToFeatured | app/admin/best-of/page.tsx:54-77 | the row inserted is enabled and has the next order; success closes the dialog; failure alerts "Failed to add image to Best Of" |
| BestOf.BestOfPage.RemoveFromFeatured | app/admin/best-of/page.tsx:79-96 | nothing is deleted without confirmation; with it, the entry is deleted, and a failed delete alerts "Failed to remove image" |
| BestOf.BestOfPage.ToggleEnabled | app/admin/best-of/page.tsx:98-115 | a successful update negates the flag of the entries with the id; a failed one changes nothing and alerts "Failed to update image" |
| BestOf.BestOfPage.MoveImage | app/admin/best-of/page.tsx:117-141 | the in-place exchange and renumbering give the moved list of the specification; an order update is sent for every entry, setting it to its position, and none is sent when the target is outside the list |
| Gallery.ShownImages | js/gallery.js:37 | a category always shows at least one picture: its configured images, or the placeholders |
| Gallery.GalleryItemsContract | js/gallery.js:37-55 | one item per shown picture, in order, each at its own index; exactly the first is featured; configured images are prefixed with `images/<category>/`; placeholders are used as they are |
| Gallery.ClassifyBands | js/gallery.js:88-103 | `Gallery.Classify`, the model of the ratio thresholds: each orientation class is exactly one band of ratios (below 0.7, up to 0.9, up to 1.1, up to 1.8, and above), so every ratio has exactly one class |
| Gallery.ClassifyMonotone | js/gallery.js:88-103 | a wider picture never gets a taller class |
| Gallery.ItemLayoutContract | js/gallery.js:77-105 | `Gallery.ItemLayout`, the model of the layout branch: the featured item is 16:9 whatever its size; any other item with both sides positive gets its own positive ratio and that ratio's class; an item with a zero side gets nothing |
| Gallery.SteppedInRange | js/gallery.js:186-194 | `Gallery.Stepped`, the model of the explicit wrap-around: a step of one either way from an index in range stays in range and equals the step taken modulo the length |
| Gallery.SteppedRoundTrip | js/gallery.js:186-194 | forward then back, or back then forward, returns to the same picture |
| Gallery.GalleryPage.constructor | js/gallery.js:129-130 | the lightbox starts at index 0 with an empty list |
| Gallery.GalleryPage.InitGallery | js/gallery.js:13-59 | an unknown category changes nothing; otherwise the title is set and, when the grid exists, the items are those of the specification and the lightbox list is their pictures |
| Gallery.GalleryPage.InitLightbox | js/gallery.js:132-135 | the lightbox list is the pictures of the items, in order |
| Gallery.GalleryPage.UpdateCounter | js/gallery.js:201-204 | the counter shows the index plus one and the list length |
| Gallery.GalleryPage.OpenLightbox | js/gallery.js:168-178 | the index becomes the argument, its picture and counter are shown, and the lightbox is active |
| Gallery.GalleryPage.CloseLightbox | js/gallery.js:180-184 | the lightbox is no longer active |
| Gallery.GalleryPage.NavigateLightbox | js/gallery.js:186-199 | the index moves with the explicit wrap-around; its picture and counter are shown |
| CinematicGallery.DirectoryName | js/gallery-cinematic.js:36 | `bestOf` maps to `best-of`; every other key maps to itself |
| CinematicGallery.BasePathIsImageFolder | js/gallery-cinematic.js:36-37 | every configured category's pictures are looked up in one of the image folders |
| CinematicGallery.DirectoryNamesAreImageFolders | js/gallery-cinematic.js:36 | every configuration key names an existing image folder once mapped |
| CinematicGallery.GridGalleryMissesBestOfFolder | js/gallery.js:38 | once the bestOf gallery lists a picture, the grid gallery looks for it in a `bestOf` folder that does not exist, while the stacked gallery looks in `best-of` |
| CinematicGallery.GalleryItemsContract | js/gallery-cinematic.js:34-44 | one item per shown picture, in order, whose data-index is its position; configured images are under the mapped folder; placeholders are used as they are |
| CinematicGallery.JsRem | js/gallery-cinematic.js:178 | JavaScript's `%`: the result differs from the dividend by a multiple of the divisor, is smaller than the divisor in size, and has the sign of the dividend (zero or positive for a non-negative dividend, zero or negative for a negative one) |
| CinematicGallery.JsRemUnique | js/gallery-cinematic.js:178 | those three properties single out one value, so they characterise JavaScript's remainder completely |
| CinematicGallery.NextValue | js/gallery-cinematic.js:187-188 | `CinematicGallery.Next`, the model of showNextImage's index: from an index in range, next goes one further, or to 0 after the last |
| CinematicGallery.PrevValue | js/gallery-cinematic.js:177-178 | `CinematicGallery.Prev`, the model of showPrevImage's index: from an index in range, previous goes one back, or to the last from 0 |
| CinematicGallery.NextPrevInRange | js/gallery-cinematic.js:177-194 | both buttons keep the index in range, and each undoes the other |
| CinematicGallery.RemainderMatchesWrap | js/gallery-cinematic.js:178-188 | the remainder arithmetic agrees with the grid gallery's explicit wrap-around |
| CinematicGallery.CounterTextInjective | js/gallery-cinematic.js:197-202 | different pictures of one lightbox show different counter texts |
| CinematicGallery.CinematicPage.constructor | js/gallery-cinematic.js:74-75 | the lightbox starts at index 0 with an empty list |
| CinematicGallery.CinematicPage.InitGallery | js/gallery-cinematic.js:10-48 | an unknown category changes nothing; otherwise the title is set and, when the grid exists, the items are those of the specification and the lightbox list is their pictures |
| CinematicGallery.CinematicPage.OpenLightbox | js/gallery-cinematic.js:153-166 | the index becomes the argument, its picture and counter text are shown, and the lightbox is active |
| CinematicGallery.CinematicPage.CloseLightbox | js/gallery-cinematic.js:168-175 | the lightbox is no longer active |
| CinematicGallery.CinematicPage.ShowPrevImage | js/gallery-cinematic.js:177-185 | the index moves to the previous one with the remainder operator; its picture and counter are shown |
| CinematicGallery.CinematicPage.ShowNextImage | js/gallery-cinematic.js:187-195 | the index moves to the next one with the remainder operator; its picture and counter are shown |
| Galleries.ToggledVisibility | app/admin/galleries/page.tsx:72 | the new visibility is draft or public, and it is draft exactly when the current one is public |
| Galleries.ToggleTwice | app/admin/galleries/page.tsx:72 | toggling twice restores public or draft; any other value becomes public after one toggle |
| Galleries.WithVisibilityContract | app/admin/galleries/page.tsx:83-85 | the list keeps its length and order; images with the id take the new visibility and keep every other field; all other images are unchanged |
| Galleries.ToggleVisibilityTwice | app/admin/galleries/page.tsx:71-90 | two successful toggles starting from the image's own visibility restore the list |
| Galleries.ToggleVisibility | app/admin/galleries/page.tsx:71-90 | a failed update alerts and leaves the list alone; a successful one gives no alert, keeps the length and order, flips the visibility of the images with the id and keeps every other image |
| Galleries.FindTab | app/admin/galleries/page.tsx:136 | the result is the first tab with the value, or -1 exactly when no tab has it |
| Galleries.HeadingContract | app/admin/galleries/page.tsx:7-13 | `Galleries.Heading`, the model of the heading lookup: each tab's value shows that tab's own caption (all five captions, from the tab list); any other value falls back to `Images` |
| Galleries.TabHeadings | app/admin/galleries/page.tsx:7-13 | the lookup of each tab's value stops at that tab, so the heading is that tab's caption |
| Galleries.CountLabelPlural | app/admin/galleries/page.tsx:139 | `Galleries.CountLabel`, the model of the count text: the label is plural exactly when the count is not 1 |
| Seqs.FilterCounts | app/admin/upload/page.tsx:54 | `Array.prototype.filter` keeps each element that passes the test as often as it occurs, and drops every other element |
| Seqs.FilterConcat | app/admin/upload/page.tsx:236 | filtering a concatenation filters each part, so the kept elements stay in their order |
| Dashboard.CountCategories | app/admin/dashboard/page.tsx:43-46 | the counts have a key for exactly the categories that occur, holding the number of rows with that category |
| Dashboard.MakeStatsCounts | app/admin/dashboard/page.tsx:48-55 | `Dashboard.MakeStats`, the model of the stats object: each card is the number of rows of its category (0 when there is none; `best-of` for bestOf), and the total is the number of rows |
| Dashboard.KnownCountsSum | app/admin/dashboard/page.tsx:43-54 | when every row has one of the five categories, their counts add up to the number of rows |
| Dashboard.StatsAddUp | app/admin/dashboard/page.tsx:48-54 | with only known categories, the five cards add up to the total card |
| Dashboard.DashboardPage.constructor | app/admin/dashboard/page.tsx:19-27 | the stats start at zero and loading |
| Dashboard.DashboardPage.LoadStats | app/admin/dashboard/page.tsx:33-62 | a successful query replaces every count and the total; a failed one keeps the stats; loading ends in every case |

## Left out

- Non-string JSON values in a stored or received theme are not represented. Examples are a number or `false` as `id`, `name` or `motion` (JavaScript's `||` treats `0`, `false` and `NaN` as falsy too), and a `true` or a number as a colour value, which JavaScript would keep. A stored theme field is modelled as a string, with the empty string for every falsy value.
- Upload.UploadPage.InsertRow records the path it computed, where the source records the storage service's answer `uploadData.path`. The model assumes the service stores the object under the path it was given.
- CinematicGallery.CinematicPage.InitGallery does not model event listeners. In the source, `setupLightboxControls` (js/gallery-cinematic.js:107-140) adds the button and keyboard listeners again on every call.
- Local storage, BroadcastChannel, storage events and timestamps in `js/theme.js` are left out. What a storage slot holds is a parameter (an already parsed value, or none), and what is written is returned. Parse errors collapse into "nothing stored". The `onUpdate` callback and the broadcast after each edit are not modelled.
- `initPreviewListener`, `initPublishedTheme` and the preview badge in `js/theme.js` are left out. Their theme logic is the normalisation and `applyTheme`, which are modelled.
- Theme.ThemeStudio.OnVisible: the two timestamp comparisons are one `changed` parameter, and the timestamp labels are not modelled.
- The DOM is not modelled. Each page is a class whose fields are what the script writes: the title, the items, the lightbox list, index, picture and counter, and `active`. Missing elements (the title element, the lightbox) are assumed present, except for the grid, which is a parameter.
- `img.src` reads back as an absolute URL in a browser. The model keeps the relative path.
- The broken-image fallback to the first placeholder (js/gallery.js:115-118) is left out: it depends on the network.
- The aspect ratio and the orientation thresholds are exact reals, not IEEE doubles. `0.7`, `0.9`, `1.1` and `1.8` are the exact decimal values.
- The scaled upload size is computed over exact reals and then floored. The canvas, `toBlob` and JPEG quality are browser work: whether the image loads, whether a context exists and whether encoding succeeds are parameters.
- Date.now() is a parameter (the timestamp of each attempt). The storage and database answers are parameters too.
- The `uploads` value that `uploadIndex` is computed from is the length the page had rendered. It is a parameter of HandleFiles, as the page's closure captures it.
- Upload.PatchSteps: an update at an index outside the list changes nothing. The source would write a hole into a copied array.
- React's batching of state updates is not modelled: each awaited step runs to completion with no interleaved user action.
- Strings are sequences of characters. UTF-16 surrogate pairs, and the regular expression's behaviour on them, are not distinguished.
- BestOf.BestOfPage.MoveImage requires an index of an existing entry, as its buttons only pass rendered indexes. The parallel order updates are returned, not sent, and a failed update's reload is left out.
- BestOf.BestOfPage.AddToFeatured and RemoveFromFeatured do not model the reload (`loadData`) that follows success. The reload is LoadData with the new query answers.
- The featured rows' joined `image` field is not modelled: nothing modelled reads it.
- CinematicGallery.CinematicPage.ShowPrevImage and ShowNextImage require a non-empty lightbox list. With an empty list, the source computes `NaN`, which the model does not represent; the buttons only exist once a gallery with at least one item is shown.
- `deleteImage` and `loadImages` on the galleries page, and the heading's JSX, are database calls and markup.
- Dashboard.CountCategories counts into a map with no inherited keys. A category named like an Object prototype property is not treated specially.
- The justified-row gallery layout is not modelled: the code replaced it with plain stacking (js/gallery-cinematic.js:6).
- Staggered entrance animations, scroll and menu behaviour (`js/cinematic.js`, `js/editorial.js`), the admin layout, settings and sidebar pages are UI only.

## Findings

| source | as written | input that shows it | evidently intended | confidence | as-written member | corrected member |
|---|---|---|---|---|---|---|
| js/gallery.js:38 | the grid gallery builds the folder as `images/${category}/` from the configuration key itself | the `bestOf` configuration listing any picture: its path is `images/bestOf/...`, but the folder is `images/best-of/` (js/config.js:15) | map `bestOf` to `best-of`, as js/gallery-cinematic.js:36 does | not executed | CinematicGallery.GridGalleryMissesBestOfFolder | CinematicGallery.DirectoryNamesAreImageFolders |
