# Osorio & León Group storefront — a verified model of its client-side logic

This project models, in Dafny, the client-side logic of the Osorio & León
Group real-estate site: the storefront's listing pipeline, the back office's
editing workflow, and the string logic behind translations and the chat
assistant.

Storefront listing pipeline:
- the grid predicate over the property list;
- the featured strip;
- the sort menu.

Back-office editing workflow:
- the in-memory upsert and delete on the property list;
- path and authentication routing;
- the admin panel's views;
- the property form with its image slots;
- the dashboard's counters, per-type histogram and "five newest" list.

Filter-editing handlers, in both the filter bar and the filter dialog:
- numeric coercion by input name;
- toggling amenity names;
- the two reset rules.

String logic:
- `{word}` interpolation;
- dotted-key translation lookup with its Spanish fallback;
- the initial language;
- the chat assistant's first-match keyword responder and its message list.

Small computations:
- the listing card's choice of image;
- the star widget's fills.

Modules follow the components:

| module | models |
|---|---|
| `App` | App.tsx |
| `Listing` | the grid/featured/sort part of App.tsx |
| `FilterSection` | components/FilterSection.tsx |
| `FilterModal` | components/FilterModal.tsx |
| `PropertyForm` | components/PropertyForm.tsx |
| `AdminPanel` | components/AdminPanel.tsx |
| `AdminDashboard` | components/AdminDashboard.tsx |
| `PropertyCard` | components/PropertyCard.tsx |
| `StarRating` | components/StarRating.tsx |
| `I18n` | i18n/index.ts |
| `Chatbot` | components/ChatbotAura.tsx |

Three modules are shared by the others:
- `JsValues` models the JavaScript value semantics the code relies on: `NaN` comparisons, `toLowerCase`, `trim`, `includes`, `split` and `Number(...)`.
- `Types` models the records of types.ts. It holds the union of the criteria fields the code actually uses.
- `Sequences` holds `filter` and one stable insertion sort. It gives a functional specification and an in-place array method proved equal to it. Every `sort` of the application is that sort on an integer key; a descending order negates the key.

Where the code changes state, the model does so too:
- `App.AppState`, `AdminPanel.AdminPanel`, `PropertyForm.PropertyForm` and `Chatbot.ChatbotAura` are classes whose methods update their fields.
- The in-place sorts run on arrays.
- The dashboard's `reduce` over an accumulator object is a loop over a map.

Clock readings, `Date.now()` ids and ISO timestamps are integer parameters. The administrator credentials and the translation tables are parameters too. The one-second timer of the chat reply is an explicit `DeliverReply` step.

Behaviour worth knowing:
- Area and stratum are checked only when the value is truthy, that is present and non-zero.
- The grid predicate never reads the kitchen and surveillance criteria, the listing code, or the dialog's `barrio` text input (components/FilterModal.tsx:93 writes `filters.barrio`).
- The search looks at city and neighbourhood only.
- The back office lives at the path `/acceso-digital-osorio`.
- A save replaces every record with the saved id where it stands, or appends the record when no record has that id; the list lives in memory.
- The property form is submitted only when its `required` inputs are filled: title, description, city and neighbourhood must not be empty (components/PropertyForm.tsx:119-122). The browser enforces this before `handleSubmit` runs, so a fresh draft cannot be saved as it stands (`PropertyForm.NewDraftNotSubmittable`). The submitted record is the form data with the publication date refreshed.
- `handleLogin` (App.tsx:83-89) is handed to the login form at App.tsx:172, but the login form declares no props and signs in through the remote authentication service instead (components/LoginForm.tsx:9-31), and App.tsx installs no listener for that service. In the program as written `isAuthenticated` therefore never becomes true, and the back-office path always shows the login form; `App.AppState.HandleLogin` models the handler as written.
- `removeImageField` promotes the first image when no principal image remains, whichever slot was removed.
- A dotted key whose segment after a string is a digit picks a character of that string (`I18n.TextIsIndexable`).
- A card whose chosen image has an empty URL shows the placeholder picture.

## Model

| member | source | states |
|---|---|---|
| Listing.Matches | App.tsx:114-141 | the grid predicate: published, not featured, the search term in city or neighbourhood, operation and type, price range, truthy area in range, the three "N+" facets, every required amenity, truthy stratum in range, condition, furnishing and department, in the source's order |
| Listing.FilteredProperties | App.tsx:111-142 | a property is in the grid iff it is in the list and passes the predicate (one conjunct per early `return false`, in order); each passing record appears as often as in the list, and the grid is a subsequence of the list |
| Listing.FeaturedProperties | App.tsx:144-146 | a property is featured iff it is in the list, featured and published; each such record appears as often as in the list, and the result is a subsequence of the list |
| Listing.GridAndFeaturedDisjoint | App.tsx:115-116 | every grid property is published and not featured, so no property is both in the grid and in the featured strip |
| Listing.FeaturedIdempotent | App.tsx:144-146 | selecting the featured strip of the featured strip changes nothing |
| Listing.SearchSemantics | App.tsx:112-122 | a property is in the grid iff it passes every other check and its lower-cased city or neighbourhood contains the lower-cased, trimmed term (an empty term imposes nothing); a blank term becomes empty |
| Listing.PriceRange | App.tsx:126 | a grid property's price lies within the finite price bounds, inclusive; a NaN bound constrains nothing |
| Listing.OptionalRanges | App.tsx:127 | a present, non-zero area or stratum of a grid property lies within the finite bounds |
| Listing.MissingAreaAndStratumPass | App.tsx:135 | for a property with absent or zero area and stratum, the area and stratum bounds do not affect the verdict |
| Listing.ThresholdSemantics | App.tsx:128-130 | for a digit threshold, an "N+" facet passes iff the value, absent counting as 0, is at least the threshold |
| Listing.ExtrasSemantics | App.tsx:132-133 | the verdict is the verdict without extras and every required amenity flag is set (AND semantics; no extras impose nothing) |
| Listing.InitialFiltersPermissive | App.tsx:25-42 | the default criteria keep every published, non-featured property whose price, area and stratum are in the default ranges |
| Listing.NarrowingKeepsSubsequence | App.tsx:111-142 | criteria that accept fewer properties give a grid that is a subsequence of the wider grid and no longer |
| Listing.RaisingMinPriceNarrows | App.tsx:126 | raising a finite minimum price never adds results |
| Listing.AddingExtraNarrows | App.tsx:132 | requiring one more amenity never adds results |
| Listing.SortForView | App.tsx:148-163 | the order the grid is shown in: the stable sort by price ascending, price descending or area descending for the three known options, the filtered order for any other |
| Listing.SortForDisplay | App.tsx:149-163 | the displayed order is the stable sort by the chosen key for the three known options, the input order otherwise |
| Listing.SortedAndFilteredProperties | App.tsx:148-164 | the grid is the filtered list, then sorted as the menu says |
| Listing.SortIsPermutation | App.tsx:149 | sorting only reorders: same length, same multiset |
| Listing.DefaultKeepsOrder | App.tsx:160-161 | `default` and any unknown option keep the filtered order |
| Listing.PriceAscOrdered | App.tsx:151-152 | `price_asc` is non-decreasing in price |
| Listing.PriceDescOrdered | App.tsx:154-155 | `price_desc` is non-increasing in price |
| Listing.AreaDescOrdered | App.tsx:157-158 | `area_desc` is non-increasing in area, absent area counting as 0 |
| Listing.SortKeepsTies | App.tsx:149-158 | for every sort option, properties with equal keys keep their filtered order |
| App.ReplaceById | App.tsx:101 | same length; each record with the saved id becomes the saved record, every other record is unchanged in place |
| App.SaveProperty | App.tsx:97-105 | the saved record is present and is the only record with its id; for an existing id every record with that id is replaced where it stands and every other record stays in place; a new id appends at the end |
| App.DeleteProperty | App.tsx:107-109 | every record with another id remains, as often as it occurred and in its order, and none has the deleted id |
| App.SaveKeepsOthers | App.tsx:97-105 | the records with other ids are the same, in the same order, before and after a save |
| App.SaveIdempotent | App.tsx:97-105 | saving the same record twice equals saving it once |
| App.SaveIds | App.tsx:97-105 | after a save, the ids present are the old ones plus the saved id |
| App.DeleteAfterSave | App.tsx:97-109 | deleting the saved id after a save leaves exactly what deleting it before would, without the saved record |
| App.DeleteAbsent | App.tsx:107-109 | deleting an id that no record carries leaves the list unchanged |
| App.ViewFor | App.tsx:65-72 | admin iff on the back-office path and authenticated, login iff on it and not, public iff on any other path |
| App.AppState.constructor | App.tsx:44-54 | the initial state (list, default criteria, `default` sort, signed out, loading, nothing selected, chat closed), with the view set by the path effect; the chat window is not on the page yet and holds nothing |
| App.AppState.FinishLoading | App.tsx:166-167 | the splash screen ends; the chat window is mounted afresh if the storefront now shows with nothing selected; nothing else changes |
| App.AppState.HandlePathChange | App.tsx:64-81 | the view follows the new path and the authentication state; leaving the storefront unmounts the chat window (transcript and waiting replies lost), returning to it mounts a fresh one; nothing else changes |
| App.AppState.HandleLogin | App.tsx:83-89 | accepted iff both credentials match; success authenticates and, on the back-office path, shows the panel; failure changes nothing |
| App.AppState.HandleLogout | App.tsx:91-95 | signed out, at `/`, on the public view, where a fresh chat window is mounted if none was; the rest is unchanged |
| App.AppState.SelectProperty | App.tsx:186-204 | `setSelectedProperty` from a card: the property is selected and the chat window leaves the page, losing its transcript, input and waiting replies; nothing else changes |
| App.AppState.ClosePropertyModal | App.tsx:204-208 | the dialog's `onClose`: nothing is selected, and the chat window is on the page again iff the storefront shows past the splash screen, mounted afresh (greeting when open, else empty) |
| App.AppState.SetChatbotOpen | App.tsx:203-204 | the window's toggle, available only while it is on the page: the page's flag and the window's `isOpen` agree, and opening a closed window shows the greeting |
| App.AppState.HandleSaveProperty | App.tsx:97-105 | the list becomes `SaveProperty` of the old list; nothing else changes |
| App.AppState.HandleDeleteProperty | App.tsx:107-109 | the list becomes `DeleteProperty` of the old list; nothing else changes |
| App.AppState.SetFilters | App.tsx:51 | the criteria are replaced; nothing else changes |
| App.AppState.SetSortBy | App.tsx:194 | the sort option is replaced; nothing else changes |
| App.AppState.Grid | App.tsx:182-196 | the grid rendered from the state holds only published, non-featured properties of the list |
| App.AdminViewNeedsAuthentication | App.tsx:170-174 | in a consistent state, the back office is shown only to an authenticated user on its path |
| FilterSection.NumericNameIffNumberField | components/FilterSection.tsx:24 | an input name contains `precio`, `area` or `estrato` exactly when it is one of the six numeric criteria |
| FilterSection.SetNumber | components/FilterSection.tsx:24 | the numeric criterion holds the number; every other field and the amenities are unchanged |
| FilterSection.SetText | components/FilterSection.tsx:24 | the text criterion holds the raw text; every other field and the amenities are unchanged |
| FilterSection.InputChange | components/FilterSection.tsx:22-25 | a numeric name stores `Number(value)`, any other name the raw text; only the named field changes |
| FilterSection.SameFieldsSameFilters | components/FilterSection.tsx:22-25 | two criteria records that agree on every input field and on the amenities are equal |
| FilterSection.RetypeTextIsNoChange | components/FilterSection.tsx:22-25 | typing the text a text field already holds leaves the criteria unchanged |
| FilterSection.ToggleExtra | components/FilterSection.tsx:27-34 | the name is selected iff checked; other names' membership and relative order are unchanged; checking appends at the end, unchecking removes every occurrence |
| FilterSection.CheckThenUncheck | components/FilterSection.tsx:27-34 | checking then unchecking a name not selected restores the original selection |
| FilterSection.SectionExtrasShape | components/FilterSection.tsx:49-63 | the bar offers thirteen distinct `tiene_*` amenity names |
| FilterSection.SectionReset | components/FilterSection.tsx:36-43 | the default criteria, except that the search text, operation and property type keep their values; no amenities |
| FilterSection.SectionResetIdempotent | components/FilterSection.tsx:36-43 | resetting twice is resetting once |
| FilterSection.HandleInputChange | components/FilterSection.tsx:22-25 | the application's criteria become `InputChange` of the old ones; nothing else changes |
| FilterSection.HandleCheckboxChange | components/FilterSection.tsx:27-34 | the amenities are toggled; the checkbox (`extras.includes(name)`) then shows checked iff it was checked |
| FilterSection.ResetFilters | components/FilterSection.tsx:36-43 | the application's criteria become `SectionReset` of the old ones; nothing else changes |
| FilterModal.HandleInputChange | components/FilterModal.tsx:25-28 | the same name rule as the filter bar; only the criteria change |
| FilterModal.HandleCheckboxChange | components/FilterModal.tsx:30-37 | the same toggle as the filter bar; the checkbox then shows checked iff it was checked |
| FilterModal.ModalReset | components/FilterModal.tsx:39-45 | the default criteria, except that the search text and listing code keep their values; no amenities |
| FilterModal.ModalResetIdempotent | components/FilterModal.tsx:39-45 | resetting twice is resetting once |
| FilterModal.ResetsDiffer | components/FilterModal.tsx:39-45 | the dialog resets operation and property type to `todos` and keeps the listing code; the bar keeps the operation and clears the code |
| FilterModal.ResetFilters | components/FilterModal.tsx:39-45 | the application's criteria become `ModalReset` of the old ones; nothing else changes |
| FilterModal.ModalExtrasShape | components/FilterModal.tsx:47-59 | eleven distinct names, all offered by the filter bar, without the dining-room and piped-gas amenities |
| PropertyForm.EmptyProperty | components/PropertyForm.tsx:15-54 | an unfeatured draft with no images, an empty id, the load-time date and every amenity flag false |
| PropertyForm.Draft | components/PropertyForm.tsx:59-61 | an edited property is copied as is; a new one is the empty draft with id `prop_` followed by the clock reading |
| PropertyForm.DraftIdEncodesTime | components/PropertyForm.tsx:60 | the id of a new draft spells the clock reading in decimal digits |
| PropertyForm.DraftIdsDiffer | components/PropertyForm.tsx:60 | drafts opened at different times have different ids |
| PropertyForm.NewDraftIsHidden | components/PropertyForm.tsx:52 | a new draft is in neither the storefront grid nor the featured strip, whatever the criteria |
| PropertyForm.NewDraftNotSubmittable | components/PropertyForm.tsx:119-122 | a new draft has an empty title (and description, city, neighbourhood), so the `required` check blocks its submission |
| PropertyForm.WriteText | components/PropertyForm.tsx:63-72 | the named text or select field holds the raw value; every other field is unchanged |
| PropertyForm.WriteNumber | components/PropertyForm.tsx:63-72 | the named number field holds the number; every other field is unchanged |
| PropertyForm.WriteBool | components/PropertyForm.tsx:74-76 | the named checkbox field holds `checked`; every other field is unchanged |
| PropertyForm.NumberInput | components/PropertyForm.tsx:67-68 | the empty text gives 0, a string of digits its decimal value, and only integer literals are accepted |
| PropertyForm.NumberInputRoundTrip | components/PropertyForm.tsx:68 | reading back the decimal text of a count gives the count |
| PropertyForm.Principals | components/PropertyForm.tsx:85-103 | the number of principal images is at most the number of images |
| PropertyForm.PrincipalsZero | components/PropertyForm.tsx:91 | no image is principal exactly when the count is zero |
| PropertyForm.ChangeUrl | components/PropertyForm.tsx:78-82 | same length; slot `i` gets the URL and keeps its id, alt text and mark; every other slot is unchanged |
| PropertyForm.ChangeUrlKeepsPrincipals | components/PropertyForm.tsx:78-82 | a URL change keeps the principal count, so it keeps the one-principal rule |
| PropertyForm.AddImage | components/PropertyForm.tsx:84-87 | one slot is appended with an empty URL, principal iff the list was empty; the old slots are unchanged |
| PropertyForm.AddKeepsOnePrincipal | components/PropertyForm.tsx:84-87 | adding a slot keeps the one-principal rule |
| PropertyForm.WithoutSlot | components/PropertyForm.tsx:90 | an index in range removes exactly that slot, keeping the order; another index removes nothing |
| PropertyForm.PromoteFirst | components/PropertyForm.tsx:91-93 | only the first slot's mark may change, and only when no image was principal; a non-empty result then has one principal |
| PropertyForm.RemoveImage | components/PropertyForm.tsx:89-95 | the slots left after removing `index` keep their ids, URLs and order; every slot but the first keeps its mark; the first is principal iff it was or no remaining image is; a non-empty result has a principal image |
| PropertyForm.RemoveImageSlots | components/PropertyForm.tsx:89-95 | removing slot `i` keeps the earlier slots in place and moves the later ones up by one |
| PropertyForm.RemoveKeepsOnePrincipal | components/PropertyForm.tsx:89-95 | removing a slot keeps the one-principal rule |
| PropertyForm.SetPrincipal | components/PropertyForm.tsx:97-103 | image `j` is principal iff `j` is the chosen index; ids, URLs and alt texts are unchanged |
| PropertyForm.SetPrincipalOne | components/PropertyForm.tsx:97-103 | choosing an existing slot leaves exactly one principal image |
| PropertyForm.PropertyForm.constructor | components/PropertyForm.tsx:57 | the form starts on the empty draft |
| PropertyForm.PropertyForm.Open | components/PropertyForm.tsx:59-61 | the form data becomes `Draft` of the property and the clock reading |
| PropertyForm.PropertyForm.HandleTextChange | components/PropertyForm.tsx:63-72 | the form data becomes `WriteText` of the old data |
| PropertyForm.PropertyForm.HandleNumberChange | components/PropertyForm.tsx:63-72 | the form data becomes `WriteNumber` of the coerced value; the empty text stores 0 |
| PropertyForm.PropertyForm.HandleCheckboxChange | components/PropertyForm.tsx:74-76 | the form data becomes `WriteBool` of the old data |
| PropertyForm.PropertyForm.HandleImageChange | components/PropertyForm.tsx:78-82 | only slot `index`'s URL changes; the one-principal rule is kept |
| PropertyForm.PropertyForm.AddImageField | components/PropertyForm.tsx:84-87 | one slot with id `img_<now>` is appended; the one-principal rule is kept |
| PropertyForm.PropertyForm.RemoveImageField | components/PropertyForm.tsx:89-95 | the images become `RemoveImage` of the old ones; the one-principal rule is kept |
| PropertyForm.PropertyForm.SetPrincipalImage | components/PropertyForm.tsx:97-103 | the images become `SetPrincipal` of the old ones; with an index in range exactly one is principal |
| PropertyForm.PropertyForm.HandleSubmit | components/PropertyForm.tsx:105-122 | runs only when title, description, city and neighbourhood are filled (the inputs' `required` check); the record handed on is the form data with only its date replaced by the current time, so it is filled too |
| AdminPanel.AdminPanel.constructor | components/AdminPanel.tsx:20-21 | the list view with nothing selected |
| AdminPanel.AdminPanel.HandleEdit | components/AdminPanel.tsx:23-26 | the form view on the chosen property; the "new" button is not highlighted |
| AdminPanel.AdminPanel.HandleAddNew | components/AdminPanel.tsx:28-31 | the form view with nothing selected; the "new" button is highlighted |
| AdminPanel.AdminPanel.HandleSave | components/AdminPanel.tsx:33-37 | the application's list becomes `SaveProperty` of the old list with the record, once; then the list view with nothing selected |
| AdminPanel.AdminPanel.ShowList | components/AdminPanel.tsx:51 | the list view; the selection is unchanged |
| AdminPanel.AdminPanel.ShowInstructions | components/AdminPanel.tsx:53 | the instructions view; the selection is unchanged |
| AdminPanel.AdminPanel.Cancel | components/AdminPanel.tsx:58 | the list view; the selection is unchanged |
| AdminPanel.AdminPanel.EditAndSubmitUnchanged | components/AdminPanel.tsx:23-37 | editing a property whose required fields are filled and submitting it untouched stores it with only its date refreshed, in its place, keeping the list length |
| AdminDashboard.ComputeStats | components/AdminDashboard.tsx:39-46 | `total` is the length; `published`, `drafts` and `featured` count the records that are published, drafts and featured |
| AdminDashboard.StatusPartition | components/AdminDashboard.tsx:42-43 | published, draft and other-status records together are the whole list |
| AdminDashboard.StatsBounds | components/AdminDashboard.tsx:39-46 | published + drafts ≤ total, with equality iff no record has another status; featured ≤ total |
| AdminDashboard.CountType | components/AdminDashboard.tsx:51-54 | a type's count is positive iff some record has that type, and at most the length |
| AdminDashboard.FirstSeen | components/AdminDashboard.tsx:51-55 | the accumulator's keys: exactly the types present, each once |
| AdminDashboard.TypeEntriesSum | components/AdminDashboard.tsx:50-55 | the per-type counts add up to the number of records |
| AdminDashboard.TracksStep | components/AdminDashboard.tsx:52 | one step of the accumulator keeps its keys in first-seen order and its counts equal to the counts of the records read |
| AdminDashboard.TabulateEntries | components/AdminDashboard.tsx:55 | the accumulator's entries after the whole list are the per-type counts in first-seen order |
| AdminDashboard.ByType | components/AdminDashboard.tsx:50-56 | the per-type counts in first-seen order, stably sorted by count, largest first |
| AdminDashboard.PropertiesByType | components/AdminDashboard.tsx:50-56 | the loop over the records, then the copy-and-sort, gives the histogram `ByType` |
| AdminDashboard.ByTypeSameEntries | components/AdminDashboard.tsx:55 | sorting keeps exactly the entries |
| AdminDashboard.ByTypeDistinct | components/AdminDashboard.tsx:50-56 | no type has two bars |
| AdminDashboard.ByTypeCovers | components/AdminDashboard.tsx:50-56 | every type present has a bar |
| AdminDashboard.ByTypeOnlyPresent | components/AdminDashboard.tsx:50-56 | every bar is for a type present |
| AdminDashboard.ByTypeCounts | components/AdminDashboard.tsx:50-56 | each bar carries its type's count, at least one |
| AdminDashboard.ByTypeSum | components/AdminDashboard.tsx:50-56 | the bars account for every record exactly once |
| AdminDashboard.ByTypeDescending | components/AdminDashboard.tsx:55 | the bars are ordered by count, largest first |
| AdminDashboard.ByTypeTies | components/AdminDashboard.tsx:55 | types with equal counts keep the order in which they first occur |
| AdminDashboard.MaxCount | components/AdminDashboard.tsx:58 | at least 1, at least every count, and either 1 or one of the counts |
| AdminDashboard.BarPercent | components/AdminDashboard.tsx:119 | a bar's width: its count as a percentage of the largest count |
| AdminDashboard.BarsFit | components/AdminDashboard.tsx:119 | every bar's width is between 0% and 100% |
| AdminDashboard.Newest | components/AdminDashboard.tsx:60-64 | the records stably sorted newest publication date first, cut to the first five |
| AdminDashboard.RecentProperties | components/AdminDashboard.tsx:60-64 | a sorted copy cut to five gives `Newest` |
| AdminDashboard.NewestSize | components/AdminDashboard.tsx:60-64 | at most five records, all taken from the list (as a bag), five whenever there are that many |
| AdminDashboard.NewestOrdered | components/AdminDashboard.tsx:62 | newest publication date first |
| AdminDashboard.NewestCutoff | components/AdminDashboard.tsx:60-64 | every record left out is no newer than the last one shown |
| PropertyCard.FindPrincipal | components/PropertyCard.tsx:29 | the index of the first principal image, none iff no image is principal |
| PropertyCard.MainImage | components/PropertyCard.tsx:29 | none iff the list is empty; otherwise an image of the list, principal whenever some image is |
| PropertyCard.MainImageIsFirstPrincipal | components/PropertyCard.tsx:29 | with a principal image, the card shows the first one |
| PropertyCard.MainImageWithoutPrincipal | components/PropertyCard.tsx:29 | without one, it shows the first image |
| PropertyCard.OnlyPrincipalSlot | components/PropertyCard.tsx:29 | under a principal count of one, two principal slots are the same slot |
| PropertyCard.MainImageIsThePrincipal | components/PropertyCard.tsx:29 | under the form's one-principal rule the card shows the unique principal image |
| PropertyCard.ImageSrc | components/PropertyCard.tsx:35 | the `src` is never empty: it is the URL of an image of the listing, or the placeholder |
| PropertyCard.NoImagesPlaceholder | components/PropertyCard.tsx:35 | a listing without images shows the placeholder |
| StarRating.FillOf | components/StarRating.tsx:14-21 | star `i` is full when `i <= rating`, half when only `i - 0.5 <= rating`, empty otherwise |
| StarRating.Stars | components/StarRating.tsx:13 | one fill per star, `total` of them |
| StarRating.DefaultStars | components/StarRating.tsx:10 | without `totalStars`, five stars, star i filled by `FillOf(i + 1)` |
| StarRating.StarFill | components/StarRating.tsx:14-21 | star i is full iff i ≤ rating, half iff not full and i − 0.5 ≤ rating, empty otherwise |
| StarRating.StarsShape | components/StarRating.tsx:14-21 | full stars form a prefix, a half star only follows full ones, and empty stars a suffix |
| StarRating.FullCount | components/StarRating.tsx:17-18 | the number of full stars is the rating's whole part, clamped to the row |
| StarRating.StarsExtremes | components/StarRating.tsx:17-21 | a rating of at least `total` fills every star; one below 0.5 fills none |
| I18n.Interpolate | i18n/index.ts:12-16 | every `{word}` placeholder, scanned left to right, becomes the value of `word` when one is given and is kept as written otherwise |
| I18n.WordRun | i18n/index.ts:13 | the longest prefix of `\w` characters |
| I18n.PlaceholderAt | i18n/index.ts:13 | a `{word}` at the front of the text, with its key, if there is one |
| I18n.InterpolateNoValues | i18n/index.ts:12-16 | without values every placeholder stays verbatim, so the text is unchanged |
| I18n.InterpolateNoBrace | i18n/index.ts:12-16 | a text without `{` is returned unchanged |
| I18n.InterpolatePlaceholder | i18n/index.ts:13-15 | a leading placeholder is replaced by its value when defined and kept verbatim otherwise; the rest is processed on its own |
| I18n.InterpolateNotRescanned | i18n/index.ts:13-15 | inserted text is not scanned again |
| I18n.Child | i18n/index.ts:561 | a table's member when present; a digit index into a string gives one of its characters |
| I18n.Walk | i18n/index.ts:560-562 | the `reduce` over the key's segments: descend one segment at a time, undefined once a segment is missing |
| I18n.Lookup | i18n/index.ts:560-562 | `getNestedTranslation`: walk the key split on `.` from the language's table |
| I18n.WalkUndefined | i18n/index.ts:561 | once undefined, the lookup stays undefined |
| I18n.WalkAppend | i18n/index.ts:561 | following a path in two pieces equals following it in one |
| I18n.MissingSegment | i18n/index.ts:560-562 | a segment missing from the table reached so far makes the whole lookup undefined |
| I18n.WalkTables | i18n/index.ts:561 | a segment naming a table entry descends into it |
| I18n.TextIsIndexable | i18n/index.ts:561 | `title.0` over a string title gives its first letter |
| I18n.LookupText | i18n/index.ts:583-584 | a string is found iff the lookup reaches a string |
| I18n.T | i18n/index.ts:582-597 | `t`: the current language's string for the key, else the Spanish one, else the key itself; the string is interpolated when values are given |
| I18n.TResolution | i18n/index.ts:582-597 | the current language's string, else the Spanish one, else the key; a found string is interpolated iff values are given; the key never is |
| I18n.EnglishFallsBackToSpanish | i18n/index.ts:584-586 | where English has no string, an English page shows what a Spanish page shows |
| I18n.ValuesIrrelevantWithoutBraces | i18n/index.ts:592-596 | passing values changes nothing for a string without `{` |
| I18n.InitialLanguage | i18n/index.ts:576-580 | English iff the browser tag's part before the first `-` is `en`; Spanish otherwise and without a browser |
| I18n.RegionalEnglish | i18n/index.ts:578-579 | `en-US` selects English |
| Chatbot.KnowledgeBase | components/ChatbotAura.tsx:58-102 | the thirty rows of the answer table, in scan order |
| Chatbot.FirstMatch | components/ChatbotAura.tsx:104-110 | the first row in table order with a keyword contained in the input; none iff no row has one |
| Chatbot.FirstMatchAt | components/ChatbotAura.tsx:104-110 | a row that matches after rows that do not is the first match |
| Chatbot.Scan | components/ChatbotAura.tsx:104-110 | the nested loops, with early exit, find `FirstMatch` |
| Chatbot.AnswerKey | components/ChatbotAura.tsx:55-113 | the answer key of the first row whose keyword occurs in the lower-cased input, or the default answer key when none does |
| Chatbot.GenerateResponse | components/ChatbotAura.tsx:55-113 | the translation of the first matching row's answer for the lower-cased input, or of the default answer |
| Chatbot.AnswerIgnoresCase | components/ChatbotAura.tsx:56 | lower-casing the input first does not change the answer |
| Chatbot.GreetingWins | components/ChatbotAura.tsx:60 | an input with a greeting keyword gets the greeting, whatever else it says |
| Chatbot.HolaGreets | components/ChatbotAura.tsx:60 | any input containing `hola` gets the greeting |
| Chatbot.HiGreets | components/ChatbotAura.tsx:60 | any input containing `hi` gets the greeting |
| Chatbot.EmbeddedHiGreets | components/ChatbotAura.tsx:104-110 | any text with `hi` inside a word (such as "which cities") gets the greeting |
| Chatbot.NoKeywordDefault | components/ChatbotAura.tsx:112 | with no keyword of any row in the input, the default answer |
| Chatbot.AppendKeepsNoBlank | components/ChatbotAura.tsx:118 | appending a bot message or a non-blank visitor message keeps the transcript free of blank visitor messages |
| Chatbot.ChatbotAura.constructor | components/ChatbotAura.tsx:38-39 | closed, no messages, empty input, no pending reply |
| Chatbot.ChatbotAura.Mount | components/ChatbotAura.tsx:36-47 | a fresh window: empty input, nothing waiting, and the greeting alone when mounted open, no messages otherwise |
| Chatbot.ChatbotAura.Unmount | App.tsx:204 | the window leaves the page: no messages, no input and no reply waiting on a timer |
| Chatbot.ChatbotAura.SetOpen | components/ChatbotAura.tsx:43-47 | opening a closed window resets the messages to the single greeting; otherwise they are unchanged |
| Chatbot.ChatbotAura.SetLanguage | components/ChatbotAura.tsx:43-47 | a language change while open resets the messages to the greeting in the new language |
| Chatbot.ChatbotAura.HandleInputChange | components/ChatbotAura.tsx:184 | only the input field changes |
| Chatbot.ChatbotAura.HandleSendMessage | components/ChatbotAura.tsx:115-126 | blank input changes nothing; otherwise exactly one visitor message is appended, its reply is queued and the input is cleared |
| Chatbot.ChatbotAura.DeliverReply | components/ChatbotAura.tsx:120-123 | the oldest queued reply is appended as a bot message: the answer to the captured text, in the captured language |
| Sequences.Filter | App.tsx:108 | `filter` keeps exactly the elements that pass, each as many times as it occurs in the input, and drops the others entirely |
| Sequences.FilterIsSubseq | App.tsx:108 | what a filter keeps stays in its original order |
| Sequences.FilterMonotone | App.tsx:114 | a weaker test keeps at least what a stronger one keeps, in order |
| Sequences.FilterIdempotent | App.tsx:145 | filtering twice with the same test is filtering once |
| Sequences.SortBy | App.tsx:149-158 | the stable sort has the same length and the same multiset as its input |
| Sequences.SortBySorted | App.tsx:149-158 | the stable sort is ordered by its key |
| Sequences.SortByStable | App.tsx:149-158 | elements with equal keys keep their input order |
| Sequences.SortBySortedIdentity | App.tsx:149-158 | an already sorted sequence comes back unchanged |
| Sequences.InsertStep | App.tsx:149-158 | one pass of the in-place sort inserts `a[i]` into the sorted suffix |
| Sequences.SortInPlace | App.tsx:149-158 | the in-place array sort leaves exactly the stable sort of the old contents |
| Sequences.SortedCopy | App.tsx:149-158 | copying into a fresh array and sorting it gives the stable sort; the input is untouched |
| JsValues.ToLower | App.tsx:112 | same length, each ASCII capital lowered, every other character kept |
| JsValues.ToLowerIdempotent | components/ChatbotAura.tsx:56 | lower-casing twice is lower-casing once |
| JsValues.TrimEmptyIffBlank | components/ChatbotAura.tsx:116 | `trim()` gives `''` exactly when every character is white space |
| JsValues.ContainsScan | App.tsx:119 | the left-to-right scan answers `includes` |
| JsValues.NotContainsChar | components/FilterSection.tsx:24 | a text lacking a character of the word does not contain the word |
| JsValues.TakeUntil | i18n/index.ts:578 | the part before the first separator, which the text continues with the separator if it is longer |
| JsValues.Split | i18n/index.ts:561 | at least one part, none holding the separator, the first being the text before the first separator |
| JsValues.JoinSplit | i18n/index.ts:561 | joining the parts back with the separator gives the text |
| JsValues.ParseDecimal | components/PropertyForm.tsx:68 | an integer literal (optional `-`, one or more digits) is read; anything else is rejected |
| JsValues.ToNumber | components/FilterSection.tsx:24 | blank text is 0; otherwise finite iff the trimmed text is an integer literal, NaN otherwise |
| JsValues.DigitsNumber | App.tsx:128 | `Number` reads a string of digits as its decimal value |
| JsValues.NatToString | components/PropertyForm.tsx:60 | the decimal digits of a natural number, which read back as the number |

## Left out

- Remote storage and authentication services, `localStorage` persistence, `document.title` and `lang` writes, `popstate` listeners, scrolling and the DOM are not part of this model. The browser location is the `path` field of `App.AppState`.
- The administrator credentials live in a module that is not part of this model. They are constructor parameters of `App.AppState`.
- The translation tables are data; they are a parameter (`I18n.Translations`). `Intl.NumberFormat` price formatting is not modelled.
- Timers: the chat reply's one-second timer is the explicit step `Chatbot.ChatbotAura.DeliverReply`, fired in queue order. The splash screen's callback is the step `App.AppState.FinishLoading`.
- Clock readings and ids from `Date.now()` are natural-number parameters. ISO date strings are integers ordered like the times they denote, so `new Date(...).getTime()` is the integer itself.
- The chat window's own handlers (`HandleInputChange`, `HandleSendMessage`, `DeliverReply`, `SetLanguage`) are called on `App.AppState.chat` directly; their contracts do not require the window to be on the page, which the rendered page guarantees by not offering them otherwise.
- Message ids from the clock can collide when two messages are named by the same reading; nothing in the model depends on their uniqueness.
- Image objects are values. The form's shallow copy shares image objects with the property being edited, and `handleImageChange` and `removeImageField` write into them, so the edit also reaches the record in the application's list before any save. That aliasing is not captured.
- PropertyForm.PropertyForm.HandleNumberChange: requires the input text to be empty or an integer literal (what a number input holds for integer quantities). `parseFloat` of fractional or exponent text is not modelled, since the model's numbers are integers.
- JsValues.ToNumber: reads only integer literals. Fractional, exponent, hexadecimal or `Infinity` text gives NaN here, whereas JavaScript gives a number. The filter inputs hold integers.
- JsValues.ToLower: lowers ASCII letters only. Unicode case mapping is not modelled, so accented capitals in a chat message (for example in `QUIÉNES`) stay as they are, where the browser would lower them.
- JsValues.IsSpace: covers the ASCII white space of `trim`, not the Unicode space separators.
- AdminDashboard.FirstSeen: `Object.entries` lists integer-like keys (such as `"2"`) first, in numeric order, before the other keys in insertion order. The model keeps insertion order for every key, which differs only for a property type written as a canonical number.
- `I18n.Child`: keys are not checked against inherited object members. A key such as `constructor` or `toString` would reach a built-in member in the browser; here it is simply absent. The same holds for interpolation values and for the language table consulted by `I18n.InitialLanguage`.
- StarRating.FillOf: the rating is a real number. A NaN rating, which makes every comparison false and every star empty, is not represented.
- Fractional prices, areas and ratings of properties are not modelled: every property number is an integer.
- The login form, the property list view, the detail page and the other presentation components are not part of this model.
