# Story globe: catalogue and globe-pin model

A Dafny model of the logic behind an interactive story globe. A 3D Earth shows
one pin per bundled story. Clicking a pin opens that story, and Next/Prev step
through the catalogue. Three themes recolour the pins and the atmosphere, and
users can contribute stories, which are kept in local storage.

Modules:

- `Stories` (`stories.dfy`): the `Story` record, the three themes, and
  `Option`/`Result`. Coordinates are an opaque type `Coord`. A pin's data is a
  `Story` whose `size` and `color` are filled in.
- `Catalogue` (`catalogue.dfy`): the pure logic of `src/App.jsx`. This covers
  the start-up merge, lookup by id with fallback, `currentIndex`, and
  Next/Prev index arithmetic using JavaScript's truncating `%`. It also covers
  the night-time theme rule, form validation and record building (including
  the `'u' + timestamp` id), and the two orders in which submissions are kept.
- `Globe` (`globe.dfy`): the logic of `src/component/GlobeCanvas.jsx`. This
  covers pin construction with `...s` overriding the defaults, the theme
  recolour, and the two atmosphere mappings. The classes `ThreeGlobe` and
  `GlobeCanvas` hold the globe object behind its ref. `ClickedPinData` is the
  click handler's loop up the parent chain.
- `App` (`app.dfy`): the class `StoryGlobe`, with one method per handler of
  `App`, and the class `ContributeForm`. `StoryGlobe.Valid()` records the
  order subtlety. In memory, the session's submissions come newest first,
  before the bundled stories. In storage they come oldest first, after the
  earlier ones. `ReloadReorders`, `ReloadKeepsStories` and `ReloadChangesOrder` show that a reload
  keeps the same stories in a different order.

The clock, the local hour and `parseFloat` are parameters: `now`, `hour` and
`parseFloat`. Local storage is the field `StoryGlobe.stored`. The ray cast's
result is a parameter `hit`. It is the chain from the first object hit up to
the scene root, or `None` when the ray hits nothing.

Two behaviours of the code that are easy to miss:

- The form rejects only empty title, latitude or longitude text
  (src/App.jsx:123). Coordinates that are not numbers are accepted.
- `onAdd` puts a new story at the front of the in-memory catalogue, not the
  end (src/App.jsx:92).

## Model

| member | source | states |
|---|---|---|
| `Catalogue.InitialCatalogue` | src/App.jsx:8-13 | the initial catalogue is the bundled stories followed by the stored ones in stored order; with nothing stored it is exactly the bundled list |
| `App.StoryGlobe.constructor` | src/App.jsx:8-16 | start-up state: merged catalogue (also kept as the start-up catalogue the globe's pin handler searches), no active story, Cultural theme, stored list as found |
| `Catalogue.FirstIndexOfId` | src/App.jsx:33 | the least index carrying the id, or -1 exactly when no entry carries it |
| `Catalogue.FindById` | src/App.jsx:26 | `find` yields the first entry with the id, and None exactly when there is none |
| `Catalogue.PinLookup` | src/App.jsx:24-28 | a pin click selects the first catalogue entry with the pin's id, or the pin data itself when no entry has it |
| `Catalogue.CurrentIndex` | src/App.jsx:32-35 | the least index whose id matches the active story's; -1 exactly when no story is active or none matches |
| `Catalogue.JsRem` | src/App.jsx:39-45 | JavaScript's `%` truncates toward zero: the result differs from the dividend by a multiple of n, lies in [0, n) for a non-negative dividend and in (-n, 0] for a negative one |
| `Catalogue.NextIndex` | src/App.jsx:39 | the next index is in [0, n); the last index goes to 0, -1 goes to 0, and any other index goes to the one after it |
| `Catalogue.PrevIndex` | src/App.jsx:45 | the previous index is in [0, n); 0 goes to n-1, i goes to i-1, and -1 goes to n-2 (or 0 when n is 1) |
| `Catalogue.NavigationRoundTrip` | src/App.jsx:37-47 | with unique ids, Next then Prev and Prev then Next both return to the starting story |
| `Catalogue.NextStory` | src/App.jsx:37-41 | on an empty catalogue the active story is unchanged; otherwise it is a catalogue entry: the one after the current story, the first after the last, and the first when none is current |
| `Catalogue.PrevStory` | src/App.jsx:43-47 | on an empty catalogue the active story is unchanged; otherwise it is a catalogue entry: the one before the current story, the last before the first, and the last but one (the only one in a one-story catalogue) when none is current |
| `Catalogue.NightTheme` | src/App.jsx:18-22 | from 18:00 to 06:00 the theme becomes Historical unless it is Sci-Fi, and is never Cultural; by day it is unchanged |
| `Catalogue.DecimalDigits` | src/App.jsx:125 | the decimal form of the timestamp is a non-empty string of digits that spells the timestamp, with no leading zero (`0` is the single digit `0`) |
| `Catalogue.DecimalDigitsInjective` | src/App.jsx:125 | different timestamps have different decimal forms |
| `Catalogue.UserStoryId` | src/App.jsx:125 | a user story id is `u` followed by the decimal form of the timestamp, whose value is the timestamp |
| `Catalogue.UserStoryIdInjective` | src/App.jsx:125 | stories submitted at different times get different ids |
| `Catalogue.Submission` | src/App.jsx:121-131 | rejected with the alert text exactly when title, lat or lng is empty, so non-numeric text is accepted; otherwise the record has id `u`+timestamp, the title, the parsed coordinates, content defaulting to `A user-submitted story.`, and empty media |
| `Catalogue.SessionCatalogue` | src/App.jsx:92 | after a session's submissions the in-memory catalogue has one entry more per submission, the earlier catalogue unchanged at the back and the newest submission first |
| `Catalogue.SessionStore` | src/App.jsx:95-97 | after a session's submissions the stored list has one entry more per submission, the earlier list unchanged at the front and the newest submission last |
| `Catalogue.SessionCatalogueNewestFirst` | src/App.jsx:92 | after a session's submissions, the in-memory catalogue is the submissions newest first, followed by the catalogue before them |
| `Catalogue.SessionStoreOldestLast` | src/App.jsx:95-97 | after a session's submissions, the stored list is the earlier list followed by the submissions oldest first |
| `Catalogue.ReloadReorders` | src/App.jsx:8-13 | the session lists the submissions newest first before the bundled and stored stories; a reload lists the bundled stories first and the submissions oldest first at the end |
| `Catalogue.ReloadKeepsStories` | src/App.jsx:8-13 | a reload keeps the session's stories: both catalogues hold the same multiset of stories |
| `App.FindByIdPastPrefix` | src/App.jsx:26 | `find` past entries that do not carry the id finds what it finds in the rest |
| `Catalogue.ReloadChangesOrder` | src/App.jsx:91-98 | with at least one submission and one bundled story, and the newest submission not equal to the first bundled story, the session order and the reloaded order differ |
| `App.StoryGlobe.ApplyNightTheme` | src/App.jsx:18-22 | the theme after the start-up effect is the night-time rule applied to the local hour |
| `App.StoryGlobe.SetTheme` | src/component/ThemeSwitcher.jsx:9-12 | a theme button sets that theme, so reselecting the current theme changes nothing |
| `App.StoryGlobe.OnPinClick` | src/App.jsx:24-28 | the active story becomes the pin lookup's result in the start-up catalogue, the one the globe's handler closed over |
| `App.StoryGlobe.OnListClick` | src/App.jsx:75 | a click in the story list opens that story |
| `App.StoryGlobe.OnClose` | src/App.jsx:30 | closing the modal clears the active story |
| `App.StoryGlobe.GoNext` | src/App.jsx:37-41 | does nothing on an empty catalogue; otherwise opens the story at the next index after the current one |
| `App.StoryGlobe.GoPrev` | src/App.jsx:43-47 | does nothing on an empty catalogue; otherwise opens the story at the previous index before the current one |
| `App.StoryGlobe.OnAdd` | src/App.jsx:91-98 | the catalogue grows by one with the new story in front; the stored list grows by one with it at the end; existing entries keep their order; the in-memory/stored order invariant is kept |
| `App.ContributeForm.constructor` | src/App.jsx:116-119 | the four form fields start empty |
| `App.ContributeForm.HandleSubmit` | src/App.jsx:121-137 | yields the submission decision for the current fields; a rejection leaves all four fields as they were, an acceptance clears them |
| `App.StoryGlobe.SubmitForm` | src/App.jsx:90-98 | a rejected submission changes neither the catalogue, nor the stored list, nor the form; an accepted one is added exactly once (front of the catalogue, end of the stored list) and the form is cleared |
| `App.StoryGlobe.OnGlobeClick` | src/component/GlobeCanvas.jsx:104-113 | the pin handler registered at mount runs once with the nearest data on the hit's ancestor chain and looks it up in the start-up catalogue; with no hit or no data, the active story is unchanged |
| `App.PinFindsBundledStory` | src/App.jsx:24-28 | a pin carrying a bundled story's id, as every pin the globe holds does (built or recoloured), always finds a story with its id in a catalogue holding the bundled stories (the start-up one or any later one), so the fallback is never taken; with unique ids it finds the bundled story itself |
| `App.FirstIndexPastPrefix` | src/App.jsx:26 | entries in front that do not carry an id do not change which later entry a search for that id finds |
| `App.StartUpLookupAgrees` | src/App.jsx:24-28 | looking a pin up in the start-up catalogue gives the same story as looking it up in the current one whenever no submission of the session carries the pin's id |
| `App.StartUpLookupCanDiffer` | src/App.jsx:24-28 | when a submission shares a start-up story's id, the start-up lookup opens the start-up story while the current catalogue lists the submission first |
| `Globe.ThemeColor` | src/component/GlobeCanvas.jsx:67-72 | orange exactly for Historical, cyan exactly for Sci-Fi, magenta exactly for Cultural |
| `Globe.ThemeAtmosphere` | src/component/GlobeCanvas.jsx:167-168 | on a theme change: `#0ea5e9` exactly for Sci-Fi, `#b87d3c` exactly for Historical, `#8b5cf6` exactly for Cultural |
| `Globe.MountAtmosphere` | src/component/GlobeCanvas.jsx:55 | at construction: `#0ea5e9` exactly for Sci-Fi, `#2a6f97` otherwise |
| `Globe.AtmospheresAgreeOnlyForSciFi` | src/component/GlobeCanvas.jsx:167-169 | the two atmosphere mappings agree exactly on Sci-Fi |
| `Globe.PointOf` | src/component/GlobeCanvas.jsx:62-74 | a pin is the story with size 0.6 and the theme colour added; a size or colour the story carries itself wins |
| `Globe.BuildPoints` | src/component/GlobeCanvas.jsx:62-74 | one pin per bundled story, in bundled order |
| `Globe.PointsMirrorBundled` | src/component/GlobeCanvas.jsx:62-74 | every pin has a size and a colour and the id and title of a bundled story; no other story becomes a pin |
| `Globe.Recolor` | src/component/GlobeCanvas.jsx:171-177 | the recolour keeps the number and order of pins and every field except `color`, which becomes the theme colour |
| `Globe.RecolorLastThemeWins` | src/component/GlobeCanvas.jsx:172-176 | recolouring twice equals recolouring once with the later theme, so recolouring twice with one theme is recolouring once |
| `Globe.RecolorMatchesBuild` | src/component/GlobeCanvas.jsx:171-177 | when no story carries its own colour, recolouring gives the pins the new theme would have built |
| `Globe.RecolorAll` | src/component/GlobeCanvas.jsx:163-178 | after a series of theme changes the pins are the original ones recoloured once with the last theme, in the same number |
| `App.GlobePinsKeepIds` | src/component/GlobeCanvas.jsx:111-113 | the pins a click can deliver, after the first commit and any later theme changes, carry the id of the bundled story at their position |
| `Globe.ThreeGlobe.constructor` | src/component/GlobeCanvas.jsx:51-56 | a new globe holds the given atmosphere colour and points |
| `Globe.GlobeCanvas.constructor` | src/component/GlobeCanvas.jsx:16 | before mounting there is no globe |
| `Globe.GlobeCanvas.Mount` | src/component/GlobeCanvas.jsx:50-83 | mounting creates a fresh globe with the construction atmosphere and one pin per bundled story |
| `Globe.GlobeCanvas.OnThemeChange` | src/component/GlobeCanvas.jsx:163-178 | does nothing without a globe; otherwise sets the theme atmosphere and recolours the pins, reading absent point data as empty |
| `Globe.GlobeCanvas.FirstRender` | src/component/GlobeCanvas.jsx:160-178 | on the first commit the mount effect runs, then the theme effect, so the construction atmosphere is replaced at once |
| `Globe.NearestData` | src/component/GlobeCanvas.jsx:110-112 | the data of the nearest ancestor-or-self that carries data; None exactly when no node on the chain carries data |
| `Globe.ClickedPinData` | src/component/GlobeCanvas.jsx:104-113 | the loop up the parent chain yields the nearest data, and yields nothing when there is no hit |

## Left out

- Rendering is not modelled: the renderer, scene, lights, camera, OrbitControls, the resize handler, the animation loop and clean-up (src/component/GlobeCanvas.jsx:21-49, 121-159). These are calls into three.js.
- Pointer coordinates and the ray cast (src/component/GlobeCanvas.jsx:89-102) are not modelled. They are floating point and library calls. Their result is the `hit` parameter.
- The camera flight to the pin (src/component/GlobeCanvas.jsx:115-116) is not modelled. It uses gsap and `latLngToVector3`, and `latLngToVector3` is not part of this model.
- Local storage is not modelled as JSON text. `JSON.parse`/`JSON.stringify` are out, so a malformed stored entry, and a NaN coordinate turning into null after a reload, are not modelled. Storage is the list `StoryGlobe.stored`.
- `parseFloat` and `toFixed` are not modelled. Coordinates are opaque, and parsing is the `parseFloat` parameter.
- `Date.now()` and `getHours()` are the parameters `now` and `hour`. `now` is a `nat`, so a clock set before 1970 is not modelled.
- `alert` is modelled only as the returned message `MissingFieldsAlert`.
- `e.preventDefault()` is not modelled, because it is DOM behaviour.
- `onPinClick && ...`: the app always supplies the callback, so the absent-callback case is not modelled.
- The unused `hovered` state in GlobeCanvas, the JSX markup, StoryModal and the styling are not modelled. They are presentation only.
- `ContributeForm.HandleSubmit` does not call `onAdd` itself, because a Dafny method cannot take a method as an argument. It returns the record, and `App.StoryGlobe.SubmitForm` passes it to `OnAdd` once.
- React re-rendering is not modelled. The handlers App passes down on every render (Next, Prev, `onAdd`, the list buttons) read the state current when they run. The globe's click listener is registered once, at mount (src/component/GlobeCanvas.jsx:122, 160). It calls the first render's `onPinClick`, so the model looks pins up in `StoryGlobe.startStories`, the start-up catalogue.
- The JavaScript objects are not open records. A story is a record with fixed fields, plus the optional `size` and `color` that can override the pin defaults. Other keys a bundled story might carry are not modelled.
