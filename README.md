# Link manager: a verified model

The application is a single-page link manager. The user pastes a URL into a box, and the
link goes to the front of a saved list. Each link carries an id, a creation timestamp, a
day-and-month date text, a status and free-text notes. The status cycles through a ring of
four states: none, pending, done, remaining. A link can be deleted, its status advanced
and its notes edited. The list is shown through a filter (by status, and by a text that the
link's host name must contain) and then grouped into buckets by date, in the order the
dates are first met.

This project models that state and its handlers in Dafny and proves what they guarantee.

- `Sequences` (sequences.dfy): the array primitives the component uses, as functions on
  sequences. `IndexOf` is `indexOf`, `Map` is `map` and `Filter` is `filter`. It also
  proves the filter laws: membership, counts, subsequence, and appending one element.
- `Strings` (strings.dfy): `includes` (`Contains`, proved equal to "occurs at some
  position") and `toLowerCase` (`ToLower`).
- `Priority` (priority.dfy): `PRIORITY_STATES` and `cyclePriorityState`. It proves the
  ring order, the fall-back to `none` for an unknown value, and the period-4 law.
- `Links` (links.dfy): the link record, and the pure list transformations behind
  `deleteLink`, `togglePriority` and `updateNotes`, with their preservation laws.
- `Views` (views.dfy): `filterLinks`, and the `groupedLinks` reduce written as a fold
  (`Group` over `Push`). It proves the partition laws.
- `Manager` (manager.dfy): the component's state as a class `LinkManager`. Its fields are
  `links`, `newUrl`, `editingId`, `newNote`, `activeFilter` and `filterDomain`. Each event
  handler is a method that states the whole new state.

The clock (`Date.now()`), the date text (`toLocaleDateString`) and the host-name parser
(`getUrlHostname`) are parameters. The list read back from local storage is an `Option`
given to the constructor.

The code behaves as follows where one might expect otherwise, and the model follows it:
- Only the empty text is refused by `addLink`; whitespace-only text is added as a link.
- Ids come from the clock and are not guaranteed unique, so no lemma assumes uniqueness.
  `AddThenRemove` requires that the new id is not already in the list.
- The website filter lower-cases the filter text only, not the host name.
- Deletion is immediate: there is no undo buffer, no "clear all", no sort modes, no
  categories and no text/image classification in this component.

## Model

| member | source | states |
|---|---|---|
| Sequences.IndexOf | src/App.js:109 | the result is -1 exactly when the value is absent; otherwise it is a position holding the value, with no earlier occurrence |
| Sequences.IndexOfAppend | src/App.js:109 | appending an element keeps the first position of every value already present; a new value is found at the end |
| Sequences.Map | src/App.js:115-120 | same length, and each element is the function applied to the element at the same position |
| Sequences.Filter | src/App.js:150-164 | the result holds only elements of the input that pass the test, and every passing element of the input is in it |
| Sequences.FilterCount | src/App.js:150-164 | each passing element is kept exactly as often as it occurs, and failing elements never appear |
| Sequences.FilterIsSubsequence | src/App.js:150-164 | a filter keeps the surviving elements in their original relative order |
| Sequences.FilterAppend | src/App.js:150-164 | filtering a list with one more element at the end adds at most that element at the end |
| Sequences.FilterAllPass | src/App.js:150-164 | when every element passes, the filter returns its input unchanged |
| Sequences.FilterNonePass | src/App.js:150-164 | when no element passes, the filter returns the empty list |
| Strings.ToLower | src/App.js:152 | same length, no upper-case ASCII letter remains, other characters are kept and upper-case letters move by 32 |
| Strings.ToLowerIdempotent | src/App.js:152 | lower-casing twice is lower-casing once |
| Strings.Contains | src/App.js:152 | no contract of its own: `ContainsIff` proves it holds exactly when the text occurs at some position |
| Strings.ContainsIff | src/App.js:152 | `includes` holds exactly when the text occurs at some position, in both directions |
| Priority.Cycle | src/App.js:107-112 | the next state is always one of the four ring states; a ring state never maps to itself; any value outside the ring maps to none |
| Priority.CycleSteps | src/App.js:21-26 | the ring runs none, pending, done, remaining, and back to none |
| Priority.CyclePeriod | src/App.js:107-112 | four steps bring a ring state back to itself, stated both as `Cycle` composed four times and as `CycleTimes(s, 4)` |
| Priority.IterateShift | src/App.js:107-112 | of `n + 1` repeated clicks, the first can be taken before the other `n` |
| Priority.CycleTimesPeriodic | src/App.js:107-112 | after the first click the state is in the ring, and from then on the sequence of states repeats every four clicks, whatever the starting value |
| Links.NewLink | src/App.js:86-96 | no contract of its own: `Manager.LinkManager.AddLink` states the new link it puts in front (the typed text, no status, no notes, the given id, date and timestamp) |
| Links.Remove | src/App.js:103 | deletion keeps exactly the links with another id, as a subsequence of the old list |
| Links.RemoveAbsent | src/App.js:103 | deleting an id that no link has leaves the list unchanged |
| Links.RemoveCount | src/App.js:103 | every link with another id is kept as often as it occurs; links with this id are gone |
| Links.RemoveIdempotent | src/App.js:103 | deleting the same id twice is deleting it once |
| Links.AddThenRemove | src/App.js:83-105 | adding a link with a fresh id and then deleting that id gives back the old list |
| Links.CyclePriorityOf | src/App.js:114-121 | same length and order; only the priority field changes, only on links with the id, and it advances one step round the ring |
| Links.TogglePriorityPeriod | src/App.js:114-121 | four toggles of the same id restore the whole list when those links hold ring states |
| Links.SetNotesOf | src/App.js:123-126 | same length and order; only the notes field changes, only on links with the id, and it becomes the new text |
| Links.SetNotesIdempotent | src/App.js:123-126 | saving the same notes twice is saving them once |
| Links.CycleAndNotesCommute | src/App.js:114-126 | toggling a status and saving notes commute, because they touch different fields |
| Views.Shown | src/App.js:150-164 | no contract of its own: `Views.FilterLinks` proves a link is in the view exactly when `Shown` holds of it, and what `Shown` then implies of its status and host |
| Views.FilterLinks | src/App.js:149-165 | the shown links form a subsequence of the list, and a link is shown exactly when it passes the status and website tests; under a status filter every shown link has that status; with website text every shown link's host contains the lower-cased text |
| Views.FilterLinksShowsAll | src/App.js:151-163 | with no status filter (`all`, or any other non-status value) and no website text, the view is the whole list in order |
| Views.FilterLinksCaseInsensitive | src/App.js:151-152 | typing the website text in any mix of upper and lower case shows the same links as typing it lower-cased |
| Sequences.FilterAgree | src/App.js:150-164 | two tests that agree on every element of the list filter it to the same result |
| Views.FilterLinksCount | src/App.js:149-165 | every shown link appears as often as in the list, and hidden links not at all |
| Views.Push | src/App.js:168-173 | no contract of its own: `PushKeys` states how one step changes the bucket keys, and `PushPermutation` that it adds exactly its link to the buckets |
| Views.Group | src/App.js:167-174 | no contract of its own: `GroupKeys`, `GroupBuckets` and `GroupPermutation` state its keys, its buckets' contents and that it is a permutation of the list |
| Views.PushKeys | src/App.js:168-172 | one reduce step keeps the bucket keys, adding the link's date at the end when it is new |
| Views.KeysAppend | src/App.js:167-174 | meeting one more date keeps the keys equal to the set of dates met, in first-seen order |
| Views.GroupKeys | src/App.js:167-174 | the bucket keys are exactly the dates of the list, all distinct, in the order each date is first met |
| Views.GroupBuckets | src/App.js:167-174 | each bucket holds exactly the links of its date, in list order |
| Views.FlattenUpdate | src/App.js:172 | replacing one bucket's links changes the buckets' total contents by exactly that difference |
| Views.FlattenAppend | src/App.js:170 | adding a bucket at the end appends its links to the buckets' total contents |
| Views.PushPermutation | src/App.js:168-173 | one reduce step adds exactly its link to the buckets' contents |
| Views.GroupPermutation | src/App.js:167-174 | the buckets together are a permutation of the list, so their sizes add up to its length |
| Views.LinkInItsBucket | src/App.js:167-174 | each link lands in the bucket keyed by its own date and in no bucket of another date |
| Views.SameDayOneBucket | src/App.js:167-174 | links all from one day form a single bucket holding all of them in list order |
| Manager.LinkManager.constructor | src/App.js:42-57 | the saved list, or the empty list when loading failed; empty link box, no editor open, empty notes box, filter `all`, no website text |
| Manager.LinkManager.AddLink | src/App.js:83-100 | an empty link box changes nothing; otherwise the new link (the box's text, no status, no notes) goes in front of the unchanged old list and the box is cleared |
| Manager.LinkManager.DeleteLink | src/App.js:102-105 | the links with the id are removed and the others kept in order; nothing changes when no link has the id; the editor closes |
| Manager.LinkManager.TogglePriority | src/App.js:114-121 | only the priority of the links with the id changes, one step round the ring |
| Manager.LinkManager.UpdateNotes | src/App.js:123-129 | only the notes of the links with the id change, to the notes box's text; the editor closes and the box is cleared |
| Manager.LinkManager.StartEditing | src/App.js:131-134 | the editor opens on the link's id with its current notes |
| Manager.LinkManager.CancelEditing | src/App.js:353 | the editor closes; nothing else changes |
| Manager.LinkManager.SetNewUrl | src/App.js:186 | the link box takes the typed text; nothing else changes |
| Manager.LinkManager.SetNewNote | src/App.js:346 | the notes box takes the typed text; nothing else changes |
| Manager.LinkManager.SetActiveFilter | src/App.js:211 | the status filter takes the chosen value; nothing else changes |
| Manager.LinkManager.SetFilterDomain | src/App.js:251 | the website text takes the typed text; nothing else changes |
| Manager.LinkManager.GroupedLinks | src/App.js:149-174 | the buckets together hold every shown link exactly as often as it is shown; each bucket holds exactly the shown links of its date, in list order; the dates are distinct and are exactly the dates of the shown links, and come in the order each is first met among them; every bucketed link is in the list, has its bucket's date and passes the filters |

## Left out

- Rendering (src/App.js:136-147 and 176-393): icons, colours, labels, layout, `formatTime`, and the presentational components under src/components/ui/. None of them holds state logic.
- The filter panel's open/closed flag `showFilters` (src/App.js:56, 197): it only decides what is drawn.
- Writing the list to local storage on every change (src/App.js:59-65), and JSON parsing. Loading is modelled as an `Option` passed to the constructor, with `None` for a missing key or a parse failure.
- `getUrlHostname` (src/App.js:67-73): the URL parser is foreign code, so it is a function parameter `host`.
- `Date.now()` and `toLocaleDateString` (src/App.js:87-93): the id, the timestamp and the date text are parameters of `AddLink`. The code reads the clock twice, so id and timestamp are separate parameters.
- Strings.ToLower: covers the ASCII letters only. JavaScript's `toLowerCase` also maps non-ASCII letters by Unicode rules, which are not modelled.
- Views.Group: JavaScript objects list integer-like keys first, in numeric order, and a key such as `constructor` is inherited and would break `push`. The dates produced at src/App.js:89-92 ("Oct 18") are never such keys, so the model keeps plain first-seen order.
- React batching and stale closures: `deleteLink`, `togglePriority` and `updateNotes` read `links` directly, while `addLink` uses an updater. Each handler is modelled as one atomic step.
- `window.open` (src/App.js:313): opening a link is a pass-through to the browser.
- A saved text that parses to something other than an array is not modelled: the constructor takes a list or `None`. For example, a stored `"null"` parses without error, so `links` would become `null` at src/App.js:45, and the call `filterLinks(links)` at src/App.js:167 would then throw on `links.filter` (src/App.js:150).
- Loaded records are assumed to have all six fields with the right types. Only the priority is allowed to be an arbitrary string, so that `Cycle`'s fall-back to `none` is covered.
- src/components/ui/LinkManager.js only declares a `CATEGORIES` constant. Categories, undo, clear-all, sorting and content classification are not implemented in any of the source files.
