# Boswell web: the stateful parts of the marketing site, in Dafny

This project models the three small state machines of the site and proves what
they promise:

- **Contact/pricing form** (`src/pages/ContactPage.jsx`, module `Contact`, helper
  module `FormEntries`). The state is a fixed catalog of four packages, the
  selected package id, seven string fields, a `submitting` flag and a toast.
  The handlers are transitions of a `FormState` value (`AfterInputChange`,
  `AfterPackageSelect`, `AfterSubmitStart`, `AfterSubmitEnd`, `AfterToastTimeout`).
  The class `ContactPage` has the component's fields, and each of its methods
  is proved to perform one of those transitions. The asynchronous submit
  handler is split at its `await`:
  - `BeginSubmit` returns the request body, or nothing when a submit is in flight.
  - `FinishSubmit(ok)` runs the rest; `ok` is the outcome of the POST.

  The request body is an entry list. It holds the entries that `new FormData(form)`
  reads from the form element (a parameter), followed by the handler's eleven
  `set` calls. It is then copied into a `URLSearchParams` list. `FormEntries.Set`
  follows the `set` rule: replace the first entry with the name, drop later
  ones, append if there is none.
- **Portfolio loader** (`src/pages/Portfolio.jsx`, module `Portfolio`). The
  state is `repos`, `loading` and `error`. `ApplyLoadResult` is the continuation
  of the single fetch, with its outcome as a parameter. On success the response
  array is sorted in place, newest `updatedAt` first, by an insertion sort.
  That sort is proved equal to the functional stable sort `SortDesc`. The
  lemmas prove three things about `SortDesc`:
  - the result is non-increasing by `updatedAt`;
  - it is a permutation of the input;
  - it is stable: the repositories with any one timestamp keep their response order.
  
  `CardView` gives the description and live-demo fallbacks of a card.
- **FAQ accordion** (`src/components/FAQSection.jsx`, module `Faq`). One
  optional open index over the ten entries. `Toggle` is the next-state rule,
  `Accordion` the component, and `Render` what each entry shows.

The model follows the code as written; in particular:
- `handleSubmit` performs no validation. Name and email are required only by the browser.
- A non-OK response's error message does not include the status code.
- The portfolio has no reload and no guard against stale responses.
- Package selection is not blocked while a submit is in flight.

## Model

| member | source | states |
|---|---|---|
| `FormEntries.Set` | src/pages/ContactPage.jsx:159-173 | `FormData.set(k, v)`: replace the first entry named `k`, drop the later ones, or append; its properties are stated by `SetSpec`, `SetAppends`, `SetReplacesFirst` and `SetOtherKey` |
| `FormEntries.SetAll` | src/pages/ContactPage.jsx:159-173 | the handler's successive `set` calls, in order; `SetAllContents` states their combined effect |
| `FormEntries.SetSpec` | src/pages/ContactPage.jsx:159-173 | after `set(k, v)` exactly one entry is named `k` and its value is `v`; the entries of every other name are unchanged, in order |
| `FormEntries.SetAppends` | src/pages/ContactPage.jsx:159-173 | `set` of a name the form element did not have appends the entry at the end, after all existing entries |
| `FormEntries.SetReplacesFirst` | src/pages/ContactPage.jsx:159-173 | `set` of a name already present puts the entry where the first entry of that name was, keeping everything before it |
| `FormEntries.SetOtherKey` | src/pages/ContactPage.jsx:159-173 | setting one name changes neither the count nor the value of any other name |
| `FormEntries.SetAllContents` | src/pages/ContactPage.jsx:159-173 | after successive `set`s of distinct names, each name set occurs once with its value, and every other name keeps its number of entries and its first value |
| `FormEntries.OnlyWithout` | src/pages/ContactPage.jsx:159-173 | dropping the entries of one name (what `set` does to the later duplicates) keeps every entry of every other name, in order |
| `FormEntries.OnlySet` | src/pages/ContactPage.jsx:159-173 | one `set` keeps every entry of every other name, values and order included |
| `FormEntries.OnlySetAll` | src/pages/ContactPage.jsx:159-173 | successive `set`s of other names keep every entry of a name, values and order included, even when that name occurs several times |
| `FormEntries.ToSearchParams` | src/pages/ContactPage.jsx:176-179 | appending every FormData entry to a new URLSearchParams yields the same entries in the same order |
| `Contact.FindIn` | src/pages/ContactPage.jsx:130 | `packages.find(p => p.id === id)` over a package list; characterised by `FindInSpec` and `FindInFirst` |
| `Contact.Find` | src/pages/ContactPage.jsx:153 | the lookup in the fixed catalog, used by selection (line 130), the submit body (line 153) and the submit analytics (line 196); `CatalogLookup` states that it finds each catalog entry by its id |
| `Contact.FindInSpec` | src/pages/ContactPage.jsx:130 | `find` returns nothing exactly when no package has the id; otherwise it returns a package of the list with that id |
| `Contact.FindInFirst` | src/pages/ContactPage.jsx:130 | the package `find` returns is the first one with that id: no earlier package has it |
| `Contact.CatalogLookup` | src/pages/ContactPage.jsx:32-105 | catalog ids are unique, so looking up any entry's id finds that very entry |
| `Contact.WithField` | src/pages/ContactPage.jsx:124-127 | the spread update sets exactly the named field to the value and leaves the other six as they were |
| `Contact.InitialFields` | src/pages/ContactPage.jsx:110-118 | the initial form fields, also restored after a successful submit (lines 205-213); `InitialFieldsAreStarter` states their values |
| `Contact.InitialFieldsAreStarter` | src/pages/ContactPage.jsx:107-118 | the initial fields are the starter package's price and timeline, project type `web-development`, and empty name, email, company and message |
| `Contact.BuildPayload` | src/pages/ContactPage.jsx:156-173 | the request body: the form element's entries followed by the eleven `set` calls; `PayloadContents`, `PayloadEntry` and `PayloadKeepsFormEntries` state what it holds |
| `Contact.PayloadUpdateKeys` | src/pages/ContactPage.jsx:159-173 | the handler sets eleven names, none of them twice |
| `Contact.PayloadEntry` | src/pages/ContactPage.jsx:156-173 | each name the handler sets occurs once in the body, with the value it was set to |
| `Contact.SelectedNameAndPrice` | src/pages/ContactPage.jsx:172-173 | the package name and price sent are those of the found package, or empty strings when the id is not found |
| `Contact.PayloadContents` | src/pages/ContactPage.jsx:159-173 | the body has `form-name` `contact`, the seven field values, the selected id and the found package's name and price, each key exactly once |
| `Contact.PayloadKeepsFormEntries` | src/pages/ContactPage.jsx:156-173 | entries of the form element under any name the handler does not set (the honeypot field, for one) are sent as read: the same entries, with the same values, in the same order |
| `Contact.AfterInputChange` | src/pages/ContactPage.jsx:124-127 | `handleInputChange` as a state transition; `InputChangeEffect` states its effect |
| `Contact.AfterPackageSelect` | src/pages/ContactPage.jsx:129-141 | `handlePackageSelect` as a state transition; `SelectKnownPackage`, `SelectUnknownPackage` and `SelectTwice` state its effect |
| `Contact.AfterSubmitStart` | src/pages/ContactPage.jsx:144-149 | the submit handler up to the POST: ignored while in flight, otherwise raises the flag and clears the toast; `SubmitReentryIgnored` and `SubmitStarts` state it |
| `Contact.SubmitRequest` | src/pages/ContactPage.jsx:151-188 | the body the submit handler posts, or none while a submit is in flight; `SubmitStarts` and `PayloadContents` state it |
| `Contact.AfterSubmitEnd` | src/pages/ContactPage.jsx:190-230 | the submit handler after the POST, on success or failure; `SubmitSucceeds` and `SubmitFails` state it |
| `Contact.AfterToastTimeout` | src/pages/ContactPage.jsx:219 | the auto-hide timer (also line 227) resets only the toast |
| `Contact.InitialStateValid` | src/pages/ContactPage.jsx:107-122 | the initial selection is `starter`, a catalog entry, with no submit in flight |
| `Contact.TransitionsPreserveValid` | src/pages/ContactPage.jsx:129-216 | every handler keeps `selectedPackage` naming a catalog entry: it is set only to an id `find` located, or reset to `starter` |
| `Contact.InputChangeEffect` | src/pages/ContactPage.jsx:124-127 | an edit sets exactly that field to any string, including the empty one, and changes nothing else (selection, flag, toast, analytics) |
| `Contact.SelectKnownPackage` | src/pages/ContactPage.jsx:129-140 | selecting a catalog package sets the selection and copies its price to `budget` and its timeline to `timeline`; `projectType` is `ecommerce` exactly for the ecommerce id and `web-development` otherwise; name, email, company and message are unchanged; one selection event is tracked |
| `Contact.SelectUnknownPackage` | src/pages/ContactPage.jsx:129-131 | an id outside the catalog changes nothing and tracks nothing |
| `Contact.SelectTwice` | src/pages/ContactPage.jsx:129-140 | selecting the same id twice leaves the state of selecting it once; only the analytics call repeats |
| `Contact.SubmitReentryIgnored` | src/pages/ContactPage.jsx:144-146 | while a submit is in flight, submitting again sends no request and changes no state |
| `Contact.SubmitStarts` | src/pages/ContactPage.jsx:146-188 | otherwise the flag is raised and the toast cleared before the request, and exactly one request body is built from the current fields and selection |
| `Contact.SubmitSucceeds` | src/pages/ContactPage.jsx:194-216 | after a successful POST the fields and selection are exactly their initial values, the flag is down, the success toast is shown and the submit is tracked with the package name |
| `Contact.SubmitFails` | src/pages/ContactPage.jsx:190-230 | after a failed POST or an exception the fields and selection are exactly as before the submit, the flag is down and the error toast is shown |
| `Contact.ContactPage.constructor` | src/pages/ContactPage.jsx:107-122 | the component starts in the initial state |
| `Contact.ContactPage.HandleInputChange` | src/pages/ContactPage.jsx:124-127 | performs the field-edit transition and keeps the invariant |
| `Contact.ContactPage.HandlePackageSelect` | src/pages/ContactPage.jsx:129-141 | performs the package-selection transition, returning early for an unknown id, and keeps the invariant |
| `Contact.ContactPage.BeginSubmit` | src/pages/ContactPage.jsx:144-188 | performs the first half of the submit and returns exactly the body the transition builds, or none when a submit is in flight |
| `Contact.ContactPage.FinishSubmit` | src/pages/ContactPage.jsx:190-230 | performs the success or failure half of the submit and always lowers the flag |
| `Contact.ContactPage.HideToast` | src/pages/ContactPage.jsx:219-227 | the auto-hide timer hides the toast and changes nothing else |
| `Portfolio.Insert` | src/pages/Portfolio.jsx:17-19 | one insertion step of the stable newest-first order; `InsertPerm`, `InsertSorted`, `InsertWithTime`, `InsertLength` and `InsertAt` state its properties |
| `Portfolio.SortDesc` | src/pages/Portfolio.jsx:17-19 | the order `data.sort` leaves with the newest-first comparator; `SortDescSorted`, `SortDescPermutation`, `SortDescLength` and `SortDescStable` pin it down |
| `Portfolio.InsertPerm` | src/pages/Portfolio.jsx:17-19 | one insertion step adds exactly the inserted repository |
| `Portfolio.InsertSorted` | src/pages/Portfolio.jsx:17-19 | one insertion step keeps the prefix non-increasing by `updatedAt` |
| `Portfolio.InsertWithTime` | src/pages/Portfolio.jsx:17-19 | an insertion places the new element after every earlier element with the same timestamp |
| `Portfolio.SortDescSorted` | src/pages/Portfolio.jsx:16-19 | the sorted list is non-increasing by `updatedAt` (most recently updated first) |
| `Portfolio.SortedDescPairwise` | src/pages/Portfolio.jsx:16-19 | in a list ordered newest first between neighbours, every repository is at least as recent as every later one |
| `Portfolio.SortDescPermutation` | src/pages/Portfolio.jsx:17-20 | the sorted list has the same elements as the response, each as often |
| `Portfolio.SortDescLength` | src/pages/Portfolio.jsx:17-20 | sorting neither drops nor adds repositories: the list keeps the response's length |
| `Portfolio.SortDescStable` | src/pages/Portfolio.jsx:17-19 | for every timestamp, the repositories updated then appear in response order (the sort is stable) |
| `Portfolio.InsertAt` | src/pages/Portfolio.jsx:17-19 | in a sorted list, the insertion point is after the last element at least as recent as the new one |
| `Portfolio.InsertInto` | src/pages/Portfolio.jsx:17-19 | one pass of the in-place sort moves `a[i]` into the sorted prefix and leaves the rest of the array alone |
| `Portfolio.SortByUpdatedDesc` | src/pages/Portfolio.jsx:17-19 | the in-place sort leaves the array equal to the stable newest-first order of its old contents |
| `Portfolio.CardView` | src/pages/Portfolio.jsx:44-66 | a falsy description shows `No description provided.`; the live-demo link is present exactly when the homepage is truthy and then points to it |
| `Portfolio.PortfolioPage.constructor` | src/pages/Portfolio.jsx:4-6 | on mount `repos` is empty, `loading` is true and `error` is null |
| `Portfolio.PortfolioPage.ApplyLoadResult` | src/pages/Portfolio.jsx:9-29 | it runs only while the one fetch of the mount is outstanding (`loading`) and leaves `loading` false, so the fetch completes once and is never retried; on success `repos` is the response sorted newest first, stably, as a permutation; a non-OK status sets `error` to `Failed to fetch repos.`; an exception sets it to the exception's message; in both failure cases `repos` is unchanged; `loading` is false after every outcome |
| `Faq.Toggle` | src/components/FAQSection.jsx:52-54 | toggling the open index closes it; toggling any other index opens that one, and only that one |
| `Faq.Render` | src/components/FAQSection.jsx:88-106 | an entry's answer and up-chevron are shown exactly when its index equals the open index |
| `Faq.AtMostOneOpen` | src/components/FAQSection.jsx:74-106 | at most one answer is shown, and exactly one when the open index is inside the list |
| `Faq.ToggleTwiceFromClosed` | src/components/FAQSection.jsx:52-54 | from no open entry, toggling the same entry twice closes it again |
| `Faq.Accordion.constructor` | src/components/FAQSection.jsx:7 | initially no entry is open |
| `Faq.Accordion.View` | src/components/FAQSection.jsx:88-106 | the rendered list: one view per entry, exactly one answer shown while an entry is open and none otherwise |
| `Faq.Accordion.ToggleItem` | src/components/FAQSection.jsx:52-54 | applies the toggle rule; indices lie within the ten-entry list, so the open index always names an entry |

## Left out

- Network I/O is not modelled: the POST to the form endpoint, the GET of the repository list and `res.json()`. Their outcomes are parameters (`ok`; `LoadOutcome`). A response body that does not parse, or is not an array, is covered by the `Exception` outcome.
- The `URLSearchParams` serialisation (percent-encoding, the `toString` body) is not modelled. The body is the entry list itself.
- `new Date(...)` parsing is not modelled. Timestamps are integers, so an unparsable date, which gives a `NaN` comparator result, is outside the model.
- The 4000 ms and 6000 ms delays of the toast auto-hide timers are not modelled. `HideToast` is the timer callback, which can fire at any time.
- `console.log` and `console.error` output is not modelled.
- The browser's `required` check on name and email is not modelled. It runs before the handler, and the handler itself checks nothing.
- Analytics effects are not modelled. Each `trackPackageSelection` and `trackContactFormSubmit` call is recorded as an event in a list. What `trackEvent` does with it (its body is commented out) is not modelled.
- React's rendering is not modelled. Each handler runs atomically on the latest state. Two submit events that both read the same stale `submitting` before a re-render are not modelled.
- The fetch is issued once per mount: the effect has no dependencies. The model describes production behaviour: in development builds `React.StrictMode` runs the effect twice, and both responses update the same state. Effect scheduling itself is not modelled. The constructor stands for the mount. `ApplyLoadResult` requires `loading`, which only the constructor sets and which `ApplyLoadResult` itself clears, so that one fetch completes once. No operation issues another fetch: there is no reload, retry or polling.
- An update arriving after the component unmounts is not modelled.
- `Contact.ContactPage.HandleInputChange` accepts all seven field names, but only six inputs call it: name, email, company, timeline, budget and message. The hidden `projectType` input has no change handler, so an edit of `ProjectType` is a transition the page cannot make. The model over-approximates the page there.
- Package descriptions, pages, revisions, features and the `popular` flag are not modelled. They are display-only.
- Repository fields the page never reads are not modelled, and neither is the rest of the markup. The page never reads language, stars, forks or the private flag. The markup left out includes the loading and error paragraphs and the FAQ question and answer texts.
