# InnovateINDIA front end: feed queries, submission form and taxonomy routes

This project models, in Dafny, the logic inside the InnovateINDIA React pages. Idea submitters
browse a fixed taxonomy of innovation fields and pick a subcategory. They then fill in a
submission form. Visitors read a community feed of seed ideas, which they can search, filter
and sort.

- **Community feed** (`CommunityFeed`, generic parts in `StableSort`, `Text`, `Sequences`, `Dates`).
  - The feed keeps the ideas whose title or problem statement contains the search term, ignoring
    case, and whose field equals the selected one (or the selection is `all`).
  - It then sorts them stably: by upvotes descending, by date descending or by title ascending.
    Any other key leaves the order alone.
  - It also derives the field-filter options, the four summary figures and the status badge
    colours.
  - `Array.prototype.sort` is modelled as a stable insertion sort on sequences.
  - The sort keys are modelled as follows.
    - The `date` comparator subtracts two parsed `YYYY-MM-DD` dates. An unparsable date makes it
      yield 0, as the NaN of `new Date(...) - new Date(...)` does inside a sort.
    - `localeCompare` is a lexicographic order on the ASCII-lowercased strings.
- **Submission form** (`IdeaSubmission`).
  - The form is a total step function over a form state: nine text inputs plus an optional image
    file name.
  - The events are an input change, a file choice and a submit.
  - A submit either is rejected with an alert and no state change, or resets the form and
    navigates to `/community`.
  - The page's route guard on `/submit/:fieldId/:subcategory` is also modelled.
- **Field page** (`FieldSelection`): the route guard on `/fields/:fieldId`, the numbered
  subcategory list and the path a click leads to.
- **Tables** (`Fields`, checked in `SeedFacts` and `FeedSeed`).
  - `innovationFields` and `mockIdeas` are Dafny constants with exactly the source's values.
  - Their data invariants and the concrete feed results on them are proved by computation.

Navigation, alerts and crashes are values: `Routes.Outcome` is `Redirect(to)`, `Render(view)`
or `Throws`. A submit produces an `IdeaSubmission.SubmitOutcome`. Everything is a pure function
on immutable values. The feed therefore cannot modify `mockIdeas`: `filter` builds a new array
and only that array is sorted.

The model follows the code in two places where the page's markup or its comments suggest more.

- **The submit guard.** `handleSubmit` rejects a submit only when `title`, `problemStatement` or
  `solution` is the empty string (`IdeaSubmission.jsx:56`).
  - No value is trimmed, so a value of spaces passes.
  - `approach` has the `required` attribute only in the markup (`IdeaSubmission.jsx:204`), and
    `handleSubmit` does not check it.
- **The field lookup.** `innovationFields[fieldId]` is a property read on a plain object, which
  also finds inherited keys (see Findings).

## Model

| member | source | states |
|---|---|---|
| `CommunityFeed.SortKeyOf` | InnovateINDIA/src/pages/CommunityFeed.jsx:28-37 | only `upvotes`, `date` and `title` select an order; every other value falls to the `default` branch |
| `CommunityFeed.MatchesSearch` | InnovateINDIA/src/pages/CommunityFeed.jsx:22-23 | an idea matches the search iff the lowercased term occurs at some position of the lowercased title or of the lowercased problem statement |
| `CommunityFeed.MatchesField` | InnovateINDIA/src/pages/CommunityFeed.jsx:24 | `all` lets every idea through; any other value lets through exactly the ideas whose field equals it, case included |
| `CommunityFeed.FilterIdeas` | InnovateINDIA/src/pages/CommunityFeed.jsx:20-26 | an idea is in the result iff it is in the input and passes both the search and the field test; each passing idea keeps its multiplicity, a failing one has none |
| `CommunityFeed.FilterIdeasConcat` | InnovateINDIA/src/pages/CommunityFeed.jsx:20-26 | filtering distributes over concatenation, so it keeps collection order |
| `CommunityFeed.FilterIdeasAll` | InnovateINDIA/src/pages/CommunityFeed.jsx:20-26 | a query every idea passes returns the collection unchanged, in its own order |
| `CommunityFeed.SearchIgnoresCase` | InnovateINDIA/src/pages/CommunityFeed.jsx:22-23 | the term is lowercased before the search, so its case never matters |
| `CommunityFeed.EmptyQueryMatchesAll` | InnovateINDIA/src/pages/CommunityFeed.jsx:22-24 | an empty term with field `all` keeps every idea, because every string includes the empty string |
| `CommunityFeed.DateDifference` | InnovateINDIA/src/pages/CommunityFeed.jsx:32 | negative exactly when the first date is earlier, zero exactly when the dates are equal, and zero when either date does not parse |
| `CommunityFeed.Comparator` | InnovateINDIA/src/pages/CommunityFeed.jsx:27-38 | `upvotes` puts the idea with more upvotes first and ties equal counts; `date` puts the later valid date first and ties any invalid date; `title` answers `localeCompare` of the titles; any other key ties everything |
| `CommunityFeed.ComparatorConsistent` | InnovateINDIA/src/pages/CommunityFeed.jsx:27-38 | each of the four comparators changes sign when its arguments swap and has a transitive "not after"; for `date` this needs every date to parse |
| `CommunityFeed.Evaluate` | InnovateINDIA/src/pages/CommunityFeed.jsx:20-38 | the listed ideas are exactly the matching ideas of the collection, as a permutation of the filtered list |
| `CommunityFeed.EvaluateSorted` | InnovateINDIA/src/pages/CommunityFeed.jsx:27-38 | the listed ideas are ordered by the chosen comparator |
| `CommunityFeed.EvaluateByUpvotes` | InnovateINDIA/src/pages/CommunityFeed.jsx:29-30 | with `upvotes`, upvotes never increase down the list |
| `CommunityFeed.EvaluateByDate` | InnovateINDIA/src/pages/CommunityFeed.jsx:31-32 | with `date` and valid dates, no idea is listed after a later-dated one |
| `CommunityFeed.EvaluateByTitle` | InnovateINDIA/src/pages/CommunityFeed.jsx:33-34 | with `title`, titles never decrease under the title comparison |
| `CommunityFeed.EvaluateUnordered` | InnovateINDIA/src/pages/CommunityFeed.jsx:35-36 | with any other key the filtered list comes back in collection order |
| `CommunityFeed.FilterTiesCommute` | InnovateINDIA/src/pages/CommunityFeed.jsx:20-26 | taking the ideas that tie with `x` commutes with filtering |
| `CommunityFeed.EvaluateStable` | InnovateINDIA/src/pages/CommunityFeed.jsx:20-38 | ideas that tie under the comparator are listed in their collection order |
| `CommunityFeed.InitialQueryShowsAll` | InnovateINDIA/src/pages/CommunityFeed.jsx:12-14 | the page's initial controls (empty term, `all`, `date`) list every idea |
| `CommunityFeed.FieldNames` | InnovateINDIA/src/pages/CommunityFeed.jsx:17 | `mockIdeas.map(idea => idea.field)`: one entry per idea, in order |
| `CommunityFeed.FieldOptions` | InnovateINDIA/src/pages/CommunityFeed.jsx:17 | the options are `all` followed by every field some idea names, each once |
| `CommunityFeed.FieldOptionsOrder` | InnovateINDIA/src/pages/CommunityFeed.jsx:17 | the fields after `all` are listed in order of first appearance, as a `Set` iterates |
| `CommunityFeed.CountStatus` | InnovateINDIA/src/pages/CommunityFeed.jsx:138 | the count is zero iff no idea has the status, and equals the length iff every idea has it |
| `CommunityFeed.CountStatusIsMultiplicity` | InnovateINDIA/src/pages/CommunityFeed.jsx:138 | the count is the number of occurrences of the status among the ideas' statuses |
| `CommunityFeed.CountTwoStatuses` | InnovateINDIA/src/pages/CommunityFeed.jsx:138-144 | two different statuses together count no more ideas than there are |
| `CommunityFeed.FieldsCovered` | InnovateINDIA/src/pages/CommunityFeed.jsx:150 | `fields.length - 1` is the number of distinct field names, at most the number of ideas, and zero only for no ideas |
| `CommunityFeed.FeedStats` | InnovateINDIA/src/pages/CommunityFeed.jsx:132-150 | total is the collection size; implemented and in development are the numbers of occurrences of `Implemented` and `Under Development` among the statuses, together at most the total; fields covered counts the distinct fields |
| `CommunityFeed.StatusBadge` | InnovateINDIA/src/pages/CommunityFeed.jsx:40-51 | unknown statuses, and only they, get the gray default |
| `CommunityFeed.StatusBadgesDistinct` | InnovateINDIA/src/pages/CommunityFeed.jsx:40-51 | the three known statuses get pairwise different colours |
| `StableSort.SortPermutes` | InnovateINDIA/src/pages/CommunityFeed.jsx:27-38 | sorting returns a permutation of its input |
| `StableSort.Sort` | InnovateINDIA/src/pages/CommunityFeed.jsx:27 | the `.sort(...)` call as a stable insertion sort; its properties are stated by `SortPermutes`, `SortSorted`, `SortStable`, `SortAllTies` and `SortUnique` |
| `StableSort.SortSorted` | InnovateINDIA/src/pages/CommunityFeed.jsx:27-38 | with a comparator that is a total preorder on the input, the output is ordered |
| `StableSort.SortStable` | InnovateINDIA/src/pages/CommunityFeed.jsx:27-38 | the elements tying with any `x` keep their input order, as a stable `sort` guarantees |
| `StableSort.SortAllTies` | InnovateINDIA/src/pages/CommunityFeed.jsx:35-36 | a comparator that always answers 0 leaves the input unchanged |
| `StableSort.SortUnique` | InnovateINDIA/src/pages/CommunityFeed.jsx:27-38 | without ties, the only ordered permutation of the input is the sort's result |
| `Text.Lower` | InnovateINDIA/src/pages/CommunityFeed.jsx:22-23 | `toLowerCase` folds each character and keeps the length |
| `Text.Includes` | InnovateINDIA/src/pages/CommunityFeed.jsx:22-23 | `includes` is true iff the needle occurs at some position of the haystack |
| `Text.IncludesEmpty` | InnovateINDIA/src/pages/CommunityFeed.jsx:22-23 | every string includes the empty string |
| `Text.LocaleCompare` | InnovateINDIA/src/pages/CommunityFeed.jsx:34 | the title comparison answers -1, 0 or 1, and 0 exactly when the lowercased titles are equal |
| `Text.LocaleCompareIsPreorder` | InnovateINDIA/src/pages/CommunityFeed.jsx:34 | the title comparison changes sign when its arguments swap, and "not after" is transitive, so it is a total preorder |
| `Sequences.Distinct` | InnovateINDIA/src/pages/CommunityFeed.jsx:17 | `new Set(...)` spread into an array keeps each value once, and exactly the input's values |
| `Sequences.DistinctKeepsFirstOccurrenceOrder` | InnovateINDIA/src/pages/CommunityFeed.jsx:17 | distinct values come in the order of their first occurrence |
| `Dates.ParseDate` | InnovateINDIA/src/pages/CommunityFeed.jsx:32 | a string that parses is shaped `YYYY-MM-DD` and gives a month of 1 to 12 and a day of 1 to 31; which date it gives is stated by `FormatParseDate` |
| `Dates.FormatParseDate` | InnovateINDIA/src/pages/CommunityFeed.jsx:32 | the date read from a text formats back to exactly that text |
| `Dates.ParseDateIffFormat` | InnovateINDIA/src/pages/CommunityFeed.jsx:32 | a text reads as date `d` iff `d` is valid and the text is `d` written as `YYYY-MM-DD` |
| `Dates.DayKeyOrdersDates` | InnovateINDIA/src/pages/CommunityFeed.jsx:32 | the day key is larger exactly for the later date, so its difference has the sign of the millisecond difference |
| `Dates.ParseFormatDate` | InnovateINDIA/src/pages/CommunityFeed.jsx:32 | formatting a valid date as `YYYY-MM-DD` and parsing it back gives the same date |
| `IdeaSubmission.FieldNamed` | InnovateINDIA/src/pages/IdeaSubmission.jsx:35-40 | an event `name` is mapped to the input of that name, or to none when no input has it |
| `IdeaSubmission.FieldNamedRoundTrip` | InnovateINDIA/src/pages/IdeaSubmission.jsx:20-30 | the nine names are distinct and each leads back to its input |
| `IdeaSubmission.Set` | InnovateINDIA/src/pages/IdeaSubmission.jsx:37-40 | `{ ...prev, [name]: value }` sets that input and leaves the eight others alone |
| `IdeaSubmission.FormDataExtensional` | InnovateINDIA/src/pages/IdeaSubmission.jsx:20-30 | form data is determined by its nine inputs |
| `IdeaSubmission.HandleInputChange` | InnovateINDIA/src/pages/IdeaSubmission.jsx:35-41 | exactly the named input takes the value, every other input and the image are unchanged |
| `IdeaSubmission.HandleImageChange` | InnovateINDIA/src/pages/IdeaSubmission.jsx:44-49 | the first chosen file replaces the image; with no file the state is unchanged; the text inputs never change |
| `IdeaSubmission.HandleSubmit` | InnovateINDIA/src/pages/IdeaSubmission.jsx:52-80 | rejected with the missing-fields alert iff title, problem statement or solution is empty; otherwise thanks, every input empty, no image, navigation to `/community` |
| `IdeaSubmission.WhitespaceIsAccepted` | InnovateINDIA/src/pages/IdeaSubmission.jsx:56 | values of spaces pass the guard: nothing is trimmed |
| `IdeaSubmission.UnguardedFieldsDoNotBlock` | InnovateINDIA/src/pages/IdeaSubmission.jsx:56 | changing the approach or any other unguarded input never changes whether a submit is accepted |
| `IdeaSubmission.AcceptedResetsToInitial` | InnovateINDIA/src/pages/IdeaSubmission.jsx:64-76 | the state after a successful submit is the page's initial state |
| `IdeaSubmission.Step` | InnovateINDIA/src/pages/IdeaSubmission.jsx:35-80 | only a submit alerts or navigates; a rejected submit changes nothing; a navigation goes to `/community` and clears the image |
| `IdeaSubmission.SubmitNavigatesIffAccepted` | InnovateINDIA/src/pages/IdeaSubmission.jsx:56-79 | a submit navigates iff the three guarded inputs are non-empty, and then leaves the initial state |
| `IdeaSubmission.ResubmitRejected` | InnovateINDIA/src/pages/IdeaSubmission.jsx:56-75 | right after a successful submit, a second submit is rejected |
| `IdeaSubmission.FillAndSubmit` | InnovateINDIA/src/pages/IdeaSubmission.jsx:35-79 | typing a title, problem statement and solution into a fresh form and submitting reaches the feed |
| `IdeaSubmission.SubmissionPage` | InnovateINDIA/src/pages/IdeaSubmission.jsx:14-17 | redirect to `/` iff the field is absent or none of its subcategories has the id; otherwise render the field and its first subcategory with that id |
| `IdeaSubmission.SubmissionPageAsWritten` | InnovateINDIA/src/pages/IdeaSubmission.jsx:14-17 | as written, `field?.subcategories.find(...)` throws iff the field id is an inherited object key; otherwise the page behaves as `SubmissionPage`, including the redirect of lines 83-86 |
| `Taxonomy.LookupField` | InnovateINDIA/src/pages/FieldSelection.jsx:14 | the own-key lookup finds the field iff its key is in the table |
| `Taxonomy.FindSubcategory` | InnovateINDIA/src/pages/IdeaSubmission.jsx:17 | `find` returns nothing iff no subcategory has the id, and otherwise the first one that has it |
| `Taxonomy.FindSubcategoryFirst` | InnovateINDIA/src/pages/IdeaSubmission.jsx:17 | the first subcategory with the id is the one found |
| `Taxonomy.LookupAsWritten` | InnovateINDIA/src/pages/FieldSelection.jsx:14 | a bracket read finds an own field for a key, an inherited value for a prototype key, and `undefined` for anything else |
| `Taxonomy.LookupAsWrittenAgrees` | InnovateINDIA/src/pages/IdeaSubmission.jsx:14 | away from inherited keys the bracket read and the own-key lookup agree |
| `Taxonomy.FindOwnSubcategory` | InnovateINDIA/src/pages/IdeaSubmission.jsx:17 | with unique ids, looking up a subcategory by its own id finds it |
| `Routes.SubmitPath` | InnovateINDIA/src/pages/FieldSelection.jsx:23 | the path starts with `/submit/` and has room for the two segments and the separator |
| `Routes.ParseSubmitPath` | InnovateINDIA/src/pages/FieldSelection.jsx:23 | a path that parses is the submit path of its two parameters, both of which are path segments |
| `Routes.ParseSubmitPathRoundTrip` | InnovateINDIA/src/pages/FieldSelection.jsx:23 | parsing the path built from two segments gives the segments back |
| `FieldSelection.FieldSelectionPage` | InnovateINDIA/src/pages/FieldSelection.jsx:14-20 | redirect to `/` iff the field is unknown; otherwise render the field with one entry per subcategory, numbered from 1, and the subcategory count |
| `FieldSelection.Entries` | InnovateINDIA/src/pages/FieldSelection.jsx:55-63 | one entry per subcategory, in table order, the entry at index `i` numbered `i + 1` |
| `FieldSelection.EntriesNumbered` | InnovateINDIA/src/pages/FieldSelection.jsx:55-63 | the numbers run from 1 up to the count shown, and every subcategory has an entry |
| `FieldSelection.SubcategoryClick` | InnovateINDIA/src/pages/FieldSelection.jsx:22-24 | the click path carries exactly the field id and the subcategory id |
| `FieldSelection.EveryClickRenders` | InnovateINDIA/src/pages/FieldSelection.jsx:22-24 | in a well-formed taxonomy every card's path renders the submission page for that field and subcategory |
| `FieldSelection.FieldSelectionPageAsWritten` | InnovateINDIA/src/pages/FieldSelection.jsx:14-20 | as written, the page throws iff the field id is an inherited object key, and otherwise behaves as `FieldSelectionPage` |
| `FieldSelection.ConstructorRouteCrashes` | InnovateINDIA/src/pages/FieldSelection.jsx:14-20 | on the shipped table, `constructor` crashes both pages as written and is redirected home by the own-key lookup |
| `SeedFacts.TaxonomyShape` | InnovateINDIA/src/data/fields.js:6-93 | six fields under the six keys; `tech` has eight subcategories and every other field has six |
| `SeedFacts.TaxonomyWellFormed` | InnovateINDIA/src/data/fields.js:6-93 | every key is its field's id, ids fill a path segment, and subcategory ids are unique within each field |
| `SeedFacts.IdeaIds` | InnovateINDIA/src/data/fields.js:98-164 | the seed ideas are numbered 1 to 5 in order, so their ids are unique and ascending |
| `SeedFacts.IdeaStatusesAndUpvotes` | InnovateINDIA/src/data/fields.js:98-164 | every seed idea has non-negative upvotes and one of the three known statuses |
| `SeedFacts.SeedDatesDecrease` | InnovateINDIA/src/data/fields.js:98-164 | every seed date parses and they strictly decrease in source order |
| `SeedFacts.IdeasNameTaxonomy` | InnovateINDIA/src/data/fields.js:98-164 | each seed idea's field and subcategory are the display names of a field of the taxonomy and one of its subcategories |
| `FeedSeed.SeedIds` | InnovateINDIA/src/data/fields.js:98-164 | the seed ideas in order have ids 1 to 5 |
| `FeedSeed.SeedByUpvotes` | InnovateINDIA/src/pages/CommunityFeed.jsx:20-38 | sorting the seed ideas by upvotes lists ids 4, 3, 1, 5, 2 |
| `FeedSeed.SeedByDate` | InnovateINDIA/src/pages/CommunityFeed.jsx:20-38 | sorting the seed ideas by date lists ids 1, 2, 3, 4, 5 |
| `FeedSeed.SeedTechnology` | InnovateINDIA/src/pages/CommunityFeed.jsx:20-38 | the field filter `Technology` lists only id 2, whatever the sort key |
| `FeedSeed.SeedWater` | InnovateINDIA/src/pages/CommunityFeed.jsx:20-38 | the search `water` over all fields lists only id 5, whatever the sort key |
| `FeedSeed.NewestFirstUnchanged` | InnovateINDIA/src/pages/CommunityFeed.jsx:31-32 | a list whose dates strictly decrease is left as it is by the date sort |
| `FeedSeed.SeedFieldOptions` | InnovateINDIA/src/pages/CommunityFeed.jsx:17 | the seed filter options are `all`, `Transportation`, `Technology`, `Community Development`, and three fields are covered |
| `FeedSeed.SeedStats` | InnovateINDIA/src/pages/CommunityFeed.jsx:132-150 | the seed figures are 5 ideas, 1 implemented, 2 in development and 3 fields |

## Left out

- Rendering: the JSX markup, Tailwind classes, `Card`, `Button`, `Header`, `Home` and `App`. They hold no logic beyond what is modelled.
- React Router: route matching, `useParams` and `Link`. A page receives its parameters as arguments, and `navigate` is a returned outcome.
- `alert`, `navigate` and `e.preventDefault` are not performed. They become fields of the returned outcome.
- The browser `File` object: an image is represented by its file name. The HTML `required` and `type="email"` constraints are not modelled, since the handler does not rely on them.
- Form events whose `name` is not one of the nine inputs: the source would add a key to `formData`; the model leaves the state unchanged.
- `Text.Lower`: folds ASCII letters only, not the full Unicode case mapping of `toLowerCase`.
- `Text.LocaleCompare`: a code-point lexicographic order on the folded strings, not the locale collation of `localeCompare`. It is still a total preorder, which is all the properties need.
- `Dates.ParseDate`: accepts only `YYYY-MM-DD` and does not reject days past the end of a month. `new Date` accepts many more forms, and what it makes of a day past the end of a month depends on the JavaScript engine. `CommunityFeed.DateDifference` subtracts an order-preserving key (year·512 + month·32 + day), not milliseconds. Only the sign of the difference matches the source, and the sign is all the sort reads.
- `CommunityFeed.EvaluateByDate`: ordering is proved only when every date parses. With an unparsable date the comparator answers 0 for it, and JavaScript gives no order guarantee for such a comparator.
- The comparator's arithmetic does not model floating point: upvote differences are exact integers.
- The back link from the submission page to `/fields/${fieldId}` and the static text of the pages.

## Findings

| source | as written | input that shows it | evidently intended | confidence | as-written member | corrected member |
|---|---|---|---|---|---|---|
| InnovateINDIA/src/pages/FieldSelection.jsx:14-20 and InnovateINDIA/src/pages/IdeaSubmission.jsx:14-17 | `innovationFields[fieldId]` reads inherited `Object.prototype` keys, so `field` is truthy and the unknown-field redirect is skipped. Reading `field.subcategories` then throws a `TypeError`. | `/fields/constructor` or `/submit/constructor/ai-ml` | an identifier that is not a key of the table redirects to `/` | not executed | `FieldSelection.FieldSelectionPageAsWritten`, `IdeaSubmission.SubmissionPageAsWritten`, `FieldSelection.ConstructorRouteCrashes` | `FieldSelection.FieldSelectionPage`, `IdeaSubmission.SubmissionPage` |
