# Task-list page logic, modelled in Dafny

This project models the client-side logic of a small task-management web
application. The application's page component holds a list of tasks fetched
from a hosted backend. Each task has an id, a title, a completion flag, a
creation time, a priority (low, medium, high) and an optional free-text
category. The page

- narrows the list with three independent selectors: status
  (all / active / completed), priority (all / one tier) and category (the
  string `"all"` or one exact category);
- offers as category options the distinct non-empty categories of the list,
  in first-occurrence order;
- validates and normalises the add form and the edit dialog with
  JavaScript's `trim()`, and emits create and partial-update requests.

Files, one module each:

- `text.dfy` (`Text`): `trim()` over the ECMAScript whitespace and
  line-terminator code points, computed as the standard's TrimString does:
  the first and the last non-whitespace position, then one substring.
- `tasks.dfy` (`Tasks`): the `Task` record, `Priority` and `Option`.
- `sequences.dfy` (`Sequences`): an order-preserving `Filter` with the
  positions it keeps, and its algebra (conjunction, commutation, partition).
- `filtering.dfy` (`Filtering`): the three selectors and `filteredTasks`.
- `categories.dfy` (`Categories`): `uniqueCategories`.
- `requests.dfy` (`Requests`): the requests the handlers emit, and what a
  partial update does to a task.
- `page.dfy` (`Page`): the page's local state as the class `IndexPage`,
  whose methods are the event handlers.

A handler that calls `mutate` in the application returns the request it
would send, or `None` when it sends nothing. The task list is passed to the
filtering and category functions as a parameter. In the application it is
query-cache data, not local state.

Four behaviours of the code are worth knowing:

- The category options also drop the empty string, not only null, because
  `filter(Boolean)` drops every falsy value.
- The category selector's `"all"` sentinel is an ordinary string. A task
  whose category is literally `"all"` is therefore offered as an option, but
  selecting that option shows every task
  (`Categories.CategoryNamedAllCannotBeSingledOut`).
- The edit dialog shows both a null and an empty category as `""`. Saving
  an untouched task whose category is `""` therefore clears it to null
  (`Requests.OpenAndSaveClearsEmptyCategory`).
- Deleting the last task of the selected category leaves the category
  selector on a category that no longer exists, and every display under it
  is empty (`Categories.StaleCategoryShowsNothing`). Once the list has no
  categories at all, the page hides the whole category bar, including its
  "All" button (src/pages/Index.tsx:315), so the selector cannot be reset
  from the page until some task carries a category again; until then a
  newly added task without a category is not displayed either.
  The rendering is not modelled; the lemma states the empty display.

## Model

| member | source | states |
|---|---|---|
| `Text.Trim` | src/pages/Index.tsx:107-115 | the trimmed string is empty exactly when the input is all whitespace; otherwise it starts and ends with a non-whitespace character |
| `Text.TrimIsSlice` | src/pages/Index.tsx:113 | the trimmed string is the contiguous part of the input between a leading and a trailing run of whitespace |
| `Text.TrimFixesTrimmed` | src/pages/Index.tsx:139 | a string that is empty or neither starts nor ends with whitespace trims to itself |
| `Text.TrimIdempotent` | src/pages/Index.tsx:107-151 | trimming twice is trimming once, so every trimmed title or category the handlers send is a fixed point of trim |
| `Sequences.Filter` | src/pages/Index.tsx:159 | the result is no longer than the input and holds exactly the input's elements that satisfy the predicate |
| `Sequences.FilterIsSubsequence` | src/pages/Index.tsx:159-177 | the result is the input's elements at a strictly increasing list of positions, and these are exactly the positions whose element satisfies the predicate |
| `Sequences.FilterConjunction` | src/pages/Index.tsx:176 | filtering by one predicate and then another is filtering by their conjunction |
| `Sequences.FilterCommutes` | src/pages/Index.tsx:176 | two filters can be applied in either order |
| `Sequences.FilterKeepsAll` | src/pages/Index.tsx:162 | a predicate true of every element keeps the sequence unchanged |
| `Sequences.FilterPartition` | src/pages/Index.tsx:161-164 | a predicate and its negation split the input into two parts whose multisets add up to the input's |
| `Filtering.SelectorConditions` | src/pages/Index.tsx:161-174 | a task is accepted iff "active" finds it open, "completed" finds it done, a priority tier equals its priority and a category other than "all" equals its category, each selector on "all" demanding nothing |
| `Filtering.FilteredTasks` | src/pages/Index.tsx:159-177 | the displayed list is no longer than the list and holds exactly the listed tasks that all three selectors accept |
| `Filtering.FilteredTasksIsIntersection` | src/pages/Index.tsx:159-177 | a task is displayed iff it is in all three single-axis results |
| `Filtering.FilteredTasksIsComposition` | src/pages/Index.tsx:159-177 | the displayed list equals the three single-axis filters applied one after another, in each of three different orders |
| `Filtering.FilteredTasksIsSubsequence` | src/pages/Index.tsx:159-177 | the displayed list is the order-preserving subsequence of the tasks at exactly the positions that all three selectors accept |
| `Filtering.AllSelectorsShowEverything` | src/pages/Index.tsx:162-173 | with all three selectors on "all" the displayed list is the whole list |
| `Filtering.StatusFiltersPartition` | src/pages/Index.tsx:161-164 | "active" keeps exactly the uncompleted tasks and "completed" exactly the completed ones; together they hold every task once |
| `Filtering.CategoryAxis` | src/pages/Index.tsx:172-174 | the "all" selector keeps every task; any other selector keeps exactly the tasks whose category equals it, never a task without a category |
| `Categories.UniqueCategories` | src/pages/Index.tsx:50 | the options have no duplicates, and each is a non-empty category carried by some task |
| `Categories.UniqueCategoriesCover` | src/pages/Index.tsx:50 | every task with a non-empty category contributes that category |
| `Categories.UniqueCategoriesExact` | src/pages/Index.tsx:50 | a string is an option iff it is non-empty and some task carries it |
| `Categories.UniqueCategoriesFirstOccurrenceOrder` | src/pages/Index.tsx:50 | the options are ordered by the position of the first task carrying each |
| `Categories.DeletingLastCarrierDropsOption` | src/pages/Index.tsx:50 | deleting the only task that carries a category removes that category from the options |
| `Categories.OfferedCategoryShowsItsTasks` | src/pages/Index.tsx:326-330 | for an offered category other than "all", the category axis alone keeps a non-empty list of tasks that all carry it, and so does the display when the status and priority selectors are on "all" |
| `Categories.StaleCategoryShowsNothing` | src/pages/Index.tsx:50-177 | a selected category that is not offered (no task carries it) makes the display empty under any status and priority selectors |
| `Categories.CategoryNamedAllCannotBeSingledOut` | src/pages/Index.tsx:172-174 | a category literally named "all" is offered, but selecting it keeps every task |
| `Requests.NormalizeCategory` | src/pages/Index.tsx:115 | the category is null exactly when the field is all whitespace; otherwise it is the trimmed field, non-empty with no surrounding whitespace |
| `Requests.CreateCallCategory` | src/pages/Index.tsx:59 | the create mutation turns null and the empty string into null and passes every other category through |
| `Requests.AddRequest` | src/pages/Index.tsx:104-120 | no request exactly when the title is all whitespace; otherwise the request has the trimmed, non-empty title, the selected priority and the normalised category |
| `Requests.AddRequestSurvivesCreateCall` | src/pages/Index.tsx:54-59 | the create mutation's second normalisation leaves a request from the add form unchanged |
| `Requests.ApplyUpdates` | src/services/taskService.ts:63-74 | a partial update replaces exactly the supplied fields and never the id or the creation time |
| `Requests.ApplyUpdatesIdempotent` | src/services/taskService.ts:63-74 | sending the same partial update twice gives the same task as sending it once |
| `Requests.ToggleRequest` | src/pages/Index.tsx:122-124 | the checkbox's update is for the given id and carries only the negated completion flag |
| `Requests.ToggleTwiceRestores` | src/pages/Index.tsx:122-124 | toggling flips only the completion flag, moves the task between the "active" and "completed" views; a second click on the re-fetched task restores it, while a second click before the re-fetch resends the same update and leaves the task flipped |
| `Requests.CategoryText` | src/pages/Index.tsx:134 | the dialog's category text is empty exactly for a null or empty category, and is the category otherwise |
| `Requests.EditRequest` | src/pages/Index.tsx:137-157 | a request exactly when a task is being edited and the title is not all whitespace; it targets that task's id and sets the trimmed title, the priority and the normalised category, never the completion flag |
| `Requests.OpenAndSaveIsNoChange` | src/pages/Index.tsx:130-157 | opening the dialog on a task with a trimmed title and category and saving it untouched sends an update that leaves the task unchanged |
| `Requests.OpenAndSaveClearsEmptyCategory` | src/pages/Index.tsx:130-157 | opening and saving a task whose category is "" sets its category to null |
| `Page.IndexPage.constructor` | src/pages/Index.tsx:30-39 | the initial state: empty form fields, medium priority, every selector on "all", dialog closed |
| `Page.IndexPage.HandleAddTask` | src/pages/Index.tsx:104-120 | an all-whitespace title sends nothing and leaves title and category as they were; otherwise one request with the trimmed non-empty title, after which title and category are "" and the priority is kept; no other field changes |
| `Page.IndexPage.OpenEditDialog` | src/pages/Index.tsx:130-135 | the dialog targets the task and shows its title, priority and category (or "" when it has none) |
| `Page.IndexPage.CloseEditDialog` | src/pages/Index.tsx:407-453 | dismissing the dialog (`onOpenChange(false)`, line 407) or pressing Cancel (line 453) closes it and nothing else changes |
| `Page.IndexPage.HandleUpdateTask` | src/pages/Index.tsx:137-157 | nothing happens without a target; an all-whitespace title sends nothing and keeps the dialog open; otherwise an update of the target's title, priority and category is sent and the dialog closes |
| `Page.IndexPage.Displayed` | src/pages/Index.tsx:159-177 | the rendered list holds exactly the listed tasks that the page's current three selectors accept |
| `Page.IndexPage.SelectCategoryFilter` | src/pages/Index.tsx:330 | clicking an option selects that category, or "all" for an empty one |

## Left out

- The task service (`src/services/taskService.ts`): every operation forwards
  to the hosted backend, whose behaviour is not visible. This covers listing
  tasks ordered by creation time, the authentication check in `createTask`,
  deletion, and the conversion of timestamps. `Requests.ApplyUpdates` states
  only what a partial update means for the updated task.
- The query cache (`useQuery`, `invalidateQueries`) and the asynchronous
  `mutate` / `onSuccess` / `onError` callbacks: library plumbing. A request
  returned by a handler stands for "mutate was called". Whether a request
  is built from the re-fetched list or from the list rendered before the
  re-fetch is up to the caller; `Requests.ToggleTwiceRestores` covers both
  orders for the checkbox.
- `handleDeleteTask` (src/pages/Index.tsx:126-128): it only forwards the id
  to the delete mutation. Its effect on the category options is stated
  by `Categories.DeletingLastCarrierDropsOption`.
- The plain setters are not modelled as methods, because each is one field
  assignment and the fields of `Page.IndexPage` are public. These are the
  text inputs' `onChange`, the priority selects, the status and priority
  filter buttons, and the category bar's "All" button.
- Toast notifications, `console.error`, `signOut`, the loading and error
  render branches, and the pending-state disabling of buttons: UI side
  effects.
- All JSX rendering and styling, including `PriorityBadge` and
  `CategoryBadge`: presentation only.
- Creation times: the field is kept but never examined, because the backend
  does the ordering.
- `Text.Trim`: JavaScript strings are sequences of UTF-16 code units, while
  Dafny's `char` is a Unicode scalar value. Lone surrogates therefore cannot
  be represented. Trimming is unaffected, because every whitespace code
  point is in the Basic Multilingual Plane.
