/**
  The page's `filteredTasks`: the task list narrowed by three independent
  selectors (status, priority, category); a task is shown when all three
  accept it.
 */
module Filtering {
  import opened Tasks
  import opened Sequences

  /** The status selector: "all", "active" or "completed". */
  datatype StatusFilter = AllStatuses | Active | Completed

  /** The priority selector: "all" or one tier. */
  datatype PriorityFilter = AllPriorities | PriorityIs(tier: Priority)

  /** The category selector is a plain string; this value switches the
      category axis off. */
  const AllCategories: string := "all"

  /** The three selectors the page holds. */
  datatype Selectors = Selectors(status: StatusFilter, priority: PriorityFilter, category: string)

  predicate StatusMatch(f: StatusFilter, t: Task) {
    match f
    case AllStatuses => true
    case Active => !t.completed
    case Completed => t.completed
  }

  predicate PriorityMatch(f: PriorityFilter, t: Task) {
    match f
    case AllPriorities => true
    case PriorityIs(tier) => t.priority == tier
  }

  /** Strict equality of the task's category with the selector string, so a
      task without a category never matches a concrete selector. */
  predicate CategoryMatch(f: string, t: Task) {
    f == AllCategories || t.category == Some(f)
  }

  predicate TaskMatches(sel: Selectors, t: Task) {
    StatusMatch(sel.status, t) && PriorityMatch(sel.priority, t) && CategoryMatch(sel.category, t)
  }

  /** The selectors as predicates on tasks. */
  function StatusIs(f: StatusFilter): Task -> bool {
    t => StatusMatch(f, t)
  }

  function PriorityMatches(f: PriorityFilter): Task -> bool {
    t => PriorityMatch(f, t)
  }

  function CategoryIs(f: string): Task -> bool {
    t => CategoryMatch(f, t)
  }

  function Matching(sel: Selectors): Task -> bool {
    t => TaskMatches(sel, t)
  }

  /** Each selector, read as the condition it puts on a task: a selector
      other than "all" demands the matching status, the equal priority or
      exactly that category, and the three demands are independent. */
  lemma SelectorConditions(sel: Selectors, t: Task)
    ensures TaskMatches(sel, t) <==>
      && (sel.status == Active ==> !t.completed)
      && (sel.status == Completed ==> t.completed)
      && (sel.priority.PriorityIs? ==> t.priority == sel.priority.tier)
      && (sel.category != AllCategories ==> t.category == Some(sel.category))
  {
  }

  /** The tasks the page displays, in list order: exactly the listed tasks
      that all three selectors accept. */
  function FilteredTasks(tasks: seq<Task>, sel: Selectors): (r: seq<Task>)
    ensures |r| <= |tasks|
    ensures forall t :: t in r <==> t in tasks && TaskMatches(sel, t)
  {
    Filter(tasks, Matching(sel))
  }

  /** The three single-axis filters. */
  function ByStatus(tasks: seq<Task>, f: StatusFilter): seq<Task> {
    Filter(tasks, StatusIs(f))
  }

  function ByPriority(tasks: seq<Task>, f: PriorityFilter): seq<Task> {
    Filter(tasks, PriorityMatches(f))
  }

  function ByCategory(tasks: seq<Task>, f: string): seq<Task> {
    Filter(tasks, CategoryIs(f))
  }

  /** The display is the intersection of the three single-axis results. */
  lemma FilteredTasksIsIntersection(tasks: seq<Task>, sel: Selectors)
    ensures forall t :: t in FilteredTasks(tasks, sel) <==>
      t in ByStatus(tasks, sel.status) && t in ByPriority(tasks, sel.priority) && t in ByCategory(tasks, sel.category)
  {
  }

  /** Applying the three single-axis filters one after another, in any
      order, gives exactly the displayed list. */
  lemma FilteredTasksIsComposition(tasks: seq<Task>, sel: Selectors)
    ensures FilteredTasks(tasks, sel) == ByCategory(ByPriority(ByStatus(tasks, sel.status), sel.priority), sel.category)
    ensures FilteredTasks(tasks, sel) == ByStatus(ByPriority(ByCategory(tasks, sel.category), sel.priority), sel.status)
    ensures FilteredTasks(tasks, sel) == ByPriority(ByCategory(ByStatus(tasks, sel.status), sel.category), sel.priority)
  {
    var s, p, c := StatusIs(sel.status), PriorityMatches(sel.priority), CategoryIs(sel.category);
    FilterConjunction(tasks, s, p);
    FilterConjunction(tasks, Both(s, p), c);
    FilterAgreeing(tasks, Both(Both(s, p), c), Matching(sel));
    FilterConjunction(tasks, c, p);
    FilterConjunction(tasks, Both(c, p), s);
    FilterAgreeing(tasks, Both(Both(c, p), s), Matching(sel));
    FilterConjunction(tasks, s, c);
    FilterConjunction(tasks, Both(s, c), p);
    FilterAgreeing(tasks, Both(Both(s, c), p), Matching(sel));
  }

  /** The displayed list is the order-preserving subsequence of the tasks at
      exactly the positions all three selectors accept. */
  lemma FilteredTasksIsSubsequence(tasks: seq<Task>, sel: Selectors)
    ensures var r, ix := FilteredTasks(tasks, sel), KeptPositions(tasks, Matching(sel));
            && |ix| == |r|
            && (forall k :: 0 <= k < |ix| ==> ix[k] < |tasks| && r[k] == tasks[ix[k]])
            && StrictlyIncreasing(ix)
            && (forall i :: 0 <= i < |tasks| ==> (i in ix <==> TaskMatches(sel, tasks[i])))
  {
    FilterIsSubsequence(tasks, Matching(sel));
  }

  /** With every selector on "all" the whole list is displayed, unchanged. */
  lemma AllSelectorsShowEverything(tasks: seq<Task>)
    ensures FilteredTasks(tasks, Selectors(AllStatuses, AllPriorities, AllCategories)) == tasks
  {
    FilterKeepsAll(tasks, Matching(Selectors(AllStatuses, AllPriorities, AllCategories)));
  }

  /** "active" keeps exactly the open tasks, "completed" exactly the done
      ones, and together they partition the list. */
  lemma StatusFiltersPartition(tasks: seq<Task>)
    ensures forall t :: t in ByStatus(tasks, Active) <==> t in tasks && !t.completed
    ensures forall t :: t in ByStatus(tasks, Completed) <==> t in tasks && t.completed
    ensures multiset(ByStatus(tasks, Active)) + multiset(ByStatus(tasks, Completed)) == multiset(tasks)
    ensures |ByStatus(tasks, Active)| + |ByStatus(tasks, Completed)| == |tasks|
  {
    FilterPartition(tasks, StatusIs(Completed));
    FilterAgreeing(tasks, Not(StatusIs(Completed)), StatusIs(Active));
    assert |multiset(ByStatus(tasks, Active))| + |multiset(ByStatus(tasks, Completed))| == |multiset(tasks)|;
  }

  /** The "all" category selector switches the axis off; any other selector
      keeps exactly the tasks whose category equals it, never one without a
      category. */
  lemma CategoryAxis(tasks: seq<Task>, f: string)
    ensures f == AllCategories ==> ByCategory(tasks, f) == tasks
    ensures f != AllCategories ==> forall t :: t in ByCategory(tasks, f) <==> t in tasks && t.category == Some(f)
    ensures f != AllCategories ==> forall t :: t in ByCategory(tasks, f) ==> t.category != None
  {
    if f == AllCategories {
      FilterKeepsAll(tasks, CategoryIs(f));
    }
  }
}
