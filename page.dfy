/**
  The task-list page's local state and its event handlers. Each handler
  that would call `mutate` returns the request it issues instead, or None
  when it issues none.
 */
module Page {
  import opened Tasks
  import opened Text
  import opened Filtering
  import opened Requests

  class IndexPage {
    // The add form.
    var newTask: string
    var taskPriority: Priority
    var taskCategory: string
    // The three filter selectors.
    var filter: StatusFilter
    var priorityFilter: PriorityFilter
    var categoryFilter: string
    // The edit dialog: the task being edited (the dialog is open exactly
    // when there is one) and the dialog's fields.
    var editTask: Option<Task>
    var editTitle: string
    var editPriority: Priority
    var editCategory: string

    /** The page as it first renders: empty forms, medium priority, every
        filter on "all" and the dialog closed. */
    constructor ()
      ensures newTask == "" && taskPriority == Medium && taskCategory == ""
      ensures filter == AllStatuses && priorityFilter == AllPriorities && categoryFilter == AllCategories
      ensures editTask == None && editTitle == "" && editPriority == Medium && editCategory == ""
    {
      newTask, taskPriority, taskCategory := "", Medium, "";
      filter, priorityFilter, categoryFilter := AllStatuses, AllPriorities, AllCategories;
      editTask, editTitle, editPriority, editCategory := None, "", Medium, "";
    }

    /** Submitting the add form. A title that is empty after trimming sends
        nothing and leaves the form as it is. Otherwise the create request
        carries the trimmed title, the selected priority and the normalised
        category, and the title and category fields are cleared while the
        selected priority stays. */
    method HandleAddTask() returns (req: Option<CreateRequest>)
      modifies this`newTask, this`taskCategory
      ensures req == AddRequest(old(newTask), old(taskPriority), old(taskCategory))
      ensures req.None? <==> AllWhitespace(old(newTask))
      ensures req.Some? ==> Clean(req.value.title) && req.value.title == Trim(old(newTask))
      ensures req.None? ==> newTask == old(newTask) && taskCategory == old(taskCategory)
      ensures req.Some? ==> newTask == "" && taskCategory == ""
    {
      var title := Trim(newTask);
      if title == "" {
        return None;
      }
      req := Some(CreateRequest(title, taskPriority, NormalizeCategory(taskCategory)));
      newTask := "";
      taskCategory := "";
    }

    /** Opening the edit dialog on a task prefills its fields from it. */
    method OpenEditDialog(t: Task)
      modifies this`editTask, this`editTitle, this`editPriority, this`editCategory
      ensures editTask == Some(t)
      ensures editTitle == t.title && editPriority == t.priority
      ensures editCategory == CategoryText(t.category)
      ensures t.category.Some? ==> editCategory == t.category.value
      ensures t.category.None? ==> editCategory == ""
    {
      editTask := Some(t);
      editTitle := t.title;
      editPriority := t.priority;
      editCategory := CategoryText(t.category);
    }

    /** Cancelling or dismissing the edit dialog closes it. */
    method CloseEditDialog()
      modifies this`editTask
      ensures editTask == None
    {
      editTask := None;
    }

    /** Saving the edit dialog. With no task being edited nothing happens;
        with a title that is empty after trimming nothing is sent and the
        dialog stays open; otherwise an update of the task's title, priority
        and category is sent and the dialog closes. */
    method HandleUpdateTask() returns (req: Option<UpdateRequest>)
      modifies this`editTask
      ensures req == EditRequest(old(editTask), old(editTitle), old(editPriority), old(editCategory))
      ensures old(editTask).None? ==> req.None? && editTask == None
      ensures old(editTask).Some? && AllWhitespace(old(editTitle)) ==> req.None? && editTask == old(editTask)
      ensures req.Some? ==> && old(editTask).Some? && req.value.id == old(editTask).value.id
                            && req.value.updates.title == Some(Trim(old(editTitle)))
                            && req.value.updates.completed.None?
                            && editTask == None
    {
      req := None;
      if editTask.Some? {
        var trimmedTitle := Trim(editTitle);
        if trimmedTitle == "" {
          return;
        }
        req := Some(UpdateRequest(editTask.value.id,
          TaskUpdates(None, Some(trimmedTitle), Some(editPriority), Some(NormalizeCategory(editCategory)))));
        editTask := None;
      }
    }

    /** The list the page renders under its three selectors. */
    function Displayed(tasks: seq<Task>): (r: seq<Task>)
      reads this
      ensures forall t :: t in r <==> t in tasks && TaskMatches(Selectors(filter, priorityFilter, categoryFilter), t)
    {
      FilteredTasks(tasks, Selectors(filter, priorityFilter, categoryFilter))
    }

    /** Clicking a category option: the empty string falls back to "all",
        and every option the page offers selects itself. */
    method SelectCategoryFilter(category: string)
      modifies this`categoryFilter
      ensures category == "" ==> categoryFilter == AllCategories
      ensures category != "" ==> categoryFilter == category
    {
      categoryFilter := if category == "" then AllCategories else category;
    }
  }
}
