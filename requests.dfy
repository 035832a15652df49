/**
  The requests the page's handlers hand to the task service: a create
  request from the add form, and partial updates from the completion
  checkbox and the edit dialog. Each function returns the request the
  handler would pass to `mutate`, or None when the handler sends nothing.
 */
module Requests {
  import opened Tasks
  import opened Text
  import opened Filtering

  /** The arguments of a create call. */
  datatype CreateRequest = CreateRequest(title: string, priority: Priority, category: Option<string>)

  /** A partial update: a field that is None is absent from the update
      object and left as it is. The category field is itself optional, so
      Some(None) clears the category. */
  datatype TaskUpdates = TaskUpdates(
    completed: Option<bool>,
    title: Option<string>,
    priority: Option<Priority>,
    category: Option<Option<string>>)

  datatype UpdateRequest = UpdateRequest(id: string, updates: TaskUpdates)

  /** A string that is non-empty and neither starts nor ends with
      whitespace: what a trimmed, accepted title looks like. */
  predicate Clean(s: string) {
    s != [] && !IsWhitespace(s[0]) && !IsWhitespace(s[|s| - 1])
  }

  /** `text.trim() || null`: the category a form field stands for. */
  function NormalizeCategory(text: string): (c: Option<string>)
    ensures c == None <==> AllWhitespace(text)
    ensures c.Some? ==> Clean(c.value) && c.value == Trim(text)
  {
    var t := Trim(text);
    if t == "" then None else Some(t)
  }

  /** The create mutation's own normalisation, `category ? category : null`:
      the empty string becomes null. */
  function CreateCallCategory(c: Option<string>): (r: Option<string>)
    ensures r == None <==> c == None || c == Some("")
    ensures r.Some? ==> r == c
  {
    match c
    case Some(s) => if s == "" then None else c
    case None => None
  }

  /** The request the add form sends. A title that is empty or all
      whitespace sends nothing; otherwise the trimmed title, the selected
      priority and the normalised category. */
  function AddRequest(title: string, priority: Priority, category: string): (r: Option<CreateRequest>)
    ensures r.None? <==> AllWhitespace(title)
    ensures r.Some? ==> && Clean(r.value.title) && r.value.title == Trim(title)
                        && r.value.priority == priority
                        && r.value.category == NormalizeCategory(category)
  {
    var t := Trim(title);
    if t == "" then None else Some(CreateRequest(t, priority, NormalizeCategory(category)))
  }

  /** A create request from the add form passes through the create
      mutation's normalisation unchanged. */
  lemma AddRequestSurvivesCreateCall(title: string, priority: Priority, category: string)
    requires AddRequest(title, priority, category).Some?
    ensures var req := AddRequest(title, priority, category).value;
            CreateCallCategory(req.category) == req.category
  {
  }

  /** What the backend does with a partial update: replace exactly the
      fields that are supplied. The id and the creation time are never
      client-writable. */
  function ApplyUpdates(t: Task, u: TaskUpdates): (r: Task)
    ensures r.id == t.id && r.createdAt == t.createdAt
    ensures r.completed == (if u.completed.Some? then u.completed.value else t.completed)
    ensures r.title == (if u.title.Some? then u.title.value else t.title)
    ensures r.priority == (if u.priority.Some? then u.priority.value else t.priority)
    ensures r.category == (if u.category.Some? then u.category.value else t.category)
  {
    Task(
      t.id,
      match u.title case Some(x) => x case None => t.title,
      match u.completed case Some(x) => x case None => t.completed,
      t.createdAt,
      match u.priority case Some(x) => x case None => t.priority,
      match u.category case Some(x) => x case None => t.category)
  }

  /** Sending the same partial update twice leaves the task as sending it
      once does. */
  lemma ApplyUpdatesIdempotent(t: Task, u: TaskUpdates)
    ensures ApplyUpdates(ApplyUpdates(t, u), u) == ApplyUpdates(t, u)
  {
  }

  /** The completion checkbox: an update for `id` whose only field is the
      negated completion flag, so it flips that flag and nothing else. */
  function ToggleRequest(id: string, completed: bool): (r: UpdateRequest)
    ensures r.id == id
    ensures r.updates.title.None? && r.updates.priority.None? && r.updates.category.None?
    ensures r.updates.completed == Some(!completed)
  {
    UpdateRequest(id, TaskUpdates(Some(!completed), None, None, None))
  }

  /** Toggling a task flips its status, so it moves between the "active"
      and "completed" views. A second click on the re-fetched task restores
      it; a second click before the list is re-fetched resends the same
      update, which leaves the task flipped. */
  lemma ToggleTwiceRestores(t: Task)
    ensures var u := ToggleRequest(t.id, t.completed).updates;
            var t1 := ApplyUpdates(t, u);
            && t1 == t.(completed := !t.completed)
            && (StatusMatch(Active, t1) <==> StatusMatch(Completed, t))
            && (StatusMatch(Completed, t1) <==> StatusMatch(Active, t))
            && ApplyUpdates(t1, ToggleRequest(t1.id, t1.completed).updates) == t
            && ApplyUpdates(t1, u) == t1
  {
  }

  /** `task.category || ""`: the text the edit dialog shows for a category. */
  function CategoryText(c: Option<string>): (s: string)
    ensures s == "" <==> c == None || c == Some("")
    ensures c.Some? ==> s == c.value
  {
    match c
    case Some(x) => x
    case None => ""
  }

  /** The request the edit dialog's save button sends: nothing when no task
      is being edited or the title is empty after trimming; otherwise an
      update of the edited task's title, priority and category, never of its
      completion flag. */
  function EditRequest(target: Option<Task>, title: string, priority: Priority, category: string): (r: Option<UpdateRequest>)
    ensures r.Some? <==> target.Some? && !AllWhitespace(title)
    ensures r.Some? ==> && r.value.id == target.value.id
                        && r.value.updates.completed.None?
                        && r.value.updates.title == Some(Trim(title)) && Clean(Trim(title))
                        && r.value.updates.priority == Some(priority)
                        && r.value.updates.category == Some(NormalizeCategory(category))
  {
    match target
    case None => None
    case Some(t) =>
      var trimmed := Trim(title);
      if trimmed == "" then None
      else Some(UpdateRequest(t.id, TaskUpdates(None, Some(trimmed), Some(priority), Some(NormalizeCategory(category)))))
  }

  /** Opening the edit dialog on a task whose title and category are
      already trimmed and saving it untouched sends an update that leaves
      the task exactly as it was. */
  lemma OpenAndSaveIsNoChange(t: Task)
    requires Clean(t.title)
    requires t.category == None || Clean(t.category.value)
    ensures var r := EditRequest(Some(t), t.title, t.priority, CategoryText(t.category));
            r.Some? && r.value.id == t.id && ApplyUpdates(t, r.value.updates) == t
  {
    TrimFixesTrimmed(t.title);
    if t.category.Some? {
      TrimFixesTrimmed(t.category.value);
    }
  }

  /** Opening and saving a task whose category is the empty string clears
      the category: the dialog cannot tell "" from no category. */
  lemma OpenAndSaveClearsEmptyCategory(t: Task)
    requires Clean(t.title) && t.category == Some("")
    ensures var r := EditRequest(Some(t), t.title, t.priority, CategoryText(t.category));
            r.Some? && ApplyUpdates(t, r.value.updates) == t.(category := None)
  {
    TrimFixesTrimmed(t.title);
  }
}
