/**
  The options of the category filter: the page's `uniqueCategories`, the
  distinct non-empty categories of the current task list.
 */
module Categories {
  import opened Tasks
  import opened Filtering

  /** Some task of the list carries the category `c`. */
  predicate Carries(tasks: seq<Task>, c: string) {
    exists i :: 0 <= i < |tasks| && tasks[i].category == Some(c)
  }

  predicate NoDuplicates(s: seq<string>) {
    forall i, j :: 0 <= i < j < |s| ==> s[i] != s[j]
  }

  /** Mapping each task to its category, dropping the falsy ones (null and
      the empty string) and collecting the rest into an insertion-ordered
      set, in one pass: a category is appended the first time it is met.
      Written from the back, like a pass that has reached the last task. */
  function UniqueCategories(tasks: seq<Task>): (r: seq<string>)
    ensures NoDuplicates(r)
    ensures forall c :: c in r ==> c != "" && Carries(tasks, c)
  {
    if tasks == [] then []
    else
      var n := |tasks| - 1;
      var init := UniqueCategories(tasks[..n]);
      assert forall c :: Carries(tasks[..n], c) ==> Carries(tasks, c) by {
        forall c | Carries(tasks[..n], c) ensures Carries(tasks, c) {
          var i :| 0 <= i < n && tasks[..n][i].category == Some(c);
          assert tasks[i] == tasks[..n][i];
        }
      }
      match tasks[n].category
      case Some(c) =>
        if c != "" && c !in init then
          assert tasks[n].category == Some(c);
          init + [c]
        else init
      case None => init
  }

  /** Every task with a non-empty category contributes it to the options. */
  lemma {:induction false} UniqueCategoriesCover(tasks: seq<Task>)
    ensures forall i :: 0 <= i < |tasks| && tasks[i].category.Some? && tasks[i].category.value != "" ==>
      tasks[i].category.value in UniqueCategories(tasks)
  {
    if tasks != [] {
      var n := |tasks| - 1;
      UniqueCategoriesCover(tasks[..n]);
      forall i | 0 <= i < n && tasks[i].category.Some? && tasks[i].category.value != ""
        ensures tasks[i].category.value in UniqueCategories(tasks)
      {
        assert tasks[..n][i] == tasks[i];
      }
    }
  }

  /** The options are exactly the non-empty categories some task carries. */
  lemma UniqueCategoriesExact(tasks: seq<Task>)
    ensures forall c :: c in UniqueCategories(tasks) <==> c != "" && Carries(tasks, c)
  {
    UniqueCategoriesCover(tasks);
  }

  /** The position of the first task that carries `c`. */
  function FirstCarrier(tasks: seq<Task>, c: string): (i: nat)
    requires Carries(tasks, c)
    ensures i < |tasks| && tasks[i].category == Some(c)
    ensures forall j :: 0 <= j < i ==> tasks[j].category != Some(c)
  {
    if tasks[0].category == Some(c) then 0
    else
      assert Carries(tasks[1..], c) by {
        var i :| 0 <= i < |tasks| && tasks[i].category == Some(c);
        assert tasks[1..][i - 1] == tasks[i];
      }
      1 + FirstCarrier(tasks[1..], c)
  }

  /** Every element of `r` is carried by some task, and the elements of `r`
      come in the order of their first carriers. */
  predicate InFirstOccurrenceOrder(tasks: seq<Task>, r: seq<string>) {
    && (forall c :: c in r ==> Carries(tasks, c))
    && (forall k, l :: 0 <= k < l < |r| ==> FirstCarrier(tasks, r[k]) < FirstCarrier(tasks, r[l]))
  }

  /** The options come in the order in which their categories first occur in
      the list. */
  lemma {:induction false} UniqueCategoriesFirstOccurrenceOrder(tasks: seq<Task>)
    ensures InFirstOccurrenceOrder(tasks, UniqueCategories(tasks))
  {
    if tasks != [] {
      var n := |tasks| - 1;
      var init := UniqueCategories(tasks[..n]);
      var r := UniqueCategories(tasks);
      UniqueCategoriesFirstOccurrenceOrder(tasks[..n]);
      assert InFirstOccurrenceOrder(tasks[..n], init);
      forall c | c in init ensures FirstCarrier(tasks, c) == FirstCarrier(tasks[..n], c) {
        FirstCarrierOfPrefix(tasks, n, c);
      }
      if r != init {
        var c := tasks[n].category.value;
        assert r == init + [c] && c !in init;
        UniqueCategoriesExact(tasks[..n]);
        assert !Carries(tasks[..n], c);
        assert FirstCarrier(tasks, c) == n;
        forall k, l | 0 <= k < l < |r| ensures FirstCarrier(tasks, r[k]) < FirstCarrier(tasks, r[l]) {
          assert init[k] in init;
          if l < |init| {
            assert r[k] == init[k] && r[l] == init[l] && init[l] in init;
          } else {
            assert r[k] == init[k] && r[l] == c;
            assert FirstCarrier(tasks, r[k]) == FirstCarrier(tasks[..n], init[k]) < |tasks[..n]|;
          }
        }
      }
    }
  }

  /** The first carrier of a category that occurs in a prefix is found in
      that prefix. */
  lemma FirstCarrierOfPrefix(tasks: seq<Task>, n: nat, c: string)
    requires n <= |tasks| && Carries(tasks[..n], c)
    ensures Carries(tasks, c) && FirstCarrier(tasks, c) == FirstCarrier(tasks[..n], c)
  {
    var i0 := FirstCarrier(tasks[..n], c);
    assert tasks[i0] == tasks[..n][i0];
  }

  /** Deleting the only task that carries a non-empty category removes that
      category from the options it was part of. */
  lemma DeletingLastCarrierDropsOption(tasks: seq<Task>, k: nat, c: string)
    requires k < |tasks| && tasks[k].category == Some(c)
    requires forall j :: 0 <= j < |tasks| && j != k ==> tasks[j].category != Some(c)
    ensures c in UniqueCategories(tasks) <==> c != ""
    ensures c !in UniqueCategories(tasks[..k] + tasks[k + 1..])
  {
    var rest := tasks[..k] + tasks[k + 1..];
    UniqueCategoriesExact(tasks);
    UniqueCategoriesExact(rest);
    assert !Carries(rest, c);
  }

  /** Selecting an offered category (other than one literally named "all")
      while the status and priority selectors are on "all" shows a non-empty
      list made only of tasks in that category. */
  lemma OfferedCategoryShowsItsTasks(tasks: seq<Task>, c: string)
    requires c in UniqueCategories(tasks) && c != AllCategories
    ensures ByCategory(tasks, c) != []
    ensures forall t :: t in ByCategory(tasks, c) ==> t.category == Some(c)
    ensures FilteredTasks(tasks, Selectors(AllStatuses, AllPriorities, c)) != []
  {
    var i :| 0 <= i < |tasks| && tasks[i].category == Some(c);
    assert CategoryIs(c)(tasks[i]);
    assert TaskMatches(Selectors(AllStatuses, AllPriorities, c), tasks[i]);
  }

  /** A selected category that no task carries any more (its last carrier
      was deleted) is no longer offered, and every display under it is
      empty, whatever the other two selectors say. */
  lemma StaleCategoryShowsNothing(tasks: seq<Task>, sel: Selectors)
    requires sel.category != AllCategories && sel.category != ""
    requires sel.category !in UniqueCategories(tasks)
    ensures FilteredTasks(tasks, sel) == []
  {
    UniqueCategoriesExact(tasks);
  }

  /** The category selector's "all" sentinel is an ordinary string, so a
      category literally named "all" is offered as an option, yet selecting
      it shows every task rather than the tasks in that category. */
  lemma CategoryNamedAllCannotBeSingledOut(tasks: seq<Task>, k: nat)
    requires k < |tasks| && tasks[k].category == Some(AllCategories)
    ensures AllCategories in UniqueCategories(tasks)
    ensures ByCategory(tasks, AllCategories) == tasks
  {
    UniqueCategoriesCover(tasks);
    CategoryAxis(tasks, AllCategories);
  }
}
