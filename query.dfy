/** The list `renderTasks` shows: the tasks that pass the current status tab and
    the search box, sorted by priority and then newest first. The tab, the text
    of the search box and the current time are parameters. */
module Query {
  import opened Text
  import opened Seqs
  import opened Tasks

  /** The `data-filter` value of the selected tab. Any other value behaves as `All`. */
  datatype StatusFilter = All | Active | Completed | Overdue

  /** The status tab's test of one task. */
  predicate PassesStatus(t: Task, f: StatusFilter, now: int) {
    match f
    case Active => !t.completed
    case Completed => t.completed
    case Overdue => !t.completed && t.dueDate.Some? && t.dueDate.value < now
    case All => true
  }

  /** The search box's test: the query occurs in the lower-cased text or category. */
  predicate MatchesSearch(t: Task, query: string) {
    Contains(Lower(t.text), query) || Contains(Lower(t.category), query)
  }

  /** The search box's value as it is compared: lower-cased, then trimmed. */
  function NormalizedQuery(raw: string): (q: string)
    ensures q == [] <==> AllSpace(raw)
  {
    var q := Trim(Lower(raw));
    assert AllSpace(Lower(raw)) <==> AllSpace(raw) by {
      if AllSpace(Lower(raw)) {
        forall i | 0 <= i < |raw| ensures IsSpace(raw[i]) {
          assert IsSpace(Lower(raw)[i]);
        }
      }
    }
    q
  }

  /** Whether the rendered list includes `t` at all. */
  predicate Selected(t: Task, f: StatusFilter, query: string, now: int) {
    PassesStatus(t, f, now) && (query == [] || MatchesSearch(t, query))
  }

  function StatusTest(f: StatusFilter, now: int): Task -> bool {
    (t: Task) => PassesStatus(t, f, now)
  }

  function SearchTest(query: string): Task -> bool {
    (t: Task) => MatchesSearch(t, query)
  }

  function SelectedTest(f: StatusFilter, query: string, now: int): Task -> bool {
    (t: Task) => Selected(t, f, query, now)
  }

  /** `priorityOrder`: high 0, medium 1, low 2. */
  function Rank(p: Priority): (n: nat)
    ensures n <= 2
    ensures (n == 0 <==> p == High) && (n == 2 <==> p == Low)
  {
    match p
    case High => 0
    case Medium => 1
    case Low => 2
  }

  /** The display comparator as a sort key: rank ascending, then `createdAt`
      descending (the comparator subtracts `a.createdAt` from `b.createdAt`). */
  const DisplayKey: Task -> Key := (t: Task) => Key(Rank(t.priority), -t.createdAt)

  /** The display comparator as written: the difference of the priority ranks
      when the priorities differ, and otherwise `b.createdAt - a.createdAt`. */
  function DisplayCompare(a: Task, b: Task): int {
    if a.priority != b.priority then Rank(a.priority) - Rank(b.priority)
    else b.createdAt - a.createdAt
  }

  /** Sorting by `DisplayKey` orders two tasks as the comparator does: one key
      is below the other exactly when the comparator is negative, and the keys
      are equal exactly when it is zero. */
  lemma DisplayKeyMatchesComparator(a: Task, b: Task)
    ensures Less(DisplayKey(a), DisplayKey(b)) <==> DisplayCompare(a, b) < 0
    ensures DisplayKey(a) == DisplayKey(b) <==> DisplayCompare(a, b) == 0
  {
  }

  /** How the tabs relate: every task passes `all`, an overdue task is also
      active, and each task passes exactly one of `active` and `completed`. */
  lemma StatusTabs(t: Task, now: int)
    ensures PassesStatus(t, All, now)
    ensures PassesStatus(t, Overdue, now) ==> PassesStatus(t, Active, now)
    ensures PassesStatus(t, Active, now) != PassesStatus(t, Completed, now)
  {
  }

  /** The status filter, then the search filter when the query is not empty. */
  function Filtered(tasks: seq<Task>, f: StatusFilter, query: string, now: int): seq<Task> {
    var byStatus := Filter(tasks, StatusTest(f, now));
    if query == [] then byStatus else Filter(byStatus, SearchTest(query))
  }

  /** The list `renderTasks` draws, in order. */
  function View(tasks: seq<Task>, f: StatusFilter, rawQuery: string, now: int): (v: seq<Task>)
    ensures multiset(v) == multiset(Filtered(tasks, f, NormalizedQuery(rawQuery), now))
    ensures forall i, j :: 0 <= i < j < |v| ==>
      || Rank(v[i].priority) < Rank(v[j].priority)
      || (v[i].priority == v[j].priority && v[i].createdAt >= v[j].createdAt)
  {
    var v := SortBy(Filtered(tasks, f, NormalizedQuery(rawQuery), now), DisplayKey);
    assert SortedBy(v, DisplayKey);
    DisplayOrder(v);
    v
  }

  lemma DisplayOrder(v: seq<Task>)
    requires SortedBy(v, DisplayKey)
    ensures forall i, j :: 0 <= i < j < |v| ==>
      || Rank(v[i].priority) < Rank(v[j].priority)
      || (v[i].priority == v[j].priority && v[i].createdAt >= v[j].createdAt)
  {
    forall i, j | 0 <= i < j < |v|
      ensures || Rank(v[i].priority) < Rank(v[j].priority)
              || (v[i].priority == v[j].priority && v[i].createdAt >= v[j].createdAt)
    {
      assert LessEq(DisplayKey(v[i]), DisplayKey(v[j]));
    }
  }

  /** The two filters together keep exactly the selected tasks, in their order. */
  lemma FilteredIsSelection(tasks: seq<Task>, f: StatusFilter, query: string, now: int)
    ensures Filtered(tasks, f, query, now) == Filter(tasks, SelectedTest(f, query, now))
  {
    if query == [] {
      FilterCongruent(tasks, StatusTest(f, now), SelectedTest(f, query, now));
    } else {
      FilterThenFilter(tasks, StatusTest(f, now), SearchTest(query), SelectedTest(f, query, now));
    }
  }

  /** The view is a permutation of the selected tasks: each selected task appears
      as often as in the store, and nothing else appears. */
  lemma ViewIsPermutationOfSelection(tasks: seq<Task>, f: StatusFilter, rawQuery: string, now: int)
    ensures var q := NormalizedQuery(rawQuery);
      forall t :: multiset(View(tasks, f, rawQuery, now))[t]
               == if Selected(t, f, q, now) then multiset(tasks)[t] else 0
  {
    FilteredIsSelection(tasks, f, NormalizedQuery(rawQuery), now);
    FilterMultiset(tasks, SelectedTest(f, NormalizedQuery(rawQuery), now));
  }

  /** A task is shown exactly when it is in the store and passes both filters. */
  lemma ViewMembership(tasks: seq<Task>, f: StatusFilter, rawQuery: string, now: int, t: Task)
    ensures t in View(tasks, f, rawQuery, now) <==>
      && t in tasks
      && PassesStatus(t, f, now)
      && (AllSpace(rawQuery) || MatchesSearch(t, NormalizedQuery(rawQuery)))
  {
    ViewIsPermutationOfSelection(tasks, f, rawQuery, now);
    assert t in View(tasks, f, rawQuery, now) <==> t in multiset(View(tasks, f, rawQuery, now));
  }

  /** The overdue tab never shows a completed task or one without a due date, and
      every task it shows is due before `now`. */
  lemma OverdueViewIsOverdue(tasks: seq<Task>, rawQuery: string, now: int)
    ensures forall t :: t in View(tasks, Overdue, rawQuery, now) ==>
      !t.completed && t.dueDate.Some? && t.dueDate.value < now
  {
    forall t | t in View(tasks, Overdue, rawQuery, now)
      ensures !t.completed && t.dueDate.Some? && t.dueDate.value < now
    {
      ViewMembership(tasks, Overdue, rawQuery, now, t);
    }
  }

  /** The active tab shows only open tasks. */
  lemma ActiveViewIsOpen(tasks: seq<Task>, rawQuery: string, now: int)
    ensures forall t :: t in View(tasks, Active, rawQuery, now) ==> !t.completed
  {
    forall t | t in View(tasks, Active, rawQuery, now) ensures !t.completed {
      ViewMembership(tasks, Active, rawQuery, now, t);
    }
  }

  /** The completed tab shows only finished tasks. */
  lemma CompletedViewIsDone(tasks: seq<Task>, rawQuery: string, now: int)
    ensures forall t :: t in View(tasks, Completed, rawQuery, now) ==> t.completed
  {
    forall t | t in View(tasks, Completed, rawQuery, now) ensures t.completed {
      ViewMembership(tasks, Completed, rawQuery, now, t);
    }
  }

  /** With the `all` tab and a blank search box every task is shown, each as often
      as it is stored. */
  lemma AllWithBlankSearchShowsEverything(tasks: seq<Task>, rawQuery: string, now: int)
    requires AllSpace(rawQuery)
    ensures multiset(View(tasks, All, rawQuery, now)) == multiset(tasks)
  {
    forall i | 0 <= i < |tasks| ensures StatusTest(All, now)(tasks[i]) { }
    FilterKeepsAll(tasks, StatusTest(All, now));
  }

  /** A non-blank search shows only tasks whose lower-cased text or category
      contains the normalized query. */
  lemma SearchNarrows(tasks: seq<Task>, f: StatusFilter, rawQuery: string, now: int)
    requires !AllSpace(rawQuery)
    ensures forall t :: t in View(tasks, f, rawQuery, now) ==>
      t in tasks && MatchesSearch(t, NormalizedQuery(rawQuery))
  {
    forall t | t in View(tasks, f, rawQuery, now)
      ensures t in tasks && MatchesSearch(t, NormalizedQuery(rawQuery))
    {
      ViewMembership(tasks, f, rawQuery, now, t);
    }
  }

  /** Tasks that tie on priority and creation time stay in store order. */
  lemma ViewTiesKeepStoreOrder(tasks: seq<Task>, f: StatusFilter, rawQuery: string, now: int,
                               p: Priority, createdAt: int)
    ensures var k := Key(Rank(p), -createdAt);
      Filter(View(tasks, f, rawQuery, now), HasKey(DisplayKey, k))
      == Filter(Filtered(tasks, f, NormalizedQuery(rawQuery), now), HasKey(DisplayKey, k))
  {
    SortByStable(Filtered(tasks, f, NormalizedQuery(rawQuery), now), DisplayKey, Key(Rank(p), -createdAt));
  }
}
