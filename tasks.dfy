/** The task record and the pure effect of each store operation of script.js:
    creating a task (`addTask`), flipping completion (`toggleComplete`),
    removing by id (`confirmDelete`) and the drag-and-drop reorder (`onEnd`). */
module Tasks {
  import opened Text
  import opened Seqs

  datatype Option<T> = None | Some(value: T)

  datatype Priority = High | Medium | Low

  /** One to-do item. `dueDate` and `createdAt` are millisecond timestamps; the
      source keeps them as date strings and converts them with `new Date`. */
  datatype Task = Task(
    id: int,
    text: string,
    dueDate: Option<int>,
    category: string,
    priority: Priority,
    completed: bool,
    createdAt: int)

  /** The one way `addTask` can refuse its input. */
  datatype AddError = BlankText

  datatype Result<T, E> = Success(value: T) | Failure(error: E)

  const DefaultCategory: string := "General"

  /** The task `addTask` builds from the form fields, or `BlankText` when the
      text field holds only white space. `dueInput` is the date field already
      read as a timestamp, `None` when the field is empty; `id` and `now` stand
      for `Date.now()` and the creation time. */
  function NewTask(textInput: string, dueInput: Option<int>, categoryInput: string,
                   priority: Priority, id: int, now: int): (r: Result<Task, AddError>)
    ensures r.Failure? <==> AllSpace(textInput)
    ensures r.Failure? ==> r.error == BlankText
    ensures r.Success? ==>
      && r.value.text == Trim(textInput)
      && r.value.text != [] && Trimmed(r.value.text)
      && r.value.dueDate == dueInput
      && r.value.category == (if AllSpace(categoryInput) then DefaultCategory else Trim(categoryInput))
      && r.value.priority == priority
      && !r.value.completed
      && r.value.id == id && r.value.createdAt == now
  {
    var text := Trim(textInput);
    var trimmedCategory := Trim(categoryInput);
    var category := if trimmedCategory == [] then DefaultCategory else trimmedCategory;
    if text == [] then Failure(BlankText)
    else Success(Task(id, text, dueInput, category, priority, false, now))
  }

  /** A created task's category is never blank. */
  lemma NewTaskCategoryNotBlank(textInput: string, dueInput: Option<int>, categoryInput: string,
                                priority: Priority, id: int, now: int)
    requires NewTask(textInput, dueInput, categoryInput, priority, id, now).Success?
    ensures !AllSpace(NewTask(textInput, dueInput, categoryInput, priority, id, now).value.category)
  {
    var r := NewTask(textInput, dueInput, categoryInput, priority, id, now);
    assert r.value.category == (if AllSpace(categoryInput) then DefaultCategory else Trim(categoryInput));
    CategoryNotBlank(categoryInput);
  }

  /** The category `addTask` stores, `trim() || "General"`, is never blank. */
  lemma CategoryNotBlank(categoryInput: string)
    ensures !AllSpace(if AllSpace(categoryInput) then DefaultCategory else Trim(categoryInput))
  {
    if AllSpace(categoryInput) {
      assert !IsSpace(DefaultCategory[0]);
    } else {
      var c := Trim(categoryInput);
      assert c != [] && !IsSpace(c[0]);
    }
  }

  /** `t` with its completion flipped when its id is `id`. */
  function Flip(t: Task, id: int): (r: Task)
    ensures r.(completed := t.completed) == t
    ensures r.completed <==> (if t.id == id then !t.completed else t.completed)
  {
    if t.id == id then t.(completed := !t.completed) else t
  }

  /** `toggleComplete(id)`: every task with that id has its completion flipped;
      every other task, every other field and the order stay as they were. */
  function Toggled(s: seq<Task>, id: int): (r: seq<Task>)
    ensures |r| == |s|
    ensures forall i :: 0 <= i < |s| ==>
      && r[i].id == s[i].id
      && r[i].(completed := s[i].completed) == s[i]
      && (r[i].completed <==> (if s[i].id == id then !s[i].completed else s[i].completed))
  {
    if s == [] then [] else [Flip(s[0], id)] + Toggled(s[1..], id)
  }

  /** Toggling the same id twice restores the list. */
  lemma {:induction false} ToggledTwice(s: seq<Task>, id: int)
    ensures Toggled(Toggled(s, id), id) == s
  {
    var r := Toggled(Toggled(s, id), id);
    forall i | 0 <= i < |s| ensures r[i] == s[i] {
      var t := Toggled(s, id);
      assert r[i].(completed := t[i].completed) == t[i];
    }
  }

  /** Toggling an id no task has changes nothing. */
  lemma {:induction false} ToggledAbsent(s: seq<Task>, id: int)
    requires forall i :: 0 <= i < |s| ==> s[i].id != id
    ensures Toggled(s, id) == s
  {
    var r := Toggled(s, id);
    forall i | 0 <= i < |s| ensures r[i] == s[i] {
      assert r[i].(completed := s[i].completed) == s[i];
    }
  }

  /** The predicate "does not have id `id`", the callback of `confirmDelete`'s filter. */
  function OtherId(id: int): Task -> bool {
    (t: Task) => t.id != id
  }

  /** `confirmDelete` with `id` pending: the tasks with another id, in their order. */
  function Removed(s: seq<Task>, id: int): (r: seq<Task>)
    ensures forall t: Task :: t in r <==> t in s && t.id != id
    ensures forall t: Task :: t.id != id ==> multiset(r)[t] == multiset(s)[t]
    ensures forall i :: 0 <= i < |r| ==> r[i].id != id
  {
    var r := Filter(s, OtherId(id));
    FilterMultiset(s, OtherId(id));
    forall t ensures t in r <==> t in s && t.id != id {
      FilterMember(s, OtherId(id), t);
    }
    r
  }

  /** Deleting again by the same id changes nothing. */
  lemma RemovedTwice(s: seq<Task>, id: int)
    ensures Removed(Removed(s, id), id) == Removed(s, id)
  {
    FilterIdempotent(s, OtherId(id));
  }

  /** Deletion works element by element and keeps the order of what remains:
      it distributes over concatenation, and it drops a single task exactly
      when that task has the id. */
  lemma RemovedKeepsOrder(a: seq<Task>, b: seq<Task>, t: Task, id: int)
    ensures Removed(a + b, id) == Removed(a, id) + Removed(b, id)
    ensures Removed([t], id) == if t.id == id then [] else [t]
  {
    FilterAppend(a, b, OtherId(id));
    FilterCons(t, [], OtherId(id));
    assert [t] + [] == [t];
  }

  /** Deleting an id no task has changes nothing. */
  lemma RemovedAbsent(s: seq<Task>, id: int)
    requires forall i :: 0 <= i < |s| ==> s[i].id != id
    ensures Removed(s, id) == s
  {
    FilterKeepsAll(s, OtherId(id));
  }

  /** `orderedIds.indexOf(x)`: the first position of `x`, or -1 when it is absent. */
  function IndexOf(ids: seq<int>, x: int): (r: int)
    ensures -1 <= r < |ids|
    ensures r == -1 <==> x !in ids
    ensures 0 <= r ==> ids[r] == x && x !in ids[..r]
  {
    if ids == [] then -1
    else if ids[0] == x then 0
    else
      var k := IndexOf(ids[1..], x);
      assert ids[1..] == ids[1..][..|ids| - 1];
      if k == -1 then -1
      else
        assert ids[..k + 1] == [ids[0]] + ids[1..][..k];
        k + 1
  }

  /** The reorder comparator `indexOf(a.id) - indexOf(b.id)` as a sort key. */
  function ReorderKey(ids: seq<int>): Task -> Key {
    (t: Task) => Key(IndexOf(ids, t.id), 0)
  }

  /** The predicate "id not in `ids`". */
  function Unlisted(ids: seq<int>): Task -> bool {
    (t: Task) => t.id !in ids
  }

  /** `tasks.sort` with the reorder comparator: a stable sort by list position. */
  function Reordered(s: seq<Task>, ids: seq<int>): (r: seq<Task>)
    ensures multiset(r) == multiset(s)
    ensures forall i, j :: 0 <= i < j < |r| ==> IndexOf(ids, r[i].id) <= IndexOf(ids, r[j].id)
  {
    var r := SortBy(s, ReorderKey(ids));
    assert forall i, j :: 0 <= i < j < |r| ==> LessEq(ReorderKey(ids)(r[i]), ReorderKey(ids)(r[j]));
    r
  }

  /** Reordering keeps every task and places the listed tasks in the list's
      order, all unlisted tasks before them, and the unlisted tasks in the order
      they had. */
  lemma ReorderedShape(s: seq<Task>, ids: seq<int>)
    ensures var r := Reordered(s, ids);
      && multiset(r) == multiset(s)
      && (forall i, j :: 0 <= i < j < |r| && r[i].id in ids ==> r[j].id in ids)
      && (forall i, j :: 0 <= i < j < |r| && r[j].id in ids && r[i].id in ids ==>
            IndexOf(ids, r[i].id) < IndexOf(ids, r[j].id) || r[i].id == r[j].id)
      && Filter(r, Unlisted(ids)) == Filter(s, Unlisted(ids))
  {
    var key := ReorderKey(ids);
    var r := Reordered(s, ids);
    SortByStable(s, key, Key(-1, 0));
    forall i | 0 <= i < |r| ensures HasKey(key, Key(-1, 0))(r[i]) == Unlisted(ids)(r[i]) { }
    forall i | 0 <= i < |s| ensures HasKey(key, Key(-1, 0))(s[i]) == Unlisted(ids)(s[i]) { }
    FilterCongruent(r, HasKey(key, Key(-1, 0)), Unlisted(ids));
    FilterCongruent(s, HasKey(key, Key(-1, 0)), Unlisted(ids));
  }

  /** The predicate "has id `id`". */
  function SameId(id: int): Task -> bool {
    (t: Task) => t.id == id
  }

  /** Tasks that share one id keep their relative order, whether or not the id
      is listed. */
  lemma ReorderedSameIdKeepsOrder(s: seq<Task>, ids: seq<int>, x: int)
    ensures Filter(Reordered(s, ids), SameId(x)) == Filter(s, SameId(x))
  {
    var key := ReorderKey(ids);
    var r := Reordered(s, ids);
    if x in ids {
      var k := Key(IndexOf(ids, x), 0);
      SortByStable(s, key, k);
      forall t: Task ensures HasKey(key, k)(t) == SameId(x)(t) {
        if IndexOf(ids, t.id) == IndexOf(ids, x) {
          assert t.id == ids[IndexOf(ids, x)] == x;
        }
      }
      FilterCongruent(r, HasKey(key, k), SameId(x));
      FilterCongruent(s, HasKey(key, k), SameId(x));
    } else {
      ReorderedShape(s, ids);
      FilterThenFilter(r, Unlisted(ids), SameId(x), SameId(x));
      FilterThenFilter(s, Unlisted(ids), SameId(x), SameId(x));
    }
  }

  /** The reorder comparator as written: `indexOf(a.id) - indexOf(b.id)`. */
  function ReorderCompare(ids: seq<int>, a: Task, b: Task): int {
    IndexOf(ids, a.id) - IndexOf(ids, b.id)
  }

  /** Sorting by `ReorderKey` orders two tasks as the comparator does: one key is
      below the other exactly when the comparator is negative, and the keys are
      equal exactly when it is zero. */
  lemma ReorderKeyMatchesComparator(ids: seq<int>, a: Task, b: Task)
    ensures Less(ReorderKey(ids)(a), ReorderKey(ids)(b)) <==> ReorderCompare(ids, a, b) < 0
    ensures ReorderKey(ids)(a) == ReorderKey(ids)(b) <==> ReorderCompare(ids, a, b) == 0
  {
  }

  /** With no ids to go by (the `data-id` attribute the handler reads is never
      set, so its id list is empty) the reorder leaves the list unchanged. */
  lemma ReorderedByNoIds(s: seq<Task>)
    ensures Reordered(s, []) == s
  {
    SortByEqualKeys(s, ReorderKey([]), Key(-1, 0));
  }
}
