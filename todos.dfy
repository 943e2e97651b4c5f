/** The task record and the pure list transformations inside the task-list
    component's event handlers (src/components/TaskManager.tsx): the append
    of addTodo, the map of toggleTodo and saveEdit, the filter of deleteTodo,
    and the values derived from the list on every render (the filtered view
    and the two counters). */
module Todos {
  import Lists

  datatype Option<T> = None | Some(value: T)

  datatype Priority = Low | Medium | High

  /** Which tasks the list shows. */
  datatype Filter = All | Active | Completed

  /** A task. `dueDate` and `priority` are the optional fields of the record;
      the component itself always stores a priority, but a loaded list may
      lack one. */
  datatype Todo = Todo(
    id: string,
    text: string,
    completed: bool,
    createdAt: string,
    dueDate: Option<string>,
    priority: Option<Priority>)

  /** The single task the list starts with when nothing was saved. */
  const Seed: Todo := Todo("1", "Ödev", false, "2025-05-09T14:02:00", None, Some(Medium))

  // ---------------------------------------------------------------------
  // Drafts: the form fields and the task fields they are copied to and from
  // ---------------------------------------------------------------------

  /** `dueDateInput || undefined`: an empty date field means "no due date". */
  function DueDateFromDraft(draft: string): (d: Option<string>)
    ensures d.None? <==> draft == ""
    ensures d.Some? ==> d.value == draft
  {
    if draft == "" then None else Some(draft)
  }

  /** `todo.dueDate || ''`: the date field shows an absent due date as empty. */
  function DraftFromDueDate(d: Option<string>): (draft: string)
    ensures d.Some? ==> draft == d.value
    ensures d.None? ==> draft == ""
  {
    match d
    case None => ""
    case Some(s) => s
  }

  /** `todo.priority || 'medium'`: the priority selector falls back to medium. */
  function DraftFromPriority(p: Option<Priority>): (q: Priority)
    ensures p.Some? ==> q == p.value
    ensures p.None? ==> q == Medium
  {
    match p
    case None => Medium
    case Some(q) => q
  }

  /** Copying a date field into a task and back gives the field again. */
  lemma DraftDueDateRoundTrip(draft: string)
    ensures DraftFromDueDate(DueDateFromDraft(draft)) == draft
  {
  }

  /** Copying a task's due date into the date field and back gives the due date
      again, except for a stored empty date, which comes back absent. */
  lemma DueDateRoundTrip(d: Option<string>)
    ensures DueDateFromDraft(DraftFromDueDate(d)) == d <==> d != Some("")
  {
  }

  /** Copying a task's priority into the selector and back gives the priority
      again exactly when the task had one. */
  lemma PriorityRoundTrip(p: Option<Priority>)
    ensures Some(DraftFromPriority(p)) == p <==> p.Some?
  {
  }

  // ---------------------------------------------------------------------
  // Identifiers
  // ---------------------------------------------------------------------

  /** The number of tasks that carry the identifier id. */
  function Occurrences(ts: seq<Todo>, id: string): (n: nat)
    ensures n <= |ts|
  {
    if ts == [] then 0 else (if ts[0].id == id then 1 else 0) + Occurrences(ts[1..], id)
  }

  /** Some task carries the identifier id. */
  predicate HasId(ts: seq<Todo>, id: string)
  {
    exists i :: 0 <= i < |ts| && ts[i].id == id
  }

  /** No two tasks share an identifier. The component does not enforce this:
      identifiers come from the clock and two adds in the same millisecond
      collide. */
  predicate UniqueIds(ts: seq<Todo>)
  {
    forall i, j :: 0 <= i < j < |ts| ==> ts[i].id != ts[j].id
  }

  lemma {:induction false} OccurrencesZero(ts: seq<Todo>, id: string)
    ensures Occurrences(ts, id) == 0 <==> !HasId(ts, id)
  {
    if ts != [] {
      OccurrencesZero(ts[1..], id);
      if HasId(ts[1..], id) {
        var i :| 0 <= i < |ts[1..]| && ts[1..][i].id == id;
        assert ts[i + 1].id == id;
      }
      if ts[0].id != id && HasId(ts, id) {
        var i :| 0 <= i < |ts| && ts[i].id == id;
        assert ts[1..][i - 1].id == id;
      }
    }
  }

  /** With unique identifiers a present identifier occurs exactly once. */
  lemma {:induction false} OccurrencesUnique(ts: seq<Todo>, id: string)
    requires UniqueIds(ts) && HasId(ts, id)
    ensures Occurrences(ts, id) == 1
  {
    var rest := ts[1..];
    assert UniqueIds(rest) by {
      forall i, j | 0 <= i < j < |rest| ensures rest[i].id != rest[j].id {
        assert rest[i] == ts[i + 1] && rest[j] == ts[j + 1];
      }
    }
    if ts[0].id == id {
      forall i | 0 <= i < |rest| ensures rest[i].id != id {
        assert rest[i] == ts[i + 1];
      }
      OccurrencesZero(rest, id);
    } else {
      var i :| 0 <= i < |ts| && ts[i].id == id;
      assert rest[i - 1].id == id;
      OccurrencesUnique(rest, id);
    }
  }

  // ---------------------------------------------------------------------
  // addTodo
  // ---------------------------------------------------------------------

  /** The record addTodo builds: the text as typed (not trimmed), not
      completed, the draft date if any and the draft priority. */
  function NewTodo(id: string, text: string, createdAt: string, dueDraft: string, p: Priority): (t: Todo)
    ensures t.id == id && t.text == text && !t.completed && t.createdAt == createdAt
    ensures t.dueDate.None? <==> dueDraft == ""
    ensures t.dueDate.Some? ==> t.dueDate.value == dueDraft
    ensures t.priority == Some(p)
  {
    Todo(id, text, false, createdAt, DueDateFromDraft(dueDraft), Some(p))
  }

  /** Appending a task whose identifier is fresh keeps identifiers unique. */
  lemma AddKeepsUniqueIds(ts: seq<Todo>, t: Todo)
    requires UniqueIds(ts) && !HasId(ts, t.id)
    ensures UniqueIds(ts + [t])
  {
    var r := ts + [t];
    forall i, j | 0 <= i < j < |r| ensures r[i].id != r[j].id {
      if j == |ts| {
        assert r[i] == ts[i];
      } else {
        assert r[i] == ts[i] && r[j] == ts[j];
      }
    }
  }

  // ---------------------------------------------------------------------
  // toggleTodo
  // ---------------------------------------------------------------------

  /** The callback of toggleTodo's map. */
  function Toggled(id: string): Todo -> Todo
  {
    (t: Todo) => if t.id == id then t.(completed := !t.completed) else t
  }

  /** toggleTodo's new list: `completed` is flipped on exactly the tasks with
      that identifier; every other field, every other task, the length and
      the order are unchanged. */
  function Toggle(ts: seq<Todo>, id: string): (r: seq<Todo>)
    ensures |r| == |ts|
    ensures forall i :: 0 <= i < |ts| ==>
      r[i].completed == (if ts[i].id == id then !ts[i].completed else ts[i].completed)
    ensures forall i :: 0 <= i < |ts| ==> r[i].(completed := ts[i].completed) == ts[i]
  {
    Lists.Map(ts, Toggled(id))
  }

  /** Toggling twice restores the list. */
  lemma ToggleTwice(ts: seq<Todo>, id: string)
    ensures Toggle(Toggle(ts, id), id) == ts
  {
  }

  /** Toggling an identifier no task carries changes nothing. */
  lemma ToggleAbsent(ts: seq<Todo>, id: string)
    requires !HasId(ts, id)
    ensures Toggle(ts, id) == ts
  {
  }

  /** Toggling keeps identifiers, hence their uniqueness. */
  lemma ToggleKeepsUniqueIds(ts: seq<Todo>, id: string)
    requires UniqueIds(ts)
    ensures UniqueIds(Toggle(ts, id))
  {
  }

  // ---------------------------------------------------------------------
  // deleteTodo
  // ---------------------------------------------------------------------

  /** The callback of deleteTodo's filter. */
  function OtherThan(id: string): Todo -> bool
  {
    (t: Todo) => t.id != id
  }

  lemma {:induction false} FilterOtherThanLength(ts: seq<Todo>, id: string)
    ensures |Lists.Filter(ts, OtherThan(id))| == |ts| - Occurrences(ts, id)
  {
    if ts != [] {
      FilterOtherThanLength(ts[1..], id);
    }
  }

  /** deleteTodo's new list: exactly the tasks without that identifier, in
      their original order. */
  function Delete(ts: seq<Todo>, id: string): (r: seq<Todo>)
    ensures forall i :: 0 <= i < |r| ==> r[i] in ts && r[i].id != id
    ensures forall i :: 0 <= i < |ts| && ts[i].id != id ==> ts[i] in r
    ensures Lists.IsSubsequence(r, ts)
    ensures |r| == |ts| - Occurrences(ts, id)
  {
    Lists.FilterIsSubsequence(ts, OtherThan(id));
    FilterOtherThanLength(ts, id);
    Lists.Filter(ts, OtherThan(id))
  }

  /** Deleting an identifier no task carries leaves the list identical. */
  lemma DeleteAbsent(ts: seq<Todo>, id: string)
    requires !HasId(ts, id)
    ensures Delete(ts, id) == ts
  {
    Lists.FilterKeepsAll(ts, OtherThan(id));
  }

  /** Deleting twice is deleting once. */
  lemma DeleteIdempotent(ts: seq<Todo>, id: string)
    ensures Delete(Delete(ts, id), id) == Delete(ts, id)
  {
    Lists.FilterIdempotent(ts, OtherThan(id));
  }

  /** With unique identifiers, deleting a present identifier removes exactly one task. */
  lemma DeleteRemovesOne(ts: seq<Todo>, id: string)
    requires UniqueIds(ts) && HasId(ts, id)
    ensures |Delete(ts, id)| == |ts| - 1
  {
    OccurrencesUnique(ts, id);
  }

  /** Deleting a just-added task whose identifier was fresh undoes the add. */
  lemma DeleteUndoesAdd(ts: seq<Todo>, t: Todo)
    requires !HasId(ts, t.id)
    ensures Delete(ts + [t], t.id) == ts
  {
    Lists.FilterConcat(ts, [t], OtherThan(t.id));
    Lists.FilterKeepsAll(ts, OtherThan(t.id));
  }

  /** Deleting keeps identifiers unique. */
  lemma {:induction false} DeleteKeepsUniqueIds(ts: seq<Todo>, id: string)
    requires UniqueIds(ts)
    ensures UniqueIds(Delete(ts, id))
  {
    if ts != [] {
      var rest := ts[1..];
      assert UniqueIds(rest) by {
        forall i, j | 0 <= i < j < |rest| ensures rest[i].id != rest[j].id {
          assert rest[i] == ts[i + 1] && rest[j] == ts[j + 1];
        }
      }
      DeleteKeepsUniqueIds(rest, id);
      var tail := Delete(rest, id);
      var r := Delete(ts, id);
      if ts[0].id != id {
        assert r == [ts[0]] + tail;
        forall i, j | 0 <= i < j < |r| ensures r[i].id != r[j].id {
          if i == 0 {
            assert r[j] == tail[j - 1] && tail[j - 1] in rest;
            var m :| 0 <= m < |rest| && rest[m] == tail[j - 1];
            assert ts[m + 1] == r[j];
          } else {
            assert r[i] == tail[i - 1] && r[j] == tail[j - 1];
          }
        }
      } else {
        assert r == tail;
      }
    }
  }

  // ---------------------------------------------------------------------
  // saveEdit
  // ---------------------------------------------------------------------

  /** The callback of saveEdit's map. */
  function Edited(id: string, text: string, dueDate: Option<string>, p: Priority): Todo -> Todo
  {
    (t: Todo) => if t.id == id then t.(text := text, dueDate := dueDate, priority := Some(p)) else t
  }

  /** saveEdit's new list: the tasks with that identifier take the draft text
      (which may be empty), the draft date (absent when the field is empty)
      and the draft priority, and keep identifier, completion and creation
      time; every other task is unchanged. */
  function SaveEdit(ts: seq<Todo>, id: string, text: string, dueDraft: string, p: Priority): (r: seq<Todo>)
    ensures |r| == |ts|
    ensures forall i :: 0 <= i < |ts| && ts[i].id != id ==> r[i] == ts[i]
    ensures forall i :: 0 <= i < |ts| && ts[i].id == id ==>
      && r[i].text == text
      && r[i].dueDate == DueDateFromDraft(dueDraft)
      && r[i].priority == Some(p)
      && r[i].id == ts[i].id
      && r[i].completed == ts[i].completed
      && r[i].createdAt == ts[i].createdAt
  {
    Lists.Map(ts, Edited(id, text, DueDateFromDraft(dueDraft), p))
  }

  /** Saving keeps identifiers, hence their uniqueness. */
  lemma SaveKeepsUniqueIds(ts: seq<Todo>, id: string, text: string, dueDraft: string, p: Priority)
    requires UniqueIds(ts)
    ensures UniqueIds(SaveEdit(ts, id, text, dueDraft, p))
  {
  }

  /** Opening a task for editing and saving without touching the drafts
      leaves the list as it was exactly when the task has a priority and no
      stored empty due date; otherwise the save fills in medium, or drops
      the empty date. */
  lemma SaveUntouchedDrafts(ts: seq<Todo>, k: nat)
    requires UniqueIds(ts) && k < |ts|
    ensures SaveEdit(ts, ts[k].id, ts[k].text, DraftFromDueDate(ts[k].dueDate), DraftFromPriority(ts[k].priority)) == ts
        <==> ts[k].dueDate != Some("") && ts[k].priority.Some?
  {
    var t := ts[k];
    var r := SaveEdit(ts, t.id, t.text, DraftFromDueDate(t.dueDate), DraftFromPriority(t.priority));
    if t.dueDate != Some("") && t.priority.Some? {
      forall i | 0 <= i < |ts| ensures r[i] == ts[i] {
        if ts[i].id == t.id {
          assert i == k;
        }
      }
    } else {
      assert r[k] != ts[k];
    }
  }

  // ---------------------------------------------------------------------
  // Derived values: filteredTodos, completedCount, activeCount
  // ---------------------------------------------------------------------

  /** The callback of the filteredTodos filter. */
  predicate Shows(f: Filter, t: Todo)
  {
    match f
    case Active => !t.completed
    case Completed => t.completed
    case All => true
  }

  function ShownBy(f: Filter): Todo -> bool
  {
    (t: Todo) => Shows(f, t)
  }

  /** filteredTodos: the tasks the current filter shows, as an order-preserving
      subsequence of the list; under `All`, the list itself. */
  function FilteredTodos(ts: seq<Todo>, f: Filter): (r: seq<Todo>)
    ensures Lists.IsSubsequence(r, ts)
    ensures forall i :: 0 <= i < |r| ==> r[i] in ts && Shows(f, r[i])
    ensures forall i :: 0 <= i < |ts| && Shows(f, ts[i]) ==> ts[i] in r
    ensures f == All ==> r == ts
    ensures forall t :: multiset(r)[t] == (if Shows(f, t) then multiset(ts)[t] else 0)
  {
    Lists.FilterIsSubsequence(ts, ShownBy(f));
    ShownMultiplicity(ts, f);
    if f == All then Lists.FilterKeepsAll(ts, ShownBy(f)); Lists.Filter(ts, ShownBy(f))
    else Lists.Filter(ts, ShownBy(f))
  }

  /** Each task the filter shows occurs in the view as often as in the list. */
  lemma ShownMultiplicity(ts: seq<Todo>, f: Filter)
    ensures forall t :: multiset(Lists.Filter(ts, ShownBy(f)))[t] == (if Shows(f, t) then multiset(ts)[t] else 0)
  {
    var shown := Lists.Filter(ts, ShownBy(f));
    var hidden := Lists.Filter(ts, (t: Todo) => !Shows(f, t));
    Lists.FilterPartitionMultiset(ts, ShownBy(f), (t: Todo) => !Shows(f, t));
    forall t ensures multiset(shown)[t] == (if Shows(f, t) then multiset(ts)[t] else 0) {
      if Shows(f, t) {
        assert t !in hidden;
      } else {
        assert t !in shown;
      }
    }
  }

  /** The active and the completed view split the list between them. */
  lemma ViewsPartition(ts: seq<Todo>)
    ensures |FilteredTodos(ts, Active)| + |FilteredTodos(ts, Completed)| == |ts|
  {
    Lists.FilterPartition(ts, ShownBy(Active), ShownBy(Completed));
  }

  /** The callback of completedCount's filter. */
  function IsDone(): Todo -> bool
  {
    (t: Todo) => t.completed
  }

  lemma {:induction false} FilterSameCallback(ts: seq<Todo>, p: Todo -> bool, q: Todo -> bool)
    requires forall t :: p(t) == q(t)
    ensures Lists.Filter(ts, p) == Lists.Filter(ts, q)
  {
    if ts != [] {
      FilterSameCallback(ts[1..], p, q);
    }
  }

  /** completedCount: the number of completed tasks, which is the length of
      the completed view. */
  function CompletedCount(ts: seq<Todo>): (n: nat)
    ensures n <= |ts|
    ensures n == |FilteredTodos(ts, Completed)|
  {
    FilterSameCallback(ts, IsDone(), ShownBy(Completed));
    |Lists.Filter(ts, IsDone())|
  }

  /** activeCount, computed as the total minus the completed count: the number
      of tasks not completed, which is the length of the active view. */
  function ActiveCount(ts: seq<Todo>): (n: nat)
    ensures n == |FilteredTodos(ts, Active)|
  {
    ViewsPartition(ts);
    |ts| - CompletedCount(ts)
  }
}
