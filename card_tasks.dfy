/** The task card of the Angular package: it keeps the tasks that have both
    a status and a priority, and lets the user drag a row onto another row
    to move it there. */
module CardTasks {
  import opened JsBuiltins

  /** A task as the card sees it. Two tasks are equal exactly when they are
      the same object: `id` stands for the object's identity (and for the
      fields the card never reads), so `indexOf`'s strict equality is
      Dafny's `==` on this datatype. */
  datatype Task = Task(id: int, status: Option<string>, priority: Option<string>)

  /** The card shows a task only when `!!status && !!priority`. */
  predicate Complete(t: Task) {
    Truthy(t.status) && Truthy(t.priority)
  }

  /** `tasks.filter((item) => !!item.status && !!item.priority)`. */
  function CompleteTasks(ts: seq<Task>): (r: seq<Task>)
    ensures |r| <= |ts|
    ensures forall t :: t in r <==> t in ts && Complete(t)
  {
    if ts == [] then []
    else (if Complete(ts[0]) then [ts[0]] else []) + CompleteTasks(ts[1..])
  }

  /** The filter keeps the input order: filtering a concatenation is the
      concatenation of the filtered parts. Together with the one-task case
      this determines `CompleteTasks` uniquely. */
  lemma {:induction false} CompleteTasksAppend(a: seq<Task>, b: seq<Task>)
    ensures CompleteTasks(a + b) == CompleteTasks(a) + CompleteTasks(b)
  {
    if a == [] {
      assert a + b == b;
    } else {
      assert (a + b)[1..] == a[1..] + b;
      CompleteTasksAppend(a[1..], b);
    }
  }

  /** The one-task case of the filter. */
  lemma CompleteTasksSingle(t: Task)
    ensures CompleteTasks([t]) == if Complete(t) then [t] else []
  {
    assert [t][1..] == [];
  }

  /** A list of complete tasks passes the filter unchanged, so filtering
      twice is filtering once. */
  lemma {:induction false} CompleteTasksIdempotent(ts: seq<Task>)
    ensures CompleteTasks(CompleteTasks(ts)) == CompleteTasks(ts)
  {
    if ts != [] {
      var head := if Complete(ts[0]) then [ts[0]] else [];
      CompleteTasksAppend(head, CompleteTasks(ts[1..]));
      CompleteTasksIdempotent(ts[1..]);
      if Complete(ts[0]) {
        CompleteTasksSingle(ts[0]);
      }
    }
  }

  /** The list after a drop: `toIndex` is the position of the row dropped
      onto and `fromIndex` that of the dragged task, both looked up before
      anything moves; then `splice(fromIndex, 1)` and
      `splice(toIndex, 0, item)`. The dragged task is always in the result,
      which has the old length, except that a drop on an empty list leaves
      just the dragged task. */
  function Reorder(s: seq<Task>, item: Task, target: Task): (r: seq<Task>)
    ensures item in r
    ensures |r| == if s == [] then 1 else |s|
  {
    var toIndex := IndexOf(s, target);
    var fromIndex := IndexOf(s, item);
    SpliceInsertOne(SpliceRemoveOne(s, fromIndex), toIndex, item)
  }

  /** A drop of a task that is in the list neither loses nor duplicates a
      task. */
  lemma ReorderPermutes(s: seq<Task>, item: Task, target: Task)
    requires item in s
    ensures |Reorder(s, item, target)| == |s|
    ensures multiset(Reorder(s, item, target)) == multiset(s)
  {
    var fromIndex := IndexOf(s, item);
    var removed := SpliceRemoveOne(s, fromIndex);
    assert multiset(removed) + multiset{item} == multiset(s);
    assert |multiset(Reorder(s, item, target))| == |multiset(s)|;
  }

  /** When both rows are in the list, the dragged task ends up at the
      position the target row had before the move, and every other task
      keeps its relative order. */
  lemma ReorderMovesItem(s: seq<Task>, item: Task, target: Task)
    requires item in s && target in s
    ensures var r := Reorder(s, item, target);
      var toIndex, fromIndex := IndexOf(s, target), IndexOf(s, item);
      && |r| == |s|
      && r[toIndex] == item
      && RemoveAt(r, toIndex) == RemoveAt(s, fromIndex)
  {
    var toIndex, fromIndex := IndexOf(s, target), IndexOf(s, item);
    var removed := SpliceRemoveOne(s, fromIndex);
    assert removed == RemoveAt(s, fromIndex);
    assert RelativeStart(toIndex, |removed|) == toIndex;
  }

  /** Dropping a task onto its own row leaves the list as it was. */
  lemma ReorderSameRow(s: seq<Task>, item: Task, target: Task)
    requires item in s && target in s
    requires IndexOf(s, item) == IndexOf(s, target)
    ensures Reorder(s, item, target) == s
  {
    var k := IndexOf(s, item);
    assert SpliceRemoveOne(s, k) == RemoveAt(s, k);
    PutBack(s, k);
  }

  /** Inserting a removed element back at its own position restores the
      list. */
  lemma PutBack(s: seq<Task>, k: nat)
    requires k < |s|
    ensures SpliceInsertOne(RemoveAt(s, k), k, s[k]) == s
  {
    var removed := RemoveAt(s, k);
    assert s == s[..k] + [s[k]] + s[k + 1..];
    assert removed[..k] == s[..k];
    assert removed[k..] == s[k + 1..];
    assert RelativeStart(k, |removed|) == k;
  }

  /** `[A, B, C]`, drag A onto row C: `[B, C, A]`. */
  lemma ReorderExample(a: Task, b: Task, c: Task)
    requires a != b && b != c && a != c
    ensures Reorder([a, b, c], a, c) == [b, c, a]
  {
    assert [a, b, c][1..] == [b, c];
    assert [b, c][1..] == [c];
    assert IndexOf([c], c) == 0;
    assert IndexOf([b, c], c) == 1;
    assert IndexOf([a, b, c], c) == 2;
    assert IndexOf([a, b, c], a) == 0;
    SpliceRemoveFirst([a, b, c]);
    SpliceInsertAtEnd([b, c], a);
  }

  /** When the dragged task is not in a non-empty list, `indexOf` gives -1
      and `splice(-1, 1)` removes the LAST task: the dragged task takes its
      place and the last task is gone unless it occurs earlier too. */
  lemma ReorderAbsentItem(s: seq<Task>, item: Task, target: Task)
    requires item !in s && s != []
    ensures var r := Reorder(s, item, target);
      && |r| == |s|
      && item in r
      && multiset(r) == multiset(s) - multiset{s[|s| - 1]} + multiset{item}
      && (s[|s| - 1] !in s[..|s| - 1] ==> s[|s| - 1] !in r)
  {
    var last := s[|s| - 1];
    var removed := SpliceRemoveOne(s, -1);
    assert removed == s[..|s| - 1];
    var r := Reorder(s, item, target);
    assert multiset(r) == multiset(removed) + multiset{item};
    assert multiset(removed) == multiset(s) - multiset{last};
    if last !in removed {
      assert multiset(removed)[last] == 0;
      assert last != item;
      assert multiset(r)[last] == 0;
    }
  }

  /** The card component: the tasks it shows and whether it shows the
      loading panel. `currentTasks` is `undefined` until the first change
      notification in the source; here it starts empty. */
  class CardTasksComponent {
    var currentTasks: seq<Task>
    var isLoading: bool

    constructor ()
      ensures isLoading && currentTasks == []
    {
      currentTasks := [];
      isLoading := true;
    }

    /** A change notification. `tasks` is `changes.tasks?.currentValue`:
        `None` when the change carries no tasks (an empty array is still a
        value). */
    method NgOnChanges(tasks: Option<seq<Task>>)
      modifies this
      ensures isLoading <==> tasks.None?
      ensures tasks.None? ==> currentTasks == old(currentTasks)
      ensures tasks.Some? ==> currentTasks == CompleteTasks(tasks.value)
    {
      isLoading := tasks.None?;
      if !isLoading {
        currentTasks := CompleteTasks(tasks.value);
      }
    }

    /** A drop of the row `item` onto the row `target` (the data of the row
        at the drop position). */
    method OnReorder(item: Task, target: Task)
      modifies this
      ensures currentTasks == Reorder(old(currentTasks), item, target)
      ensures isLoading == old(isLoading)
      ensures item in old(currentTasks) ==>
        multiset(currentTasks) == multiset(old(currentTasks))
      ensures item in old(currentTasks) && target in old(currentTasks) ==>
        var toIndex := IndexOf(old(currentTasks), target);
        && currentTasks[toIndex] == item
        && RemoveAt(currentTasks, toIndex) == RemoveAt(old(currentTasks), IndexOf(old(currentTasks), item))
    {
      ghost var before := currentTasks;
      var toIndex := IndexOf(currentTasks, target);
      var fromIndex := IndexOf(currentTasks, item);
      currentTasks := SpliceRemoveOne(currentTasks, fromIndex);
      currentTasks := SpliceInsertOne(currentTasks, toIndex, item);
      if item in before {
        ReorderPermutes(before, item, target);
        if target in before {
          ReorderMovesItem(before, item, target);
        }
      }
    }
  }
}
