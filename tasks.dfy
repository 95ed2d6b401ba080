/**
 * The pure list transforms behind the handlers of the to-do list component:
 * each handler computes a new task list from the old one with `map` or
 * `filter` and hands it to `setTasks`. Ids come from the clock and are not
 * checked for uniqueness, so every transform acts on ALL tasks whose id
 * matches; `UniqueIds` says when there is at most one.
 */
module Tasks {
  import opened Wrappers
  import Seqs

  /** One to-do item `{id, text, completed}`. */
  datatype Task = Task(id: int, text: string, completed: bool)

  /** No two tasks of the list share an id. */
  predicate UniqueIds(ts: seq<Task>) {
    forall i, j :: 0 <= i < |ts| && 0 <= j < |ts| && ts[i].id == ts[j].id ==> i == j
  }

  // ---------------------------------------------------------------- addTask

  /** The list after `addTask` accepts input `text` with the fresh id `now`. */
  function Appended(ts: seq<Task>, now: int, text: string): (r: seq<Task>)
    ensures |r| == |ts| + 1 && r[..|ts|] == ts
    ensures r[|ts|].id == now && r[|ts|].text == text && !r[|ts|].completed
  {
    ts + [Task(now, text, false)]
  }

  /** A fresh id keeps ids unique; an id the list already holds breaks uniqueness. */
  lemma AppendedUniqueIds(ts: seq<Task>, now: int, text: string)
    requires UniqueIds(ts)
    ensures UniqueIds(Appended(ts, now, text)) <==> forall i :: 0 <= i < |ts| ==> ts[i].id != now
  {
  }

  /** A newly added task shows under "Pending" and under "All", and not under "Completed". */
  lemma AppendedVisible(ts: seq<Task>, now: int, text: string)
    ensures Task(now, text, false) in Visible(Appended(ts, now, text), "Pending")
    ensures Task(now, text, false) in Visible(Appended(ts, now, text), "All")
    ensures Task(now, text, false) !in Visible(Appended(ts, now, text), "Completed")
  {
  }

  // --------------------------------------------------------- toggleComplete

  /** The `map` callback of `toggleComplete`. */
  function ToggleIfMatch(t: Task, id: int): (r: Task) {
    if t.id == id then t.(completed := !t.completed) else t
  }

  /** `tasks.map(...)` in `toggleComplete`: same length, order, ids and texts; `completed` flips exactly where the id matches. */
  function Toggled(ts: seq<Task>, id: int): (r: seq<Task>)
    ensures |r| == |ts|
    ensures forall i :: 0 <= i < |ts| ==>
      r[i].id == ts[i].id && r[i].text == ts[i].text && (r[i].completed <==> (ts[i].completed != (ts[i].id == id)))
  {
    if ts == [] then [] else [ToggleIfMatch(ts[0], id)] + Toggled(ts[1..], id)
  }

  /** Toggling the same id twice restores the list. */
  lemma ToggledTwice(ts: seq<Task>, id: int)
    ensures Toggled(Toggled(ts, id), id) == ts
  {
  }

  /** Toggling an id no task has changes nothing. */
  lemma ToggledAbsent(ts: seq<Task>, id: int)
    requires forall i :: 0 <= i < |ts| ==> ts[i].id != id
    ensures Toggled(ts, id) == ts
  {
  }

  lemma ToggledUniqueIds(ts: seq<Task>, id: int)
    ensures UniqueIds(Toggled(ts, id)) <==> UniqueIds(ts)
  {
  }

  // ------------------------------------------------------------- deleteTask

  /** The `filter` callback of `deleteTask`. */
  function KeepOthers(id: int): (p: Task -> bool) {
    (t: Task) => t.id != id
  }

  /** `tasks.filter(...)` in `deleteTask`: exactly the tasks whose id differs from `id`. */
  function Without(ts: seq<Task>, id: int): (r: seq<Task>)
    ensures forall t :: t in r ==> t in ts && t.id != id
    ensures forall i :: 0 <= i < |ts| && ts[i].id != id ==> ts[i] in r
  {
    Seqs.Filter(ts, KeepOthers(id))
  }

  /** Deleting keeps the surviving tasks in their original order, each as often as before. */
  lemma WithoutIsSubsequence(ts: seq<Task>, id: int, t: Task)
    ensures Seqs.IsSubsequence(Without(ts, id), ts)
    ensures multiset(Without(ts, id))[t] == if t.id == id then 0 else multiset(ts)[t]
  {
    Seqs.FilterIsSubsequence(ts, KeepOthers(id));
    Seqs.FilterMultiplicity(ts, KeepOthers(id), t);
  }

  /** Deleting an id no task has changes nothing. */
  lemma WithoutAbsent(ts: seq<Task>, id: int)
    requires forall i :: 0 <= i < |ts| ==> ts[i].id != id
    ensures Without(ts, id) == ts
  {
    Seqs.FilterKeepsAll(ts, KeepOthers(id));
  }

  /** Deleting twice is deleting once. */
  lemma WithoutTwice(ts: seq<Task>, id: int)
    ensures Without(Without(ts, id), id) == Without(ts, id)
  {
    Seqs.FilterIdempotent(ts, KeepOthers(id));
  }

  /** Deleting never introduces a duplicate id. */
  lemma {:induction false} WithoutUniqueIds(ts: seq<Task>, id: int)
    requires UniqueIds(ts)
    ensures UniqueIds(Without(ts, id))
  {
    if ts != [] {
      WithoutUniqueIds(ts[1..], id);
      var rest := Without(ts[1..], id);
      if ts[0].id != id {
        var r := Without(ts, id);
        assert r == [ts[0]] + rest;
        forall j | 0 <= j < |rest| ensures rest[j].id != ts[0].id {
          assert rest[j] in rest;
          var k :| 0 <= k < |ts[1..]| && ts[1..][k] == rest[j];
          assert ts[k + 1] == rest[j];
        }
      }
    }
  }

  // ----------------------------------------------------------- saveEditedTask

  /** The `map` callback of `saveEditedTask`; `editingId` may be null, which matches no task. */
  function RenameIfMatch(t: Task, target: Option<int>, text: string): (r: Task) {
    if target == Some(t.id) then t.(text := text) else t
  }

  /** `tasks.map(...)` in `saveEditedTask`: same length, order, ids and flags; the text is replaced exactly where the id is the edited one. */
  function Renamed(ts: seq<Task>, target: Option<int>, text: string): (r: seq<Task>)
    ensures |r| == |ts|
    ensures forall i :: 0 <= i < |ts| ==>
      r[i].id == ts[i].id && r[i].completed == ts[i].completed
      && r[i].text == (if target == Some(ts[i].id) then text else ts[i].text)
  {
    if ts == [] then [] else [RenameIfMatch(ts[0], target, text)] + Renamed(ts[1..], target, text)
  }

  /** With no cursor, or a cursor on an id no task has, saving changes nothing. */
  lemma RenamedAbsent(ts: seq<Task>, target: Option<int>, text: string)
    requires forall i :: 0 <= i < |ts| ==> target != Some(ts[i].id)
    ensures Renamed(ts, target, text) == ts
  {
  }

  lemma RenamedUniqueIds(ts: seq<Task>, target: Option<int>, text: string)
    ensures UniqueIds(Renamed(ts, target, text)) <==> UniqueIds(ts)
  {
  }

  // ----------------------------------------------------------- filteredTasks

  /** The predicate of `filteredTasks`: any filter other than "Completed" and "Pending" keeps every task. */
  function Matches(filter: string): (p: Task -> bool) {
    (t: Task) => if filter == "Completed" then t.completed
              else if filter == "Pending" then !t.completed
              else true
  }

  /** `filteredTasks`: the tasks the current filter shows. */
  function Visible(ts: seq<Task>, filter: string): (r: seq<Task>)
    ensures forall t :: t in r ==> t in ts
  {
    Seqs.Filter(ts, Matches(filter))
  }

  /** The view is always an order-preserving selection of the list. */
  lemma VisibleIsSubsequence(ts: seq<Task>, filter: string)
    ensures Seqs.IsSubsequence(Visible(ts, filter), ts)
  {
    Seqs.FilterIsSubsequence(ts, Matches(filter));
  }

  /** Under "Completed" the view holds exactly the completed tasks, under "Pending" exactly the others. */
  lemma VisibleExactly(ts: seq<Task>, t: Task)
    ensures multiset(Visible(ts, "Completed"))[t] == if t.completed then multiset(ts)[t] else 0
    ensures multiset(Visible(ts, "Pending"))[t] == if t.completed then 0 else multiset(ts)[t]
  {
    Seqs.FilterMultiplicity(ts, Matches("Completed"), t);
    Seqs.FilterMultiplicity(ts, Matches("Pending"), t);
  }

  /** The "Completed" and "Pending" views are disjoint and together make up the whole list. */
  lemma VisiblePartition(ts: seq<Task>)
    ensures multiset(Visible(ts, "Completed")) + multiset(Visible(ts, "Pending")) == multiset(ts)
    ensures |Visible(ts, "Completed")| + |Visible(ts, "Pending")| == |ts|
    ensures forall t :: t in Visible(ts, "Completed") ==> t !in Visible(ts, "Pending")
  {
    Seqs.FilterPartition(ts, Matches("Completed"), Matches("Pending"));
  }

  /** Every filter value other than "Completed" and "Pending" (including "All") shows the whole list. */
  lemma VisibleOther(ts: seq<Task>, filter: string)
    requires filter != "Completed" && filter != "Pending"
    ensures Visible(ts, filter) == ts
  {
    Seqs.FilterKeepsAll(ts, Matches(filter));
  }

  // ------------------------------------------------------------- toggleTheme

  /** The theme the toggle button switches to: dark from light, light from anything else. */
  function NextTheme(theme: string): (r: string)
    ensures r == "dark" <==> theme == "light"
    ensures r == "light" <==> theme != "light"
  {
    if theme == "light" then "dark" else "light"
  }

  /** Two toggles restore the theme exactly when it is "light" or "dark"; any other stored value becomes "dark". */
  lemma NextThemeTwice(theme: string)
    ensures NextTheme(NextTheme(theme)) == theme <==> theme == "light" || theme == "dark"
    ensures NextTheme(NextTheme(theme)) == "dark" <==> theme != "light"
  {
  }
}
