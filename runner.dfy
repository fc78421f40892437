/** One run of the exporter: the tasks newer than the watermark are picked
    (`iter_new_tasks`), rendered and appended to the org file, and the
    watermark is advanced over them unless `--test` is given (`main`). */
module Runner {
  import opened Seqs
  import opened Messages
  import opened Format
  import opened Grouping
  import opened Watermark
  import opened Render

  function Earlier(a: Task, b: Task): bool {
    a.date < b.date
  }

  /** Task dates rise strictly, as `get_tg_tasks` returns them. */
  ghost predicate Ascending(tasks: seq<Task>) {
    forall i, j :: 0 <= i < j < |tasks| ==> Earlier(tasks[i], tasks[j])
  }

  /** The test `iter_new_tasks` applies: is the task newer than `w`? */
  function After(w: int): Task -> bool {
    (t: Task) => t.date > w
  }

  /** The tasks strictly newer than watermark `w`, in input order. */
  function NewTasks(tasks: seq<Task>, w: int): seq<Task> {
    Filter(tasks, After(w))
  }

  /** The dates of the tasks, in order. */
  function TaskDates(tasks: seq<Task>): (r: seq<int>)
    ensures |r| == |tasks|
    ensures forall i :: 0 <= i < |tasks| ==> r[i] == tasks[i].date
  {
    if tasks == [] then [] else [tasks[0].date] + TaskDates(tasks[1..])
  }

  /** The filter keeps exactly the tasks dated after the watermark. */
  lemma NewTasksExactly(tasks: seq<Task>, w: int)
    ensures forall t :: t in NewTasks(tasks, w) <==> t in tasks && t.date > w
  {
    FilterMembers(tasks, After(w));
  }

  /** Running the filter again with the same watermark changes nothing. */
  lemma NewTasksIdempotent(tasks: seq<Task>, w: int)
    ensures NewTasks(NewTasks(tasks, w), w) == NewTasks(tasks, w)
  {
    FilterIdempotent(tasks, After(w));
  }

  /** The filter keeps the ascending order. */
  lemma NewTasksAscending(tasks: seq<Task>, w: int)
    requires Ascending(tasks)
    ensures Ascending(NewTasks(tasks, w))
  {
    FilterOrdered(tasks, After(w), Earlier);
  }

  /** `iter_new_tasks`, with the fetched tasks passed in: skip every task
      not newer than the stored date, keep the rest. */
  method IterNewTasks(tasks: seq<Task>, store: Store) returns (newer: seq<Task>)
    ensures newer == NewTasks(tasks, store.Load().date)
    ensures forall t :: t in newer <==> t in tasks && t.date > store.Load().date
  {
    var state := store.Load();
    newer := [];
    for i := 0 to |tasks|
      invariant newer == NewTasks(tasks[..i], state.date)
    {
      var t := tasks[i];
      assert tasks[..i + 1][..i] == tasks[..i];
      if t.date <= state.date {
        continue;
      } else {
        newer := newer + [t];
      }
    }
    assert tasks[..|tasks|] == tasks;
    NewTasksExactly(tasks, state.date);
  }

  /** The dates of the new tasks rise strictly from the watermark. */
  lemma NewDatesIncrease(tasks: seq<Task>, w: int)
    requires Ascending(tasks)
    ensures IncreasingFrom(w, TaskDates(NewTasks(tasks, w)))
  {
    var newer := NewTasks(tasks, w);
    NewTasksAscending(tasks, w);
    if newer != [] {
      NewTasksExactly(tasks, w);
      assert newer[0] in newer;
    }
    var dates := TaskDates(newer);
    forall i | 0 < i < |dates| ensures dates[i - 1] < dates[i] {
      assert Earlier(newer[i - 1], newer[i]);
    }
  }

  /** The exported tasks, filtered from ascending tasks with the stored
      watermark, can always be marked completed in order: the assertion
      in `mark_completed` never fires, the watermark ends at the last
      exported date, and the other keys of the state are kept. */
  lemma ExportNeverTrips(tasks: seq<Task>, file: Option<State>)
    requires Ascending(tasks)
    ensures AdvanceAll(file, TaskDates(NewTasks(tasks, LoadState(file).date))).1 == Ok
    ensures var newer := NewTasks(tasks, LoadState(file).date);
      var f := AdvanceAll(file, TaskDates(newer)).0;
      LoadState(f).extra == LoadState(file).extra &&
      (newer == [] ==> f == file) &&
      (newer != [] ==> f.Some? && f.value.date == newer[|newer| - 1].date)
  {
    var w := LoadState(file).date;
    var dates := TaskDates(NewTasks(tasks, w));
    NewDatesIncrease(tasks, w);
    AdvanceOkIff(file, dates);
    AdvanceEndsAtLast(file, dates);
  }

  /** Once the watermark sits on the last exported date, the same fetch
      yields no new task. */
  lemma RerunFindsNothing(tasks: seq<Task>, w: int)
    requires Ascending(tasks)
    requires NewTasks(tasks, w) != []
    ensures var newer := NewTasks(tasks, w);
      NewTasks(tasks, newer[|newer| - 1].date) == []
  {
    var newer := NewTasks(tasks, w);
    var last := newer[|newer| - 1].date;
    NewTasksExactly(tasks, w);
    NewTasksExactly(tasks, last);
    NewTasksAscending(tasks, w);
    var again := NewTasks(tasks, last);
    if again != [] {
      HeadIn(again);
      assert false;
    }
  }

  /** Lines 197-199 of `main`: unless `--test` is given, mark each exported
      task completed in order; a failed assertion stops the loop. */
  method AdvanceOver(tasks: seq<Task>, store: Store, test: bool) returns (r: Outcome)
    modifies store
    ensures test ==> store.file == old(store.file) && r == Ok
    ensures !test ==> (store.file, r) == AdvanceAll(old(store.file), TaskDates(tasks))
  {
    r := Ok;
    if test {
      return;
    }
    var dates := TaskDates(tasks);
    for i := 0 to |tasks|
      invariant r == Ok
      invariant AdvanceAll(store.file, dates[i..]) == AdvanceAll(old(store.file), dates)
    {
      assert dates[i..][0] == tasks[i].date && dates[i..][1..] == dates[i + 1..];
      r := store.MarkCompleted(tasks[i].date);
      if !r.Ok? {
        return;
      }
    }
    assert dates[|tasks|..] == [];
  }

  /** The org entry of every task, in order. */
  function Orgs(tasks: seq<Task>, tag: Option<string>, date: string, stamp: string): (r: seq<string>)
    ensures |r| == |tasks|
    ensures forall i :: 0 <= i < |tasks| ==> r[i] == AsOrg(tasks[i], tag, date, stamp)
  {
    if tasks == [] then []
    else Orgs(tasks[..|tasks| - 1], tag, date, stamp) + [AsOrg(tasks[|tasks| - 1], tag, date, stamp)]
  }

  /** What one run appends to the org file: the entries with a blank line
      between neighbours, and one more line break pair at the end. */
  function Appended(tasks: seq<Task>, tag: Option<string>, date: string, stamp: string): string {
    Join(Orgs(tasks, tag, date, stamp), "\n\n") + "\n\n"
  }

  /** The appended text is every entry in order, each followed by a blank
      line, so the entries of successive runs stay separated in the org file. */
  lemma AppendedIsEntries(tasks: seq<Task>, tag: Option<string>, date: string, stamp: string)
    requires tasks != []
    ensures Appended(tasks, tag, date, stamp) == Terminated(Orgs(tasks, tag, date, stamp), "\n\n")
  {
    JoinThenSep(Orgs(tasks, tag, date, stamp), "\n\n");
  }

  /** `main` from `get_new_tasks` on, given the fetched tasks: pick the
      new ones, say what is appended to the org file (nothing when there
      is no new task), and advance the watermark unless `test` holds. The
      advance never fails. */
  method Export(tasks: seq<Task>, store: Store, test: bool, tag: Option<string>, date: string, stamp: string)
    returns (exported: seq<Task>, appended: Option<string>, r: Outcome)
    requires Ascending(tasks)
    modifies store
    ensures exported == NewTasks(tasks, old(store.Load()).date)
    ensures Ascending(exported)
    ensures r == Ok
    ensures appended == if exported == [] then None else Some(Appended(exported, tag, date, stamp))
    ensures test || exported == [] ==> store.file == old(store.file)
    ensures !test && exported != [] ==>
      store.file == Some(State(exported[|exported| - 1].date, old(store.Load()).extra))
  {
    exported := IterNewTasks(tasks, store);
    NewTasksAscending(tasks, store.Load().date);
    ExportNeverTrips(tasks, store.file);
    if |exported| == 0 {
      return [], None, Ok;
    }
    appended := Some(Appended(exported, tag, date, stamp));
    r := AdvanceOver(exported, store, test);
  }

  /** A whole run over the conversation's messages `api`. */
  method Run(api: seq<Message>, store: Store, test: bool, tag: Option<string>, date: string, stamp: string)
    returns (tasks: seq<Task>, exported: seq<Task>, appended: Option<string>, r: Outcome)
    modifies store
    ensures var groups := GroupByDate(DropService(api));
      (forall i :: 0 <= i < |groups| ==> groups[i] != []) && tasks == FormattedAll(groups)
    ensures exported == NewTasks(tasks, old(store.Load()).date)
    ensures r == Ok
    ensures appended == if exported == [] then None else Some(Appended(exported, tag, date, stamp))
    ensures test || exported == [] ==> store.file == old(store.file)
    ensures !test && exported != [] ==>
      store.file == Some(State(exported[|exported| - 1].date, old(store.Load()).extra))
  {
    tasks := GetTgTasks(api);
    exported, appended, r := Export(tasks, store, test, tag, date, stamp);
  }
}
