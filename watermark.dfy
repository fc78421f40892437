/** The persisted watermark: the timestamp of the last exported task, kept
    in a small JSON state file (`load_state`, `mark_completed`). The file is
    modelled as an in-memory value that is either absent or holds a state. */
module Watermark {
  import opened Seqs

  /** The value stored under a key other than `date`; the core never looks
      inside it. */
  type Value = string

  /** The state object: `date` plus whatever other keys the file carries. */
  datatype State = State(date: int, extra: map<string, Value>)

  /** The watermark of a store that has never been written. */
  const NoDate: int := -1

  /** Either the store advanced, or `assert new_date > last` failed. */
  datatype Outcome = Ok | AssertionError(newDate: int, last: int)

  /** `load_state`: the stored state, or a state holding only the date -1 when there is
      no file. */
  function LoadState(file: Option<State>): State {
    match file
    case None => State(NoDate, map[])
    case Some(s) => s
  }

  /** One `mark_completed(d)` on a file: the new file and the outcome. */
  function Mark(file: Option<State>, d: int): (Option<State>, Outcome) {
    var s := LoadState(file);
    if d > s.date then (Some(State(d, s.extra)), Ok) else (file, AssertionError(d, s.date))
  }

  /** `mark_completed` for each date in turn; the first failed assertion
      raises, so the dates after it are never marked. */
  function AdvanceAll(file: Option<State>, dates: seq<int>): (Option<State>, Outcome)
    decreases |dates|
  {
    if dates == [] then (file, Ok)
    else
      var (f, r) := Mark(file, dates[0]);
      if r.Ok? then AdvanceAll(f, dates[1..]) else (f, r)
  }

  /** The dates rise strictly, starting above `w`. */
  ghost predicate IncreasingFrom(w: int, dates: seq<int>) {
    (dates != [] ==> w < dates[0]) &&
    (forall i :: 0 < i < |dates| ==> dates[i - 1] < dates[i])
  }

  /** `mark_completed` fails its assertion exactly when the new date does
      not exceed the stored one; on success only `date` changes. */
  lemma MarkSpec(file: Option<State>, d: int)
    ensures var (f, r) := Mark(file, d); var s := LoadState(file);
      (r.Ok? <==> d > s.date) &&
      (r.Ok? ==> f.Some? && f.value.date == d && f.value.extra == s.extra) &&
      (!r.Ok? ==> f == file)
  {
  }

  /** Advancing over a list of dates never trips the assertion if and only
      if the dates rise strictly from the stored watermark. */
  lemma {:induction false} AdvanceOkIff(file: Option<State>, dates: seq<int>)
    ensures AdvanceAll(file, dates).1 == Ok <==> IncreasingFrom(LoadState(file).date, dates)
    decreases |dates|
  {
    if dates != [] {
      var (f, r) := Mark(file, dates[0]);
      if r.Ok? {
        AdvanceOkIff(f, dates[1..]);
        assert LoadState(f).date == dates[0];
        if IncreasingFrom(LoadState(file).date, dates) {
          assert IncreasingFrom(dates[0], dates[1..]) by {
            forall i | 0 < i < |dates[1..]| ensures dates[1..][i - 1] < dates[1..][i] {
              assert dates[1..][i - 1] == dates[i] && dates[1..][i] == dates[i + 1];
            }
          }
        }
        if IncreasingFrom(dates[0], dates[1..]) {
          forall i | 0 < i < |dates| ensures dates[i - 1] < dates[i] {
            if i > 1 {
              assert dates[1..][i - 2] == dates[i - 1] && dates[1..][i - 1] == dates[i];
            }
          }
        }
      }
    }
  }

  /** After a successful advance the watermark is the last date (or is
      unchanged for no dates), and the other keys are untouched. */
  lemma {:induction false} AdvanceEndsAtLast(file: Option<State>, dates: seq<int>)
    requires IncreasingFrom(LoadState(file).date, dates)
    ensures var f := AdvanceAll(file, dates).0;
      LoadState(f).extra == LoadState(file).extra &&
      (dates == [] ==> f == file) &&
      (dates != [] ==> f.Some? && f.value.date == dates[|dates| - 1])
    decreases |dates|
  {
    if dates != [] {
      var (f, r) := Mark(file, dates[0]);
      assert IncreasingFrom(dates[0], dates[1..]) by {
        forall i | 0 < i < |dates[1..]| ensures dates[1..][i - 1] < dates[1..][i] {
          assert dates[1..][i - 1] == dates[i] && dates[1..][i] == dates[i + 1];
        }
      }
      AdvanceEndsAtLast(f, dates[1..]);
    }
  }

  /** The state file. `file` is `None` until the first `mark_completed`. */
  class Store {
    var file: Option<State>

    constructor (file: Option<State>)
      ensures this.file == file
    {
      this.file := file;
    }

    /** `load_state`. */
    function Load(): State
      reads this
    {
      LoadState(file)
    }

    /** `mark_completed`: load, check that the date rises, store it. */
    method MarkCompleted(newDate: int) returns (r: Outcome)
      modifies this
      ensures (file, r) == Mark(old(file), newDate)
      ensures r.Ok? <==> newDate > old(Load()).date
      ensures r.Ok? ==> file == Some(State(newDate, old(Load()).extra))
      ensures !r.Ok? ==> file == old(file)
    {
      var state := Load();
      var last := state.date;
      if !(newDate > last) {
        return AssertionError(newDate, last);
      }
      state := state.(date := newDate);
      file := Some(state);
      r := Ok;
    }
  }
}
