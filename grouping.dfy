/** From the conversation's messages to the list of tasks (the part of
    `get_tg_tasks` after the fetch): service messages are dropped, the rest
    is grouped by exact timestamp, and the groups are formatted in
    ascending timestamp order. */
module Grouping {
  import opened Seqs
  import opened Messages
  import opened Format

  function IsRegular(m: Message): bool {
    !m.service
  }

  /** The fetched messages without the service messages, in order. */
  function DropService(api: seq<Message>): seq<Message> {
    Filter(api, IsRegular)
  }

  /** The timestamp of every message, in order. */
  function Dates(ms: seq<Message>): (r: seq<int>)
    ensures |r| == |ms|
    ensures forall i :: 0 <= i < |ms| ==> r[i] == ms[i].date
  {
    if ms == [] then [] else [ms[0].date] + Dates(ms[1..])
  }

  function SentAt(date: int): Message -> bool {
    (m: Message) => m.date == date
  }

  /** The messages sent at `date`, in their original order. */
  function OfDate(ms: seq<Message>, date: int): seq<Message> {
    Filter(ms, SentAt(date))
  }

  /** The messages grouped by timestamp, groups sorted by timestamp:
      one group per distinct timestamp, in ascending timestamp order. */
  function GroupByDate(ms: seq<Message>): seq<seq<Message>> {
    var keys := SortedSet(Dates(ms), IntLess);
    seq(|keys|, i requires 0 <= i < |keys| => OfDate(ms, keys[i]))
  }

  /** What the grouping promises: no group is empty, a group's messages all
      carry its timestamp and are all the messages with that timestamp in
      input order, the timestamps strictly ascend, and every message is in
      a group. */
  lemma GroupByDateSpec(ms: seq<Message>)
    ensures var g := GroupByDate(ms);
      (forall i :: 0 <= i < |g| ==> g[i] != [] && g[i] == OfDate(ms, g[i][0].date)) &&
      (forall i, m :: 0 <= i < |g| && m in g[i] ==> m.date == g[i][0].date) &&
      (forall i, j :: 0 <= i < j < |g| ==> g[i][0].date < g[j][0].date) &&
      (forall m :: m in ms ==> exists i :: 0 <= i < |g| && m in g[i])
  {
    var keys: seq<int> := SortedSet(Dates(ms), IntLess);
    var g: seq<seq<Message>> := GroupByDate(ms);
    IntLessIsStrictTotalOrder();
    SortedSetCorrect(Dates(ms), IntLess);
    forall i | 0 <= i < |g|
      ensures g[i] != [] && g[i][0].date == keys[i]
      ensures forall m :: m in g[i] <==> m in ms && m.date == keys[i]
    {
      FilterMembers(ms, SentAt(keys[i]));
      assert keys[i] in Dates(ms);
      var k :| 0 <= k < |ms| && Dates(ms)[k] == keys[i];
      assert ms[k] in g[i];
      HeadIn(g[i]);
    }
    forall m | m in ms ensures exists i :: 0 <= i < |g| && m in g[i] {
      var k :| 0 <= k < |ms| && ms[k] == m;
      assert Dates(ms)[k] == m.date;
      assert m.date in Dates(ms);
      assert m.date in keys;
      var i :| 0 <= i < |keys| && keys[i] == m.date;
      assert m in g[i];
    }
  }

  /** The two facts the task list relies on: no group is empty, and the
      groups' timestamps strictly ascend. */
  lemma GroupsAscend(ms: seq<Message>)
    ensures var g := GroupByDate(ms);
      forall i :: 0 <= i < |g| ==> g[i] != []
    ensures var g := GroupByDate(ms);
      forall i, j :: 0 <= i < j < |g| ==> g[i][0].date < g[j][0].date
  {
    GroupByDateSpec(ms);
  }

  /** Service messages never reach a group. */
  lemma NoServiceInGroups(api: seq<Message>)
    ensures var g := GroupByDate(DropService(api));
      forall i, m :: 0 <= i < |g| && m in g[i] ==> m in api && !m.service
  {
    var ms := DropService(api);
    FilterMembers(api, IsRegular);
    var g := GroupByDate(ms);
    forall i, m | 0 <= i < |g| && m in g[i] ensures m in ms {
      FilterMembers(ms, SentAt(SortedSet(Dates(ms), IntLess)[i]));
    }
  }

  /** Every group formatted, in order. */
  function FormattedAll(groups: seq<seq<Message>>): (tasks: seq<Task>)
    requires forall i :: 0 <= i < |groups| ==> groups[i] != []
    ensures |tasks| == |groups|
  {
    if groups == [] then []
    else FormattedAll(groups[..|groups| - 1]) + [Formatted(groups[|groups| - 1])]
  }

  lemma {:induction false} FormattedAllAt(groups: seq<seq<Message>>, i: nat)
    requires forall i :: 0 <= i < |groups| ==> groups[i] != []
    requires i < |groups|
    ensures FormattedAll(groups)[i] == Formatted(groups[i])
    ensures FormattedAll(groups)[i].date == groups[i][0].date
  {
    if i < |groups| - 1 {
      FormattedAllAt(groups[..|groups| - 1], i);
    }
  }

  /** One more group formatted at the end. */
  lemma FormattedAllSnoc(groups: seq<seq<Message>>, i: nat)
    requires i < |groups|
    requires forall i :: 0 <= i < |groups| ==> groups[i] != []
    ensures FormattedAll(groups[..i + 1]) == FormattedAll(groups[..i]) + [Formatted(groups[i])]
  {
    assert groups[..i + 1][..i] == groups[..i];
  }

  /** The loop of `get_tg_tasks` (lines 123-126): format each group in
      turn. */
  method FormatGroups(groups: seq<seq<Message>>) returns (tasks: seq<Task>)
    requires forall i :: 0 <= i < |groups| ==> groups[i] != []
    ensures tasks == FormattedAll(groups)
  {
    tasks := [];
    for i := 0 to |groups|
      invariant tasks == FormattedAll(groups[..i])
    {
      var task := FormatGroup(groups[i]);
      FormattedAllSnoc(groups, i);
      tasks := tasks + [task];
    }
    assert groups[..|groups|] == groups;
  }

  /** Lines 121-127 of `get_tg_tasks`: drop service messages, group by
      timestamp, format every group in ascending timestamp order. */
  method GetTgTasks(api: seq<Message>) returns (tasks: seq<Task>)
    ensures var groups := GroupByDate(DropService(api));
      (forall i :: 0 <= i < |groups| ==> groups[i] != []) && tasks == FormattedAll(groups)
    ensures forall i, j :: 0 <= i < j < |tasks| ==> tasks[i].date < tasks[j].date
  {
    var messages := DropService(api);
    var grouped := GroupByDate(messages);
    GroupsAscend(messages);
    tasks := FormatGroups(grouped);
    forall i, j | 0 <= i < j < |tasks| ensures tasks[i].date < tasks[j].date {
      FormattedAllAt(grouped, i);
      FormattedAllAt(grouped, j);
    }
  }
}
