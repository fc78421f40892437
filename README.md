# telegram2org, modelled in Dafny

telegram2org turns the messages of one Telegram conversation ("RTM") into
org-mode TODO entries. It works in five steps:

- It drops service messages.
- It groups the rest by their exact sending timestamp.
- It formats each group as a task `(date, title, notes)`. The title starts
  with the senders. The group's texts are added to it, last text first,
  until the title reaches 150 characters; the last text added can take it
  well past 150. The leftover texts and a deep link become the notes.
- It keeps only the tasks newer than a watermark kept in a JSON state file.
  It appends those tasks to an org file.
- Unless `--test` is given, it advances the watermark over those tasks, one
  at a time. The watermark must rise each time (`mark_completed`).

The model has one module per part of the script:

- `Seqs` holds generic sequence helpers. These are Python's `join`, a
  filter, the sorted list of a set's members, and Python's string order.
- `Messages` holds the message entities the core reads: user, chat,
  forward, web page, media and message.
- `Format` models `format_group` and `get_from`.
- `Grouping` models the part of `get_tg_tasks` after the fetch.
- `Watermark` models `load_state` and `mark_completed`. The state file is a
  `Store` object whose `file` field is absent until the first write.
- `Render` models `as_org`.
- `Runner` models `iter_new_tasks` and `main` after the fetch.

Loops in the source are `method`s with loop invariants. Each method is
proved equal to a specification function (`Formatted`, `FormattedAll`,
`NewTasks`, `AdvanceAll`). The properties are proved as lemmas about those
functions.

Three things differ from a plain reading of the script, and the model
follows the code on each:

- The regular-expression substitution in `as_org` replaces each whitespace
  character of the title with one space. Runs of whitespace are not collapsed into one.
- Python's formatting writes an absent first name, last name or web-page
  title as `None`. The model does the same (`Show`).
- The first text of a group always goes into the title, however long the
  label already is. Only the texts after it are subject to the
  150-character test.

## Model

| member | source | states |
|---|---|---|
| Format.SenderLabelIsSortedDistinct | telegram2org.py:32-48 | The sender label is the distinct `get_from` values of the group, in ascending Python string order, joined by ", ". Any strictly sorted list holding exactly those senders joins to the label. |
| Format.OwnGroupLabel | telegram2org.py:45-48 | A group of messages that were not forwarded is labelled "me". |
| Seqs.SortedSetCorrect | telegram2org.py:48 | `sorted(set(...))` returns a strictly ascending list with the same members as its input. |
| Seqs.SortedUnique | telegram2org.py:48 | There is only one strictly ascending list of a given set of members, so the label does not depend on message order. |
| Seqs.StrLessIsStrictTotalOrder | telegram2org.py:48 | Python's string comparison is lexicographic, with a prefix first. It is irreflexive, transitive and total. |
| Format.Link | telegram2org.py:72 | The link is the web-client prefix followed by the whole label. |
| Format.MessageTexts | telegram2org.py:52-70 | Each message contributes its text first, then at most one media placeholder. |
| Format.Texts | telegram2org.py:51-70 | A group of n messages yields between n and 2n texts. |
| Format.TextsWithoutPlaceholders | telegram2org.py:51-70 | Without web-page, photo or document media, the texts are exactly the messages' texts, in order. |
| Format.CollectTexts | telegram2org.py:51-70 | The collecting loop returns `Texts(group)`. |
| Format.MoreStops | telegram2org.py:79-81 | The `while` loop never passes the end of the texts. It stops early only once the title has reached 150 characters. Every title it extends is shorter than 150. |
| Format.ConsumedStops | telegram2org.py:74-81 | The title takes at least one text when there is one. It leaves texts behind only at 150 characters or more. Each earlier title was shorter. |
| Format.ConsumedUnique | telegram2org.py:74-81 | Those stopping conditions determine uniquely how many texts go into the title. |
| Format.BuildSplit | telegram2org.py:74-85 | No text is lost or reordered. A formatted group is `Build` applied to its timestamp, its label and its reversed texts. The texts split into the title (after the label) and the notes (before the link). The split is where the 150-character loop stops: at least one text goes into the title when there is one, and every shorter title was under 150. |
| Format.FillTitle | telegram2org.py:74-81 | The title loop extends the label by exactly the texts `Consumed` counts. It returns the rest untouched and in order. |
| Format.FormattedNotes | telegram2org.py:72-85 | The notes always end with the link. The notes hold more than the link only when the title has at least 150 characters. |
| Format.FormatGroup | telegram2org.py:27-85 | `format_group`, step by step, returns `Formatted(group)` and keeps the group's timestamp. The properties of that value are `BuildSplit` and `FormattedNotes`. |
| Grouping.GroupByDateSpec | telegram2org.py:122-124 | No group is empty. A group holds exactly the messages with its timestamp, in input order. Timestamps ascend strictly across groups. Every message lands in some group. |
| Grouping.GroupsAscend | telegram2org.py:122-124 | The groups are non-empty and come in strictly ascending timestamp order. |
| Grouping.NoServiceInGroups | telegram2org.py:121-122 | Every grouped message is a non-service message of the input. |
| Grouping.FormattedAllAt | telegram2org.py:123-126 | Task i is the formatted group i and carries that group's timestamp. |
| Grouping.FormatGroups | telegram2org.py:123-126 | The loop returns every group formatted, in order. |
| Grouping.GetTgTasks | telegram2org.py:121-127 | The tasks are the formatted timestamp groups of the non-service messages. Their dates ascend strictly. |
| Seqs.FilterMembers | telegram2org.py:121 | A list comprehension with a condition keeps exactly the members that satisfy it. |
| Seqs.FilterOrdered | telegram2org.py:135-142 | Filtering keeps the relative order of the survivors. |
| Watermark.MarkSpec | telegram2org.py:91-108 | `mark_completed` fails its assertion exactly when the new date is not above the stored one (-1 for a missing file). On success only `date` changes. On failure nothing is written. |
| Watermark.Store.MarkCompleted | telegram2org.py:91-108 | The same, on the state object. It loads the state, checks that the date rises, then stores the new date and keeps the other keys. |
| Watermark.AdvanceOkIff | telegram2org.py:197-199 | Marking a list of dates never trips the assertion if and only if the dates rise strictly from the stored watermark. |
| Watermark.AdvanceEndsAtLast | telegram2org.py:197-199 | After a clean advance the watermark is the last date, or unchanged when there are no dates. Other keys are kept. |
| Runner.NewTasksExactly | telegram2org.py:135-142 | `iter_new_tasks` yields exactly the fetched tasks dated strictly after the stored date. |
| Runner.NewTasksIdempotent | telegram2org.py:135-142 | Filtering the new tasks again with the same watermark changes nothing. |
| Runner.NewTasksAscending | telegram2org.py:135-142 | The new tasks keep the ascending date order. |
| Runner.IterNewTasks | telegram2org.py:130-142 | The loop returns `NewTasks(tasks, stored date)`, which are exactly the tasks newer than the watermark. |
| Runner.NewDatesIncrease | telegram2org.py:135-142 | The dates of the new tasks rise strictly, starting above the watermark. |
| Runner.ExportNeverTrips | telegram2org.py:197-199 | Marking the new tasks completed never trips the assertion in `mark_completed`. The watermark ends at the last exported date, and the other keys are kept. |
| Runner.RerunFindsNothing | telegram2org.py:130-142 | Once the watermark is on the last exported date, the same fetch yields no new task. |
| Runner.AdvanceOver | telegram2org.py:197-199 | Under `--test` the state is untouched. Otherwise each date is marked in turn, stopping at the first failed assertion. |
| Runner.Orgs | telegram2org.py:189 | The list of entries has one `as_org` entry per task, in order. |
| Runner.AppendedIsEntries | telegram2org.py:189-190 | The appended text is the entries in order, each followed by a blank line. |
| Runner.Export | telegram2org.py:185-199 | Given ascending tasks: exports the tasks newer than the watermark, in ascending order. Nothing is appended when there are none. The advance never fails. Without `--test` the watermark ends at the last exported date. |
| Runner.Run | telegram2org.py:164-199 | A whole run: the tasks are the formatted groups, and the rest is as for `Export`. |
| Render.Sanitize | telegram2org.py:149 | Each character for which `str.isspace` holds becomes one space. Every other character is kept, and the length is unchanged. |
| Render.SanitizeLeavesOnlySpaces | telegram2org.py:149 | After sanitising, the only whitespace left is the plain space. In particular no line break is left. |
| Render.SanitizeIdempotent | telegram2org.py:149 | Sanitising twice changes nothing more. |
| Render.AsOrgHeading | telegram2org.py:147-161 | An entry opens with its heading line `* TODO <title> <tag>`. The sanitised title cannot break that line. |
| Render.AsOrgEndsWithLastNote | telegram2org.py:155-160 | An entry ends with its last note, on a line of its own. |

## Left out

- The Telegram client is not modelled: connecting, finding the "RTM" dialog and fetching the messages. The messages are an input.
- Reading and writing the JSON state file is not modelled. It is a `Store` object whose file is either absent or holds a state. The write is treated as atomic, as `atomic_write` intends.
- Writing to the org file is not modelled. `Runner.Export` returns the text that would be appended.
- A state file without a `date` key is not modelled. Python raises a `KeyError` there.
- Parsing `argv` is not modelled. `--test` is a boolean parameter.
- The handling of the Telegram "internal issues" error is not modelled, and neither is logging.
- The clock, the Europe/London timezone, `date2org` and `datetime2org` are not modelled. The two formatted stamps are string parameters. The source reads the clock once per entry, while the model uses the same stamps for every entry of a run.
- `int(date.timestamp())` is not modelled: message dates are already whole seconds.
- `group_by_key` is not part of this model. `GroupByDate` states its effect: distinct timestamps in ascending order, each with its messages in input order. The group order within one timestamp is input order, as the source assumes.
- Which Telegram media types count as web page, photo or document is not modelled. The "unknown media" kinds are one `OtherMedia` case, which adds no text.
- The generator in `iter_new_tasks` is modelled as a list, because `get_new_tasks` collects it into one at once.
- `get_from`, `load_state`, `TagText` and `DropService` have no contract of their own. Their behaviour is stated by the lemmas about the sender label, `MarkSpec` and the grouping lemmas.
