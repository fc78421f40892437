/** Turning one group of same-timestamp messages into a task: a sender
    label, a title filled up to 150 characters from the group's texts, and
    the remaining texts followed by a deep link as notes (`format_group`). */
module Format {
  import opened Seqs
  import opened Messages

  /** The title stops growing once it is at least this long. */
  const TitleLimit: nat := 150

  const LinkPrefix: string := "https://web.telegram.org/#/im?p=@"

  /** A formatted group: its timestamp, a title and the notes below it. */
  datatype Task = Task(date: int, title: string, notes: seq<string>)

  // ---- the sender label ----

  /** `get_from`: who a message is from. */
  function GetFrom(m: Message): string {
    match m.forward
    case None => "me"
    case Some(fw) =>
      match fw.sender
      case None =>
        (match fw.chat
         case Some(c) => c.title
         case None => "ERROR UNKNOWN SENDER")
      case Some(u) =>
        match u.username
        case Some(name) => name
        case None => Show(u.firstName) + " " + Show(u.lastName)
  }

  /** `get_from` of every message, in group order, duplicates included. */
  function Senders(group: seq<Message>): (r: seq<string>)
    ensures |r| == |group|
    ensures forall i :: 0 <= i < |group| ==> r[i] == GetFrom(group[i])
  {
    if group == [] then [] else [GetFrom(group[0])] + Senders(group[1..])
  }

  /** The sender label: the distinct senders of the group, in ascending
      string order, joined by ", ". */
  function SenderLabel(group: seq<Message>): string {
    Join(SortedSet(Senders(group), StrLess), ", ")
  }

  /** The label is the distinct senders, in Python's string order, joined
      by ", ": any strictly ascending list holding exactly the senders of
      the group joins to the label. */
  lemma SenderLabelIsSortedDistinct(group: seq<Message>, names: seq<string>)
    requires StrictlySorted(names, StrLess)
    requires forall n :: n in names <==> exists m :: m in group && GetFrom(m) == n
    ensures SenderLabel(group) == Join(names, ", ")
  {
    StrLessIsStrictTotalOrder();
    var sorted := SortedSet(Senders(group), StrLess);
    SortedSetCorrect(Senders(group), StrLess);
    forall n ensures n in sorted <==> n in names {
      if n in names {
        var m :| m in group && GetFrom(m) == n;
        var i :| 0 <= i < |group| && group[i] == m;
        assert Senders(group)[i] == n;
      }
      if n in sorted {
        var i :| 0 <= i < |group| && Senders(group)[i] == n;
        assert group[i] in group;
      }
    }
    SortedUnique(sorted, names, StrLess);
  }

  /** A group the owner wrote alone is labelled "me". */
  lemma OwnGroupLabel(group: seq<Message>)
    requires group != []
    requires forall m :: m in group ==> m.forward == None
    ensures SenderLabel(group) == "me"
  {
    assert group[0] in group;
    SenderLabelIsSortedDistinct(group, ["me"]);
  }

  /** The deep link appended as the last note. */
  function Link(from: string): (r: string)
    ensures |r| == |LinkPrefix| + |from|
    ensures r[..|LinkPrefix|] == LinkPrefix && r[|LinkPrefix|..] == from
  {
    LinkPrefix + from
  }

  // ---- the texts of a group ----

  /** The text standing for a web-page preview. */
  function PageText(p: WebPage): string {
    match p
    case EmptyPage => "*empty web page*"
    case Page(url, title) => url + " " + Show(title)
  }

  /** The placeholder a media attachment contributes, if any. */
  function Placeholder(media: Media): seq<string> {
    match media
    case NoMedia => []
    case WebPageMedia(p) => [PageText(p)]
    case Photo => ["*PHOTO*"]
    case Document => ["*DOCUMENT*"]
    case OtherMedia => []
  }

  /** What one message contributes: its text, then its placeholder. */
  function MessageTexts(m: Message): (r: seq<string>)
    ensures 1 <= |r| <= 2 && r[0] == m.text
  {
    [m.text] + Placeholder(m.media)
  }

  /** The texts of a group, in message order. */
  function Texts(group: seq<Message>): (r: seq<string>)
    ensures |group| <= |r| <= 2 * |group|
  {
    if group == [] then []
    else Texts(group[..|group| - 1]) + MessageTexts(group[|group| - 1])
  }

  /** Without placeholders, the texts are exactly the messages' texts. */
  lemma {:induction false} TextsWithoutPlaceholders(group: seq<Message>)
    requires forall i :: 0 <= i < |group| ==> group[i].media in {NoMedia, OtherMedia}
    ensures Texts(group) == seq(|group|, i requires 0 <= i < |group| => group[i].text)
  {
    if group != [] {
      TextsWithoutPlaceholders(group[..|group| - 1]);
    }
  }

  // ---- the title ----

  /** The title `from` (the label) extended by `" " + item` for each item, in order. */
  function Extend(from: string, items: seq<string>): (r: string)
    ensures |r| >= |from| + |items|
  {
    if items == [] then from
    else Extend(from, items[..|items| - 1]) + " " + items[|items| - 1]
  }

  /** How many more items the `while` loop moves into `title`. */
  function More(title: string, rest: seq<string>): (m: nat)
    ensures m <= |rest|
    decreases |rest|
  {
    if rest == [] || |title| >= TitleLimit then 0
    else 1 + More(title + " " + rest[0], rest[1..])
  }

  /** How many of the reversed texts end up in the title: the first one
      unconditionally, then as many as the loop takes. */
  function Consumed(from: string, r: seq<string>): (k: nat)
    ensures k <= |r| && (r != [] ==> k >= 1)
  {
    if r == [] then 0 else 1 + More(from + " " + r[0], r[1..])
  }

  lemma {:induction false} MoreStops(from: string, r: seq<string>, j: nat)
    requires 1 <= j <= |r|
    ensures var m := More(Extend(from, r[..j]), r[j..]);
      j + m <= |r| &&
      (j + m < |r| ==> |Extend(from, r[..j + m])| >= TitleLimit) &&
      (forall i :: j <= i < j + m ==> |Extend(from, r[..i])| < TitleLimit)
    decreases |r| - j
  {
    var t := Extend(from, r[..j]);
    if j < |r| && |t| < TitleLimit {
      assert r[..j + 1][..j] == r[..j];
      assert Extend(from, r[..j + 1]) == t + " " + r[j];
      assert r[j..][1..] == r[j + 1..];
      MoreStops(from, r, j + 1);
    }
  }

  /** The loop's stopping condition: the title takes at least one text when
      there is one, every shorter title was under the limit, and the loop
      only leaves texts behind once the title has reached the limit. */
  lemma ConsumedStops(from: string, r: seq<string>)
    ensures var k := Consumed(from, r);
      k <= |r| &&
      (r != [] ==> k >= 1) &&
      (k < |r| ==> |Extend(from, r[..k])| >= TitleLimit) &&
      (forall j :: 1 <= j < k ==> |Extend(from, r[..j])| < TitleLimit)
  {
    if r != [] {
      assert r[..1][..0] == [];
      assert Extend(from, r[..1]) == from + " " + r[0];
      MoreStops(from, r, 1);
    }
  }

  /** Those conditions pin the number of consumed texts down. */
  lemma ConsumedUnique(from: string, r: seq<string>, k: nat)
    requires k <= |r|
    requires r != [] ==> k >= 1
    requires k < |r| ==> |Extend(from, r[..k])| >= TitleLimit
    requires forall j :: 1 <= j < k ==> |Extend(from, r[..j])| < TitleLimit
    ensures k == Consumed(from, r)
  {
    ConsumedStops(from, r);
  }

  // ---- the whole group ----

  /** The task built from a timestamp, a label and the reversed texts:
      the title takes the texts the loop consumes, the rest and the link
      become the notes. */
  function Build(date: int, from: string, r: seq<string>): Task {
    var k := Consumed(from, r);
    Task(date, Extend(from, r[..k]), r[k..] + [Link(from)])
  }

  /** What `format_group` returns for a group. */
  function Formatted(group: seq<Message>): Task
    requires group != []
  {
    Build(group[0].date, SenderLabel(group), Reverse(Texts(group)))
  }

  /** Task `t` is the reversed texts `r` split after `k` of them (at least
      one when there is one): the first `k` extend the label into the title, the rest and the link are
      the notes, and `k` is where the 150-character loop stops. */
  ghost predicate SplitAt(t: Task, from: string, r: seq<string>, k: int) {
    0 <= k <= |r| && (r != [] ==> k >= 1) &&
    t.title == Extend(from, r[..k]) && t.notes == r[k..] + [Link(from)] &&
    (k < |r| ==> |t.title| >= TitleLimit) &&
    (forall j :: 1 <= j < k ==> |Extend(from, r[..j])| < TitleLimit)
  }

  /** Nothing is lost or reordered: a built task (and so every formatted
      group, with `from` its label and `r` its reversed texts) is `r` split
      where the 150-character loop stops. */
  lemma BuildSplit(date: int, from: string, r: seq<string>)
    ensures var t := Build(date, from, r); SplitAt(t, from, r, |r| + 1 - |t.notes|)
  {
    ConsumedStops(from, r);
  }

  /** The notes of a built task end with the link; more notes than the link
      only once the title has reached the limit. */
  lemma BuildNotes(date: int, from: string, r: seq<string>)
    ensures var t := Build(date, from, r);
      |t.notes| >= 1 &&
      t.notes[|t.notes| - 1] == LinkPrefix + from &&
      (|t.notes| > 1 ==> |t.title| >= TitleLimit)
  {
    ConsumedStops(from, r);
  }

  /** The notes always end with the link built from the label; whenever they
      hold more than the link, the title has reached the limit. */
  lemma FormattedNotes(group: seq<Message>)
    requires group != []
    ensures var t := Formatted(group);
      |t.notes| >= 1 &&
      t.notes[|t.notes| - 1] == LinkPrefix + SenderLabel(group) &&
      (|t.notes| > 1 ==> |t.title| >= TitleLimit)
  {
    BuildNotes(group[0].date, SenderLabel(group), Reverse(Texts(group)));
  }

  /** The first loop of `format_group`: each message's text, then the
      placeholder of its attachment. */
  method CollectTexts(group: seq<Message>) returns (texts: seq<string>)
    ensures texts == Texts(group)
  {
    texts := [];
    var i := 0;
    while i < |group|
      invariant i <= |group|
      invariant texts == Texts(group[..i])
    {
      var m := group[i];
      texts := texts + [m.text];
      match m.media {
        case NoMedia =>
        case WebPageMedia(p) =>
          texts := texts + [PageText(p)];
        case Photo =>
          texts := texts + ["*PHOTO*"];
        case Document =>
          texts := texts + ["*DOCUMENT*"];
        case OtherMedia =>
      }
      assert group[..i + 1][..i] == group[..i];
      i := i + 1;
    }
    assert group[..i] == group;
  }

  /** Lines 74-81 of `format_group`: fill the title from the front of the
      reversed texts `r`; what is left over comes back as `rest`. */
  method FillTitle(from: string, r: seq<string>) returns (title: string, rest: seq<string>)
    ensures title == Extend(from, r[..Consumed(from, r)])
    ensures rest == r[Consumed(from, r)..]
  {
    var texts := r;
    title := from;
    ghost var k := 0;
    if |texts| > 0 {
      title := title + " " + texts[0];
      texts := texts[1..];
      k := 1;
      assert r[..1][..0] == [];
    }
    while |texts| > 0 && |title| < TitleLimit
      invariant k <= |r| && texts == r[k..]
      invariant title == Extend(from, r[..k])
      invariant k + More(title, texts) == Consumed(from, r)
      decreases |texts|
    {
      assert r[..k + 1][..k] == r[..k];
      title := title + " " + texts[0];
      texts := texts[1..];
      k := k + 1;
    }
    rest := texts;
  }

  /** `format_group`, step by step as the source does it. */
  method FormatGroup(group: seq<Message>) returns (task: Task)
    requires group != []
    ensures task == Formatted(group)
    ensures task.date == group[0].date
  {
    var date := group[0].date;
    var from := SenderLabel(group);
    var texts := CollectTexts(group);
    var link := Link(from);
    texts := Reverse(texts);
    var title;
    title, texts := FillTitle(from, texts);
    texts := texts + [link];
    task := Task(date, title, texts);
  }
}
