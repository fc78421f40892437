/** Rendering a task as an org-mode entry (`as_org`): the title with every
    whitespace character turned into a space, a fixed template, then the
    notes one per line. The clock readings are parameters. */
module Render {
  import opened Seqs
  import opened Format

  /** The characters Python's `\s` matches in a `str` pattern (those for
      which `str.isspace()` holds). */
  predicate IsSpace(c: char) {
    ('\t' <= c <= '\r') || ('\U{1C}' <= c <= '\U{1F}') || c == ' ' ||
    c == '\U{85}' || c == '\U{A0}' || c == '\U{1680}' ||
    ('\U{2000}' <= c <= '\U{200A}') || c == '\U{2028}' || c == '\U{2029}' ||
    c == '\U{202F}' || c == '\U{205F}' || c == '\U{3000}'
  }

  /** The title with every whitespace character, one at a time, turned
      into a single space; runs are not collapsed. */
  function Sanitize(name: string): (r: string)
    ensures |r| == |name|
    ensures forall i :: 0 <= i < |name| ==> r[i] == if IsSpace(name[i]) then ' ' else name[i]
  {
    if name == [] then []
    else [if IsSpace(name[0]) then ' ' else name[0]] + Sanitize(name[1..])
  }

  /** The only whitespace left is the plain space; in particular the title
      cannot break the heading line. */
  lemma SanitizeLeavesOnlySpaces(name: string)
    ensures forall c :: c in Sanitize(name) && IsSpace(c) ==> c == ' '
    ensures '\n' !in Sanitize(name)
  {
    assert IsSpace('\n');
  }

  /** Sanitising twice changes nothing more. */
  lemma SanitizeIdempotent(name: string)
    ensures Sanitize(Sanitize(name)) == Sanitize(name)
  {
  }

  /** The tag text of the heading: empty without a tag, otherwise the tag
      between colons. */
  function TagText(tag: Option<string>): string {
    match tag
    case None => ""
    case Some(t) => ":" + t + ":"
  }

  /** The heading line of an entry, without its line break. */
  function Heading(task: Task, tag: Option<string>): string {
    "* TODO " + Sanitize(task.title) + " " + TagText(tag)
  }

  /** The fixed block between the heading and the notes. */
  function Drawer(date: string, stamp: string): string {
    "\n  SCHEDULED: <" + date + ">\n:PROPERTIES:\n:CREATED:  [" + stamp + "]\n:END:\n"
  }

  /** `as_org`: `date` and `stamp` stand for `date2org(now)` and
      `datetime2org(now)`. */
  function AsOrg(task: Task, tag: Option<string>, date: string, stamp: string): string {
    Heading(task, tag) + Drawer(date, stamp) + Join(task.notes, "\n")
  }

  /** An entry opens with its heading on a line of its own: the sanitised
      title cannot break it, only a tag holding a line break could. */
  lemma AsOrgHeading(task: Task, tag: Option<string>, date: string, stamp: string)
    ensures var e, h := AsOrg(task, tag, date, stamp), Heading(task, tag);
      |e| > |h| && e[..|h|] == h && e[|h|] == '\n' &&
      (tag.None? || '\n' !in tag.value ==> '\n' !in h)
  {
    var e, h := AsOrg(task, tag, date, stamp), Heading(task, tag);
    var d := Drawer(date, stamp);
    assert e == h + (d + Join(task.notes, "\n"));
    assert d[0] == '\n';
    SanitizeLeavesOnlySpaces(task.title);
    if tag.None? || '\n' !in tag.value {
      assert '\n' !in TagText(tag);
      assert h == "* TODO " + Sanitize(task.title) + " " + TagText(tag);
    }
  }

  /** An entry ends with its last note, on a line of its own. */
  lemma AsOrgEndsWithLastNote(task: Task, tag: Option<string>, date: string, stamp: string)
    requires task.notes != []
    ensures var e, last := AsOrg(task, tag, date, stamp), task.notes[|task.notes| - 1];
      |e| > |last| && e[|e| - |last| - 1..] == "\n" + last
  {
    var h, d, j := Heading(task, tag), Drawer(date, stamp), Join(task.notes, "\n");
    var e := AsOrg(task, tag, date, stamp);
    assert e == (h + d) + j;
    JoinEndsWithLast(task.notes, "\n");
    var last := task.notes[|task.notes| - 1];
    if |task.notes| == 1 {
      assert j == last;
      assert e[|e| - |last| - 1..] == (h + d)[|h + d| - 1..] + j;
    } else {
      assert e[|e| - |last| - 1..] == j[|j| - |last| - 1..];
    }
  }
}
