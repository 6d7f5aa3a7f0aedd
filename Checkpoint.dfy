/** The parsed-PMIDs checkpoint file: what reading it back yields
    (`getParsed`) and what appending one identifier to it does. */
module Checkpoint {
  import opened Wrappers
  import opened Text

  /** Contents of a text file, `None` when the file does not exist. */
  type TextFile = Option<string>

  /** The stripped lines of `lines`, as a set. */
  function StrippedLines(lines: seq<string>): set<string> {
    set l | l in lines :: Strip(l)
  }

  /** One more line adds its stripped text to the set. */
  lemma StrippedLinesAppend(lines: seq<string>, l: string)
    ensures StrippedLines(lines + [l]) == StrippedLines(lines) + {Strip(l)}
  {
    forall x | x in lines + [l] ensures x in lines || x == l { }
  }

  /** The set `getParsed` builds from a file holding `text`: every line,
      stripped. */
  function Entries(text: string): set<string> {
    StrippedLines(Lines(text))
  }

  /** The set `getParsed` returns: empty when the checkpoint file is absent. */
  function Loaded(file: TextFile): set<string> {
    match file
    case None => {}
    case Some(text) => Entries(text)
  }

  /** The file is absent, empty, or ends with a complete line. */
  predicate Terminated(file: TextFile) {
    match file
    case None => true
    case Some(text) => text == [] || EndsWithNewline(text)
  }

  /** Opening the file in append mode (creating it if absent) and writing
      `id` followed by '\n'. */
  function Mark(file: TextFile, id: string): (r: TextFile)
    ensures r.Some? && Terminated(r)
  {
    Some(file.GetOr("") + id + "\n")
  }

  lemma EntriesConcat(s: string, t: string)
    requires s == [] || EndsWithNewline(s)
    ensures Entries(s + t) == Entries(s) + Entries(t)
  {
    LinesAppend(s, t);
    assert Lines(s + t) == Lines(s) + Lines(t);
  }

  /** An identifier written as one line reads back as itself. */
  lemma EntriesOfOneLine(id: string)
    requires '\n' !in id && Strip(id) == id
    ensures Entries(id + "\n") == {id}
  {
    LinesOfOneLine(id);
    StripDropsTrailingSpace(id, '\n');
    assert id + "\n" == id + ['\n'];
  }

  /** Marking a stripped identifier and then reloading the checkpoint adds
      exactly that identifier to the loaded set, provided the file ended with
      a complete line. */
  lemma ReloadAfterMark(file: TextFile, id: string)
    requires Terminated(file)
    requires '\n' !in id && Strip(id) == id
    ensures Loaded(Mark(file, id)) == Loaded(file) + {id}
  {
    var text := file.GetOr("");
    assert file.Some? ==> text == file.value;
    EntriesConcat(text, id + "\n");
    assert text + id + "\n" == text + (id + "\n");
    EntriesOfOneLine(id);
    assert Entries([]) == {};
  }

  /** When the checkpoint file does not end with '\n' (its last line is
      `last`), the next identifier written to it is fused with that line:
      reloading yields neither `last` nor `id` but `last + id`, stripped. */
  lemma ReloadAfterMarkUnterminated(prev: string, last: string, id: string)
    requires prev == [] || EndsWithNewline(prev)
    requires '\n' !in last && '\n' !in id
    ensures Loaded(Some(prev + last)) == Entries(prev) + Entries(last)
    ensures Loaded(Mark(Some(prev + last), id)) == Entries(prev) + {Strip(last + id)}
  {
    EntriesConcat(prev, last);
    var line := last + id;
    NoNewlineConcat(last, id);
    var text := prev + last + id + "\n";
    assert text == prev + (line + "\n");
    EntriesConcat(prev, line + "\n");
    EntriesOfFusedLine(line);
    assert Mark(Some(prev + last), id) == Some(text);
  }

  lemma NoNewlineConcat(a: string, b: string)
    requires '\n' !in a && '\n' !in b
    ensures '\n' !in a + b
  {
    forall k | 0 <= k < |a + b| ensures (a + b)[k] != '\n' {
      if k < |a| { assert (a + b)[k] == a[k]; } else { assert (a + b)[k] == b[k - |a|]; }
    }
  }

  lemma EntriesOfFusedLine(line: string)
    requires '\n' !in line
    ensures Entries(line + "\n") == {Strip(line)}
  {
    LinesOfOneLine(line);
    StripDropsTrailingSpace(line, '\n');
    assert line + "\n" == line + ['\n'];
  }
}
