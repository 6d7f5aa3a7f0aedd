# PaperToData pipeline, modelled in Dafny

PaperToData works through a list of PubMed identifiers (PMIDs), one per line
of an input file, and turns each paper into one row of a CSV table of
vaccine-design facts. The class `paperToData` in `paperToData.py` does this.

For each line, `retrieve_data` does the following:

1. It strips the PMID.
2. In `full_text` mode, it resolves the PMID to a PubMed Central identifier
   (PMCID).
3. It skips PMIDs already in its in-memory `parsed` set.
4. It fetches text:
   - `full_text` mode: the body of the PMC record;
   - `abstract` mode: the PubMed abstract.
5. It sends at most 60000 characters of that text to a language model.
6. It checks the shape of the JSON answer.
7. It appends one row in a fixed 15-column order to the CSV file.
8. It then appends the PMID to a checkpoint file.

`getParsed` reloads the checkpoint file when the next run starts. Failures go
to an error file, one line each.

The project models that class. Modules:

- `Text`
  - Python's `str.strip()`, using the exact `str.isspace` character set.
  - The splitting of a file into the lines `for line in file` yields. Each
    line keeps its `'\n'`.
- `Checkpoint`
  - The checkpoint file: what reading it back gives (`getParsed`).
  - What appending one identifier does.
- `Records`
  - The truncation of the prompt text.
  - The JSON answer and its shape check.
  - `merge_json`'s projection of a record onto the 15 columns.
  - The CSV table, with its header written on creation.
- `Pipeline`
  - The per-identifier state machine, as functions from the state before to
    the state after:
    - `FetchFullText`: `fetch_full_text_pmcid`'s text selection;
    - `Conclude`: extraction, shape check, merge and mark;
    - `Retrieve`: `retrieve_data`;
    - `Run` and `StartRun`: `start`.
  - The lemmas about one identifier, a whole run and two successive runs.
- `Orchestrator`
  - The class `PaperToData`. Its fields are the parsed set, the checkpoint
    file, the error file, the CSV table and a log of outbound calls.
  - Its methods mirror the Python methods branch for branch.
  - `GetParsed` and `Start` are loops.
  - Every method is proved to leave the object in exactly the state the
    corresponding `Pipeline` function computes. The `Pipeline` lemmas
    therefore hold of the class.

The state is modelled as follows:

- A file is `Option<string>`; `None` means it does not exist.
- The error file is the sequence of its lines.
- The CSV file is `None` or its rows, the header included.
- The collaborators are the answers they give for each argument (`Services`):
  - the ID converter;
  - the PMC fetch, which gives the abstract, body and whole-document texts or
    an exception message;
  - the PubMed fetch, which gives text or raises;
  - the language-model chain.
- Each call made to a collaborator is recorded in `requests`. This lets the
  contracts say when the converter is called.

It follows the code, not the intended design, in three places:

- **PMID resolved first.** The PMID is resolved before the parsed check, so
  the converter is called even for a PMID that will be skipped
  (`paperToData.py:193-197`).
- **Error line in abstract mode.** An already-parsed PMID still writes
  `<pmid> failed to convert to PMCID` in abstract mode. There `pmcid` is
  always `""` (`paperToData.py:236-238`).
- **In-memory set not updated.** A successful PMID is appended to the
  checkpoint file but never to the in-memory set; in full-text mode the set
  gains the PMCID instead (`paperToData.py:111`, `233-234`). Two
  consequences:
  - A PMID that occurs twice in one input file is processed twice, giving
    two equal rows (`Pipeline.RepeatedPmidWritesAgain`).
  - Only a new process, which reloads the checkpoint file, skips it
    (`Pipeline.ResumedStartSkipsRecorded`), provided the checkpoint file is
    absent, empty or ends with '\n' when the first run starts.

One more point about the code: in the shape check, the branch for an empty
list (`paperToData.py:222-224`) can never be taken. An empty list is falsy,
so it is already rejected at line 218. `RetrieveData` therefore takes the
first element of a list without testing its length, and the effect is the
same.

A last point about the code: `getParsed` accepts a checkpoint file whose
last line has no '\n' (`paperToData.py:44-47`). The next `pmid + "\n"`
appended at lines 233-234 is then fused with that line. For a file holding
"1", marking "2" gives "12\n", which reloads as {"12"}: neither "1" nor "2"
is recorded, so the next run processes both again
(`Checkpoint.ReloadAfterMarkUnterminated`). The run-level and cross-run
properties below are therefore proved under the condition that the
checkpoint file is absent, empty or ends with '\n' when the run starts.

## Model

| member | source | states |
|---|---|---|
| Text.IsSpace | paperToData.py:190 | the characters `str.strip()` removes: Python's `str.isspace` code points (tab to carriage return, the file/group/record/unit separators, space, U+0085, U+00A0, U+1680, U+2000-U+200A, U+2028, U+2029, U+202F, U+205F, U+3000) |
| Text.Strip | paperToData.py:190 | `str.strip()`: leading, then trailing whitespace removed; its properties are in the next rows |
| Text.StripSlice | paperToData.py:190 | `strip()` returns a slice of its input, with only whitespace removed before and after it, and neither end of the result is whitespace |
| Text.StripExact | paperToData.py:190 | whatever whitespace surrounds a text without whitespace at its ends, `strip()` gives exactly that text back |
| Text.StripIdempotent | paperToData.py:47 | stripping an already stripped identifier changes nothing |
| Text.StripEmptyIff | paperToData.py:190-191 | a line strips to the empty string if and only if it consists of whitespace only |
| Text.StripDropsTrailingSpace | paperToData.py:47 | a trailing whitespace character, such as a line's '\n', does not change what `strip()` returns |
| Text.StripRemovesTerminator | paperToData.py:46-47 | a line with '\n' at most at its end strips to text without any '\n' |
| Text.Lines | paperToData.py:46 | the lines `for line in file` yields for a file's text: cut after each '\n', each line keeping its '\n', the last one possibly without; its properties are in the next rows |
| Text.LinesConcat | paperToData.py:46 | the lines a file is iterated as join back to exactly the file's text |
| Text.LinesShape | paperToData.py:46 | every line is non-empty and has no '\n' before its end, and every line but the last ends with '\n' |
| Text.LinesAppend | paperToData.py:233-234 | text appended to a file that ends with a complete line is read back as that file's lines followed by the new text's lines |
| Text.LinesOfOneLine | paperToData.py:234 | one identifier written with its '\n' is read back as exactly one line |
| Checkpoint.Entries | paperToData.py:45-47 | the set `getParsed` builds from an existing file's text: each of its lines, stripped |
| Checkpoint.Loaded | paperToData.py:42-48 | `getParsed`'s result: the empty set when the file does not exist, otherwise `Entries` of its text |
| Checkpoint.Mark | paperToData.py:233-234 | appending a PMID line creates the checkpoint file if needed and leaves it ending with a complete line |
| Checkpoint.EntriesConcat | paperToData.py:42-48 | the set loaded from a file made of two parts, the first ending with '\n', is the union of the sets the parts load to |
| Checkpoint.EntriesOfOneLine | paperToData.py:47 | a stripped identifier written as one line loads back as exactly that identifier |
| Checkpoint.ReloadAfterMark | paperToData.py:233-234 | after a stripped, '\n'-free PMID is appended to a file ending with a complete line, `getParsed` gives the old set plus exactly that PMID |
| Checkpoint.ReloadAfterMarkUnterminated | paperToData.py:233-234 | if the file's last line has no '\n', the appended PMID is fused with that line: reloading gives the earlier lines' set plus the stripped fused line, and neither part on its own |
| Records.Truncate | paperToData.py:131 | the prompt text is a prefix of the text of length min(length, 60000) |
| Records.Shape | paperToData.py:218-227 | the record the orchestrator goes on with: none for a falsy answer, the first element of a non-empty list, and none when that (or the answer) is not a dictionary; characterised in the next row |
| Records.ShapeAccepts | paperToData.py:218-227 | the answer yields a record exactly when it is a non-empty dictionary, or a non-empty list whose first element is a dictionary; every other answer (None, an empty dict or list, a non-dictionary) yields none |
| Records.CleanRow | paperToData.py:186 | a merged row has exactly the fifteen columns |
| Records.CleanRowReadsBack | paperToData.py:171-187 | reading a merged row back under the header gives, for each of the fifteen field names, the record's value or "" when the key is missing, and no other key |
| Records.RowRoundTrip | paperToData.py:186 | every fifteen-cell row is the merge of the dictionary it reads back as |
| Records.ExtraKeysIgnored | paperToData.py:185-186 | two records that agree on the fifteen field names give the same row, whatever their other keys |
| Records.WithIds | paperToData.py:228-229 | the record with `pmid` and `paper_type` set to the orchestrator's values, overriding the extractor's |
| Records.WithIdsRow | paperToData.py:228-230 | the row's `pmid` and `paper_type` cells are the orchestrator's values, overriding the extractor's; every other cell is the extractor's value or "" |
| Records.AppendRow | paperToData.py:178-187 | after a merge the CSV file exists |
| Pipeline.FetchFullText | paperToData.py:84-118 | `fetch_full_text_pmcid` on the pipeline state: one PMC fetch; the body text, or the whole document's when the body is empty; an error line "<pmcid> failed to fetch/clean: <reason>" and no texts when the fetch raised or no text was found; the PMCID added to the parsed set on success (see `Pipeline.FetchFullTextOutcome`) |
| Pipeline.Conclude | paperToData.py:216-234 | extraction on the truncated text, the shape check, the merge of the record with the orchestrator's identifiers and then the checkpoint line (see `Pipeline.ConcludeOutcome`) |
| Pipeline.ProcessNew | paperToData.py:197-234 | the branch for a PMID not in the parsed set: in full-text mode "<pmid> failed to convert" for a falsy PMCID, else the full-text fetch and, if it gave text, `Conclude`; in abstract mode the abstract fetch, an abort when it raises, else `Conclude` |
| Pipeline.Retrieve | paperToData.py:189-240 | `retrieve_data`: nothing for a blank line; in full-text mode the converter is called before the parsed check; a new PMID goes to `ProcessNew`; a parsed one writes "<pmid> failed to convert to PMCID" when the PMCID is falsy and nothing otherwise (see the lemmas below) |
| Pipeline.Run | paperToData.py:249-250 | `retrieve_data` on each line in order, stopping at the first call that raises |
| Pipeline.StartRun | paperToData.py:242-253 | `start()`: nothing when the input file does not exist, otherwise `Run` over the lines of the input file |
| Pipeline.AppendRowWrites | paperToData.py:178-187 | a merge adds exactly one data row; the header is written first only when the file did not exist, and existing rows are kept |
| Pipeline.BlankLineIsNoOp | paperToData.py:190-191 | a line that is blank after stripping changes nothing: no collaborator call, no row, no checkpoint or error line, no abort |
| Pipeline.AlreadyParsedIsSkipped | paperToData.py:193-240 | a PMID in the parsed set writes no row and no checkpoint line and keeps the parsed set. The converter is still called in full-text mode. "<pmid> failed to convert to PMCID" is written exactly when the converter's answer is falsy, which in abstract mode is always |
| Pipeline.UnresolvedPmidIsLogged | paperToData.py:193-206 | full-text mode, a new PMID the converter gives nothing for: exactly one error line "<pmid> failed to convert", one converter call, nothing else changes |
| Pipeline.FetchFullTextOutcome | paperToData.py:84-118 | the text is the body's, or the whole document's when the body is empty. When that is empty too, or the fetch raised, exactly one line "<pmcid> failed to fetch/clean: <reason>" is written, `(None, None)` is returned and the parsed set is unchanged. On success the PMCID joins the parsed set and nothing is logged |
| Pipeline.ConcludeOutcome | paperToData.py:216-234 | an answer that yields no record writes nothing (not even an error line). Otherwise exactly one row `CleanRow(record with pmid and paper_type overridden)` is appended, then the PMID's checkpoint line. The parsed set never changes |
| Pipeline.RetrieveStep | paperToData.py:189-240 | one call of `retrieve_data` grows the table by at most one row, and only for a PMID not in the parsed set; the row carries that PMID and the mode. It appends that PMID's checkpoint line exactly when it writes a row. It only appends to the error file and the call log, and adds nothing to the parsed set except the resolved PMCID |
| Pipeline.CrashBeforeMarkRewritesRow | paperToData.py:228-234 | the row is merged before its checkpoint line is written: after a crash between the two, a restarted process writes the same row again and then the checkpoint line (at-least-once) |
| Pipeline.RestartRetriesCrashedPmid | paperToData.py:195-234 | after a crash between the merge and the checkpoint line, a restarted process, whatever its collaborators now answer, does not skip the PMID: the reloaded parsed set lacks it and `retrieve_data` takes the branch for a new PMID |
| Pipeline.RepeatedPmidWritesAgain | paperToData.py:228-234 | a successful PMID is not added to the in-memory set, so the same line met again in the same run writes the same row and checkpoint line again |
| Pipeline.RunSkipsParsed | paperToData.py:242-250 | over a whole run, every row has fifteen cells, the mode's name and a PMID that was not in the parsed set when the run started; the parsed set only grows |
| Pipeline.RunMarksWritten | paperToData.py:242-250 | provided the checkpoint file is absent, empty or ends with '\n' when the run starts (and no input line holds a '\n' inside it): after a whole run, reloading the checkpoint file gives the set it held before plus exactly the PMIDs of the rows the run wrote (merge-then-mark) |
| Pipeline.StartRunFacts | paperToData.py:242-250 | `start()`, provided the checkpoint file is absent, empty or ends with '\n' when the run starts: both run-level facts hold, including when the input file is missing and nothing is done |
| Pipeline.ResumedStartSkipsRecorded | paperToData.py:34 | cross-run idempotence, provided the checkpoint file is absent, empty or ends with '\n' when the first run starts: a new process started on the files that run left behind, with any mode, input and collaborator answers, writes no row for a PMID the checkpoint file held before the first run, nor for one the first run wrote a row for |
| Orchestrator.PaperToData.constructor | paperToData.py:18-40 | the object starts with the parsed set loaded from the checkpoint file, the given files and no calls made |
| Orchestrator.PaperToData.GetParsed | paperToData.py:42-48 | the empty set when the checkpoint file does not exist, otherwise exactly the set of its lines, each stripped |
| Orchestrator.PaperToData.AppendError | paperToData.py:116-117 | one line is appended to the error file and nothing else changes |
| Orchestrator.PaperToData.ConvertPmidToPmcid | paperToData.py:70-82 | returns the converter's answer and records one converter call, nothing else changes |
| Orchestrator.PaperToData.FetchFullTextPmcid | paperToData.py:84-118 | leaves the object in the state `FetchFullText` computes; returns both texts, or (None, None) exactly when that function gives none |
| Orchestrator.PaperToData.FetchAbstract | paperToData.py:120-126 | returns the abstract fetch's answer and records one call, nothing else changes |
| Orchestrator.PaperToData.CreateTextJson | paperToData.py:128-168 | sends the truncated text and returns the language model's answer for it; one call is recorded |
| Orchestrator.PaperToData.MergeJson | paperToData.py:170-187 | the table becomes `AppendRow(old table, CleanRow(record))` and nothing else changes |
| Orchestrator.PaperToData.AppendParsed | paperToData.py:232-234 | the checkpoint file gains the PMID's line; the in-memory set is left as it is |
| Orchestrator.PaperToData.RetrieveData | paperToData.py:189-240 | the object's new state and the abort flag are exactly those `Retrieve` computes from the old state, so every `Pipeline` lemma about one identifier holds of the method |
| Orchestrator.PaperToData.Start | paperToData.py:242-253 | the object's new state and the abort flag are exactly those `StartRun` computes, so the run-level lemmas hold of the method |

## Left out

- Network calls: the ID converter (`requests.get` and JSON decoding) and `Entrez.efetch`. Each is an answer per argument in `Services`. Answers are assumed the same each time for the same argument.
- BeautifulSoup parsing and `get_text`: the abstract, body and whole-document texts are given strings; `""` stands for a missing element.
- The LangChain chain, the prompt text and `JsonOutputParser`: the language model is an answer `Json` per truncated text. An exception becomes `Null`, as the Python code returns `None`.
- `Records.Json`: the values of a dictionary answer are the cell texts `csv.DictWriter` would write for them; non-string values are not stringified in the model.
- CSV quoting and escaping: a row is the sequence of its cells.
- `time.sleep`, `load_dotenv`, `getLLM`, `setup_langchain_env`, environment variables and the path joining in `__init__`: configuration and timing only.
- `print` output, and the counter in `start` that only prints progress.
- Exception texts: a failed fetch carries an opaque reason string.
- An exception in `fetch_abstract` ends the whole run (`aborted`). The other exceptions the code does not catch (failing file writes, the CSV writer) are not modelled.
- The error file is modelled as its list of lines. A reason that itself holds a '\n' would split into two lines in the real file.
- Universal-newline translation: '\r' and "\r\n" would be read back as '\n' by Python's text mode; the model splits on '\n' only.
- File encodings.
- `main.py`: argument parsing only.
- Pipeline.RepeatedPmidWritesAgain: in full-text mode it assumes the converter does not give back the PMID itself as the PMCID. If it did, the PMCID added to the parsed set would make the second line a skip.
