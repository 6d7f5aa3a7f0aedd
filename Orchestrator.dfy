/** The `paperToData` class: one object per run, holding the mode, the
    collaborators, the input file and the pipeline's mutable state. Each
    method is proved to do what the corresponding function of module
    Pipeline says, so the lemmas proved there hold of the class. */
module Orchestrator {
  import opened Wrappers
  import opened Text
  import opened Checkpoint
  import opened Records
  import opened Pipeline

  class PaperToData {
    const mode: Mode
    const services: Services
    /** The input file of PMIDs, one per line. */
    const input: TextFile
    /** `self.parsed`: PMIDs read from the checkpoint file, plus the PMCIDs
        fetched during this run. */
    var parsed: set<string>
    /** The parsed-PMIDs (checkpoint) file. */
    var checkpoint: TextFile
    /** The lines of the error file, each without its '\n'. */
    var errorLog: seq<string>
    /** The output CSV file. */
    var table: Table
    /** The calls made to the collaborators so far. */
    var requests: seq<Request>

    /** The object's state as the value module Pipeline works on. */
    function Snapshot(): State
      reads this
    {
      State(parsed, checkpoint, errorLog, table, requests)
    }

    /** `__init__`: the parsed set is loaded from the checkpoint file. */
    constructor(mode: Mode, services: Services, input: TextFile,
                checkpoint: TextFile, errorLog: seq<string>, table: Table)
      ensures this.mode == mode && this.services == services && this.input == input
      ensures Snapshot() == State(Loaded(checkpoint), checkpoint, errorLog, table, [])
    {
      this.mode := mode;
      this.services := services;
      this.input := input;
      this.checkpoint := checkpoint;
      this.errorLog := errorLog;
      this.table := table;
      this.requests := [];
      this.parsed := {};
      new;
      parsed := GetParsed();
    }

    /** `getParsed`: the empty set when the checkpoint file does not exist,
        otherwise the set of its lines, each stripped. */
    method GetParsed() returns (result: set<string>)
      ensures result == Loaded(checkpoint)
    {
      result := {};
      if checkpoint.Some? {
        var lines := Lines(checkpoint.value);
        var i := 0;
        while i < |lines|
          invariant 0 <= i <= |lines|
          invariant result == StrippedLines(lines[..i])
        {
          StrippedLinesAppend(lines[..i], lines[i]);
          assert lines[..i + 1] == lines[..i] + [lines[i]];
          result := result + {Strip(lines[i])};
          i := i + 1;
        }
        assert lines[..i] == lines;
      }
    }

    /** Appending one line to the error file. */
    method AppendError(line: string)
      modifies this
      ensures Snapshot() == LogError(old(Snapshot()), line)
    {
      errorLog := errorLog + [line];
    }

    /** `convert_pmid_to_pmcid`: the converter's answer (`None` when the
        request failed or found no record). */
    method ConvertPmidToPmcid(pmid: string) returns (pmcid: Option<string>)
      modifies this
      ensures pmcid == services.convert(pmid)
      ensures Snapshot() == Call(old(Snapshot()), Convert(pmid))
    {
      requests := requests + [Convert(pmid)];
      pmcid := services.convert(pmid);
    }

    /** `fetch_full_text_pmcid`: the abstract and the text, both `None` when
        the fetch failed or found no text. */
    method FetchFullTextPmcid(pmcid: string) returns (abstractText: Option<string>, fullText: Option<string>)
      modifies this
      ensures var f := FetchFullText(services, old(Snapshot()), pmcid);
        Snapshot() == f.state &&
        (f.texts.None? ==> abstractText.None? && fullText.None?) &&
        (f.texts.Some? ==> abstractText == Some(f.texts.value.0) && fullText == Some(f.texts.value.1))
    {
      requests := requests + [FetchPmc(pmcid)];
      match services.fetchPmc(pmcid)
      case FetchFailed(reason) =>
        AppendError(pmcid + " failed to fetch/clean: " + reason);
        return None, None;
      case Document(abstractPart, bodyPart, wholeDocument) =>
        var text := bodyPart;
        if text == "" {
          text := wholeDocument;
        }
        if text == "" {
          AppendError(pmcid + " failed to fetch/clean: " + EmptyTextReason);
          return None, None;
        }
        parsed := parsed + {pmcid};
        return Some(abstractPart), Some(text);
    }

    /** `fetch_abstract`: the abstract's text, `None` when the fetch raised
        (which ends the run). */
    method FetchAbstract(pmid: string) returns (text: Option<string>)
      modifies this
      ensures text == services.fetchPubmed(pmid)
      ensures Snapshot() == Call(old(Snapshot()), FetchPubmed(pmid))
    {
      requests := requests + [FetchPubmed(pmid)];
      text := services.fetchPubmed(pmid);
    }

    /** `create_text_json`: the language model's answer for the text cut to
        its first 60000 characters. */
    method CreateTextJson(text: string) returns (extracted: Json)
      modifies this
      ensures extracted == services.complete(Truncate(text))
      ensures Snapshot() == Call(old(Snapshot()), Complete(Truncate(text)))
    {
      var truncated := Truncate(text);
      requests := requests + [Complete(truncated)];
      extracted := services.complete(truncated);
    }

    /** `merge_json`: one row in the fixed column order, after the header when
        the file did not exist. */
    method MergeJson(data: map<string, string>)
      modifies this
      ensures Snapshot() == old(Snapshot()).(table := AppendRow(old(table), CleanRow(data)))
    {
      var row := CleanRow(data);
      var fileExists := table.Some?;
      var rows := if fileExists then table.value else [];
      if !fileExists {
        rows := rows + [Fieldnames];
        assert rows + [row] == [Fieldnames, row];
      }
      table := Some(rows + [row]);
    }

    /** Appending the PMID's line to the checkpoint file; the in-memory parsed
        set is left as it is. */
    method AppendParsed(pmid: string)
      modifies this
      ensures Snapshot() == old(Snapshot()).(checkpoint := Mark(old(checkpoint), pmid))
    {
      checkpoint := Some(checkpoint.GetOr("") + pmid + "\n");
    }

    /** `retrieve_data`: `aborted` is whether the call raised. */
    method RetrieveData(line: string) returns (aborted: bool)
      modifies this
      ensures Snapshot() == Retrieve(mode, services, old(Snapshot()), line).state
      ensures aborted == Retrieve(mode, services, old(Snapshot()), line).aborted
    {
      var pmid := Strip(line);
      if pmid == "" {
        return false;
      }
      var pmcid: Option<string> := Some("");
      if mode.FullText? {
        pmcid := ConvertPmidToPmcid(pmid);
      }
      if pmid !in parsed {
        if mode.FullText? && Falsy(pmcid) {
          AppendError(pmid + " failed to convert");
          return false;
        }
        var content: string;
        if mode.FullText? {
          var abstractText, fullText := FetchFullTextPmcid(pmcid.value);
          if fullText.None? {
            return false;
          }
          content := fullText.value;
        } else {
          var text := FetchAbstract(pmid);
          if text.None? {
            return true;
          }
          content := text.value;
        }
        var extracted := CreateTextJson(content);
        if Truthy(extracted) {
          // A list here is not empty: an empty list is falsy.
          if extracted.List? {
            extracted := extracted.items[0];
          }
          if !extracted.Dict? {
            return false;
          }
          MergeJson(WithIds(extracted.fields, pmid, mode.Name()));
          AppendParsed(pmid);
        }
        return false;
      } else if Falsy(pmcid) {
        AppendError(pmid + " failed to convert to PMCID");
      }
      return false;
    }

    /** `start`: nothing when the input file is missing, otherwise
        `retrieve_data` on each of its lines until one raises. */
    method Start() returns (aborted: bool)
      modifies this
      ensures Snapshot() == StartRun(mode, services, old(Snapshot()), input).state
      ensures aborted == StartRun(mode, services, old(Snapshot()), input).aborted
    {
      if input.None? {
        return false;
      }
      var lines := Lines(input.value);
      var i := 0;
      while i < |lines|
        invariant 0 <= i <= |lines|
        invariant Run(mode, services, old(Snapshot()), lines) == Run(mode, services, Snapshot(), lines[i..])
      {
        var raised := RetrieveData(lines[i]);
        if raised {
          return true;
        }
        i := i + 1;
      }
      return false;
    }
  }
}
