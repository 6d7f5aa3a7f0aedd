/** The per-identifier state machine of `paperToData.retrieve_data` and the
    loop of `start`, as functions from the pipeline's state before to its
    state after. The class in module Orchestrator is proved to follow these
    functions; the lemmas below say what they promise. */
module Pipeline {
  import opened Wrappers
  import opened Text
  import opened Checkpoint
  import opened Records

  /** The two values of the `--mode` option; `Name` is what lands in the
      `paper_type` column. */
  datatype Mode = Abstract | FullText {
    function Name(): string {
      if Abstract? then "abstract" else "full_text"
    }
  }

  /** What fetching a PubMed Central record gives: the exception it raised
      (its message), or the texts of its `<abstract>` element, its `<body>`
      element and the whole document ("" for a missing element). */
  datatype PmcResponse =
    | FetchFailed(reason: string)
    | Document(abstractText: string, bodyText: string, documentText: string)

  /** The external collaborators, each as the answer it gives for an
      argument: the PMID-to-PMCID converter, the full-text and abstract
      fetches (the abstract fetch gives `None` when it raises) and the
      language-model chain. */
  datatype Services = Services(
    convert: string -> Option<string>,
    fetchPmc: string -> PmcResponse,
    fetchPubmed: string -> Option<string>,
    complete: string -> Json)

  /** One outbound call to a collaborator. */
  datatype Request =
    | Convert(pmid: string)
    | FetchPmc(pmcid: string)
    | FetchPubmed(pmid: string)
    | Complete(prompt: string)

  /** The pipeline's state: the in-memory parsed set, the checkpoint file,
      the error log (the lines written to it, each without its '\n'), the
      output table and the calls made so far. */
  datatype State = State(
    parsed: set<string>,
    checkpoint: TextFile,
    errorLog: seq<string>,
    table: Table,
    requests: seq<Request>)

  /** The state after a step and whether an exception ended the run. */
  datatype Outcome = Outcome(state: State, aborted: bool)

  /** Python's `not pmcid` for the converter's answer. */
  predicate Falsy(pmcid: Option<string>) {
    pmcid.None? || pmcid.value == ""
  }

  function LogError(st: State, line: string): State {
    st.(errorLog := st.errorLog + [line])
  }

  function Call(st: State, r: Request): State {
    st.(requests := st.requests + [r])
  }

  /** The message of the exception `fetch_full_text_pmcid` raises when no text
      was found. */
  const EmptyTextReason: string := "Extracted text is empty"

  /** The state after `fetch_full_text_pmcid` and the (abstract, text) pair it
      returns, `None` for `(None, None)`. */
  datatype Fetched = Fetched(state: State, texts: Option<(string, string)>)

  function FetchFullText(svc: Services, st: State, pmcid: string): Fetched {
    var st1 := Call(st, FetchPmc(pmcid));
    match svc.fetchPmc(pmcid)
    case FetchFailed(reason) =>
      Fetched(LogError(st1, pmcid + " failed to fetch/clean: " + reason), None)
    case Document(abstractText, bodyText, documentText) =>
      var text := if bodyText != "" then bodyText else documentText;
      if text == "" then
        Fetched(LogError(st1, pmcid + " failed to fetch/clean: " + EmptyTextReason), None)
      else
        Fetched(st1.(parsed := st1.parsed + {pmcid}), Some((abstractText, text)))
  }

  /** Extraction, the shape check, the merge and the checkpoint line. */
  function Conclude(mode: Mode, svc: Services, st: State, pmid: string, text: string): Outcome {
    var prompt := Truncate(text);
    var st1 := Call(st, Complete(prompt));
    match Shape(svc.complete(prompt))
    case None => Outcome(st1, false)
    case Some(d) =>
      var merged := st1.(table := AppendRow(st1.table, CleanRow(WithIds(d, pmid, mode.Name()))));
      Outcome(merged.(checkpoint := Mark(merged.checkpoint, pmid)), false)
  }

  /** The branch of `retrieve_data` taken for a PMID not in the parsed set. */
  function ProcessNew(mode: Mode, svc: Services, st: State, pmid: string, pmcid: Option<string>): Outcome {
    match mode
    case FullText =>
      if Falsy(pmcid) then Outcome(LogError(st, pmid + " failed to convert"), false)
      else
        var f := FetchFullText(svc, st, pmcid.value);
        if f.texts.None? then Outcome(f.state, false)
        else Conclude(mode, svc, f.state, pmid, f.texts.value.1)
    case Abstract =>
      var st1 := Call(st, FetchPubmed(pmid));
      match svc.fetchPubmed(pmid)
      case None => Outcome(st1, true)
      case Some(text) => Conclude(mode, svc, st1, pmid, text)
  }

  /** `retrieve_data(raw)`. */
  function Retrieve(mode: Mode, svc: Services, st: State, raw: string): Outcome {
    var pmid := Strip(raw);
    if pmid == "" then Outcome(st, false)
    else
      var st1 := if mode.FullText? then Call(st, Convert(pmid)) else st;
      var pmcid := if mode.FullText? then svc.convert(pmid) else Some("");
      if pmid !in st1.parsed then ProcessNew(mode, svc, st1, pmid, pmcid)
      else if Falsy(pmcid) then Outcome(LogError(st1, pmid + " failed to convert to PMCID"), false)
      else Outcome(st1, false)
  }

  /** `retrieve_data` on each line in turn, until one raises. */
  function Run(mode: Mode, svc: Services, st: State, lines: seq<string>): Outcome
    decreases |lines|
  {
    if lines == [] then Outcome(st, false)
    else
      var o := Retrieve(mode, svc, st, lines[0]);
      if o.aborted then o else Run(mode, svc, o.state, lines[1..])
  }

  /** `start()`: nothing at all when the input file is missing. */
  function StartRun(mode: Mode, svc: Services, st: State, input: TextFile): Outcome {
    match input
    case None => Outcome(st, false)
    case Some(text) => Run(mode, svc, st, Lines(text))
  }

  // ----- What a table gains -----

  /** `after` is `before` with rows appended, the header first if `before`
      did not exist. */
  predicate Grows(before: Table, after: Table) {
    match before
    case None => after.None? || (after.value != [] && after.value[0] == Fieldnames)
    case Some(rows) => after.Some? && rows <= after.value
  }

  /** The data rows `after` holds beyond `before` (a header written on
      creation is not one of them). */
  function Written(before: Table, after: Table): seq<Row> {
    match after
    case None => []
    case Some(rows) =>
      var k := if before.None? then 1 else |before.value|;
      if k <= |rows| then rows[k..] else []
  }

  /** The identifiers in the first column of `rows`. */
  function Pmids(rows: seq<Row>): set<string> {
    set r | r in rows && r != [] :: r[0]
  }

  lemma WrittenCompose(a: Table, b: Table, c: Table)
    requires Grows(a, b) && Grows(b, c)
    ensures Grows(a, c) && Written(a, c) == Written(a, b) + Written(b, c)
  {
    if a.None? && b.Some? {
      assert c.value[..|b.value|] == b.value;
      assert c.value[1..] == b.value[1..] + c.value[|b.value|..];
    } else if a.Some? {
      assert c.value[..|b.value|] == b.value;
      assert c.value[|a.value|..] == b.value[|a.value|..] + c.value[|b.value|..];
    }
  }

  lemma PmidsConcat(v: seq<Row>, w: seq<Row>)
    ensures Pmids(v + w) == Pmids(v) + Pmids(w)
  {
    forall r | r in v + w ensures r in v || r in w { }
  }

  lemma AppendRowWrites(table: Table, row: Row)
    ensures Grows(table, AppendRow(table, row)) && Written(table, AppendRow(table, row)) == [row]
  {
  }

  // ----- One identifier -----

  /** A line that is blank after stripping changes nothing: no call to any
      collaborator, no row, no checkpoint line, no error line. */
  lemma BlankLineIsNoOp(mode: Mode, svc: Services, st: State, raw: string)
    requires AllSpace(raw)
    ensures Retrieve(mode, svc, st, raw) == Outcome(st, false)
  {
    StripEmptyIff(raw);
  }

  /** A PMID already in the parsed set writes no row and no checkpoint line.
      The converter is still called in full-text mode, and the error line
      "<pmid> failed to convert to PMCID" is written when its answer is falsy,
      which in abstract mode is always. */
  lemma AlreadyParsedIsSkipped(mode: Mode, svc: Services, st: State, raw: string)
    requires Strip(raw) != "" && Strip(raw) in st.parsed
    ensures !Retrieve(mode, svc, st, raw).aborted
    ensures Retrieve(mode, svc, st, raw).state.table == st.table
    ensures Retrieve(mode, svc, st, raw).state.checkpoint == st.checkpoint
    ensures Retrieve(mode, svc, st, raw).state.parsed == st.parsed
    ensures Retrieve(mode, svc, st, raw).state.errorLog == st.errorLog +
      (if mode.Abstract? || Falsy(svc.convert(Strip(raw)))
       then [Strip(raw) + " failed to convert to PMCID"] else [])
    ensures Retrieve(mode, svc, st, raw).state.requests == st.requests +
      (if mode.FullText? then [Convert(Strip(raw))] else [])
  {
    assert st.errorLog + [] == st.errorLog;
    assert st.requests + [] == st.requests;
  }

  /** Full-text mode, a new PMID the converter cannot resolve: exactly one
      error line "<pmid> failed to convert", no row, no checkpoint line. */
  lemma UnresolvedPmidIsLogged(svc: Services, st: State, raw: string)
    requires Strip(raw) != "" && Strip(raw) !in st.parsed
    requires Falsy(svc.convert(Strip(raw)))
    ensures !Retrieve(FullText, svc, st, raw).aborted
    ensures Retrieve(FullText, svc, st, raw).state.table == st.table
    ensures Retrieve(FullText, svc, st, raw).state.checkpoint == st.checkpoint
    ensures Retrieve(FullText, svc, st, raw).state.parsed == st.parsed
    ensures Retrieve(FullText, svc, st, raw).state.errorLog == st.errorLog + [Strip(raw) + " failed to convert"]
    ensures Retrieve(FullText, svc, st, raw).state.requests == st.requests + [Convert(Strip(raw))]
  {
  }

  /** `fetch_full_text_pmcid`: the text is the body's, or the whole
      document's when the body is empty; when that too is empty, or the fetch
      raised, exactly one error line "<pmcid> failed to fetch/clean: <reason>"
      is written and the parsed set is unchanged; on success the PMCID (not
      the PMID) joins the parsed set and nothing is logged. */
  lemma FetchFullTextOutcome(svc: Services, st: State, pmcid: string)
    ensures var f := FetchFullText(svc, st, pmcid);
      f.state.requests == st.requests + [FetchPmc(pmcid)] &&
      f.state.table == st.table && f.state.checkpoint == st.checkpoint &&
      match svc.fetchPmc(pmcid)
      case FetchFailed(reason) =>
        f.texts.None? && f.state.parsed == st.parsed &&
        f.state.errorLog == st.errorLog + [pmcid + " failed to fetch/clean: " + reason]
      case Document(a, body, whole) =>
        (body == "" && whole == "" ==>
           f.texts.None? && f.state.parsed == st.parsed &&
           f.state.errorLog == st.errorLog + [pmcid + " failed to fetch/clean: " + EmptyTextReason]) &&
        (body != "" ==> f.texts == Some((a, body))) &&
        (body == "" && whole != "" ==> f.texts == Some((a, whole))) &&
        (f.texts.Some? ==> f.state.parsed == st.parsed + {pmcid} && f.state.errorLog == st.errorLog)
  {
  }

  /** Handling of the language model's answer: a falsy answer, an empty list,
      or a first element / answer that is not a dictionary writes nothing
      (not even an error line); any other answer adds exactly one data row
      whose `pmid` and `paper_type` are the orchestrator's, then the PMID's
      checkpoint line. The in-memory parsed set never changes here. */
  lemma ConcludeOutcome(mode: Mode, svc: Services, st: State, pmid: string, text: string)
    ensures var prompt := Truncate(text);
      var o := Conclude(mode, svc, st, pmid, text);
      var w := Written(st.table, o.state.table);
      !o.aborted && o.state.requests == st.requests + [Complete(prompt)] &&
      o.state.parsed == st.parsed && o.state.errorLog == st.errorLog &&
      Grows(st.table, o.state.table) &&
      match Shape(svc.complete(prompt))
      case None => o.state.table == st.table && o.state.checkpoint == st.checkpoint
      case Some(d) =>
        w == [CleanRow(WithIds(d, pmid, mode.Name()))] &&
        w[0][0] == pmid && w[0][1] == mode.Name() &&
        o.state.checkpoint == Mark(st.checkpoint, pmid)
  {
    var prompt := Truncate(text);
    match Shape(svc.complete(prompt))
    case None =>
    case Some(d) =>
      var row := CleanRow(WithIds(d, pmid, mode.Name()));
      AppendRowWrites(st.table, row);
      WithIdsRow(d, pmid, mode.Name());
  }

  /** What one step may do to the state: the table only grows, by at most
      one data row; a row is written only for a PMID that was not in the
      parsed set, carries it and the mode in its first two columns, and is
      followed by that PMID's checkpoint line, while without a row the
      checkpoint file is untouched; the parsed set gains at most `pmcid`; the
      error log and the call log are only appended to. */
  ghost predicate Stepped(mode: Mode, st: State, o: State, pmid: string, pmcid: Option<string>) {
    var w := Written(st.table, o.table);
    Grows(st.table, o.table) && |w| <= 1 &&
    st.errorLog <= o.errorLog && st.requests <= o.requests &&
    (o.parsed == st.parsed || (mode.FullText? && pmcid.Some? && o.parsed == st.parsed + {pmcid.value})) &&
    (w == [] ==> o.checkpoint == st.checkpoint) &&
    (w != [] ==> pmid !in st.parsed && |w[0]| == |Fieldnames| &&
                 w[0][0] == pmid && w[0][1] == mode.Name() &&
                 o.checkpoint == Mark(st.checkpoint, pmid))
  }

  lemma NothingWritten(t: Table)
    ensures Grows(t, t) && Written(t, t) == []
  {
    if t.Some? { assert t.value[|t.value|..] == []; }
  }

  lemma ConcludeStep(mode: Mode, svc: Services, st: State, pmid: string, text: string, pmcid: Option<string>)
    requires pmid !in st.parsed
    ensures Stepped(mode, st, Conclude(mode, svc, st, pmid, text).state, pmid, pmcid)
  {
    ConcludeOutcome(mode, svc, st, pmid, text);
    NothingWritten(st.table);
  }

  lemma ProcessNewStep(mode: Mode, svc: Services, st: State, pmid: string, pmcid: Option<string>)
    requires pmid !in st.parsed
    ensures Stepped(mode, st, ProcessNew(mode, svc, st, pmid, pmcid).state, pmid, pmcid)
  {
    NothingWritten(st.table);
    match mode
    case FullText =>
      if !Falsy(pmcid) {
        var f := FetchFullText(svc, st, pmcid.value);
        FetchFullTextOutcome(svc, st, pmcid.value);
        if f.texts.Some? {
          var o := Conclude(mode, svc, f.state, pmid, f.texts.value.1);
          ConcludeOutcome(mode, svc, f.state, pmid, f.texts.value.1);
          assert o.state.parsed == st.parsed + {pmcid.value};
        }
      }
    case Abstract =>
      var st1 := Call(st, FetchPubmed(pmid));
      if svc.fetchPubmed(pmid).Some? {
        ConcludeStep(mode, svc, st1, pmid, svc.fetchPubmed(pmid).value, pmcid);
      }
  }

  /** What one call of `retrieve_data` can do to the state (see `Stepped`);
      the parsed set can gain only the converter's answer, and only in
      full-text mode. */
  lemma RetrieveStep(mode: Mode, svc: Services, st: State, raw: string)
    ensures Stepped(mode, st, Retrieve(mode, svc, st, raw).state, Strip(raw),
                    if mode.FullText? then svc.convert(Strip(raw)) else None)
  {
    var pmid := Strip(raw);
    NothingWritten(st.table);
    if pmid != "" {
      var st1 := if mode.FullText? then Call(st, Convert(pmid)) else st;
      var pmcid := if mode.FullText? then svc.convert(pmid) else Some("");
      if pmid !in st1.parsed {
        ProcessNewStep(mode, svc, st1, pmid, pmcid);
        var o := ProcessNew(mode, svc, st1, pmid, pmcid).state;
        assert Retrieve(mode, svc, st, raw).state == o;
        assert st.requests <= st1.requests;
      }
    }
  }

  /** A crash after the row was merged but before the checkpoint line was
      written leaves a row without its checkpoint entry; a restarted run
      loads a parsed set without the PMID and writes the same row again
      (at-least-once, not exactly-once). */
  lemma CrashBeforeMarkRewritesRow(mode: Mode, svc: Services, st: State, raw: string)
    requires Strip(raw) !in Loaded(st.checkpoint)
    requires Written(st.table, Retrieve(mode, svc, st, raw).state.table) != []
    ensures var done := Retrieve(mode, svc, st, raw).state;
      var crashed := done.(checkpoint := st.checkpoint);
      var restarted := Resume(crashed);
      var again := Retrieve(mode, svc, restarted, raw).state;
      Written(crashed.table, again.table) == Written(st.table, done.table) &&
      again.checkpoint == Mark(st.checkpoint, Strip(raw))
  {
    var pmid := Strip(raw);
    var done := Retrieve(mode, svc, st, raw).state;
    var crashed := done.(checkpoint := st.checkpoint);
    var restarted := Resume(crashed);
    RetrieveStep(mode, svc, st, raw);
    var st1 := if mode.FullText? then Call(st, Convert(pmid)) else st;
    var rs1 := if mode.FullText? then Call(restarted, Convert(pmid)) else restarted;
    var pmcid := if mode.FullText? then svc.convert(pmid) else Some("");
    match mode
    case FullText =>
      var f := FetchFullText(svc, st1, pmcid.value);
      var g := FetchFullText(svc, rs1, pmcid.value);
      FetchFullTextOutcome(svc, st1, pmcid.value);
      FetchFullTextOutcome(svc, rs1, pmcid.value);
      var text := f.texts.value.1;
      ConcludeOutcome(mode, svc, f.state, pmid, text);
      ConcludeOutcome(mode, svc, g.state, pmid, text);
    case Abstract =>
      var text := svc.fetchPubmed(pmid).value;
      ConcludeOutcome(mode, svc, Call(st1, FetchPubmed(pmid)), pmid, text);
      ConcludeOutcome(mode, svc, Call(rs1, FetchPubmed(pmid)), pmid, text);
  }

  /** The half of at-least-once that needs no assumption about the
      collaborators: after a crash between the merge and the checkpoint line,
      a restarted process (whatever its collaborators answer now) does not
      skip the PMID but processes it as a new one. */
  lemma RestartRetriesCrashedPmid(mode: Mode, svc: Services, svc2: Services, st: State, raw: string)
    requires Strip(raw) != "" && Strip(raw) !in Loaded(st.checkpoint)
    ensures var crashed := Retrieve(mode, svc, st, raw).state.(checkpoint := st.checkpoint);
      var restarted := Resume(crashed);
      var pmid := Strip(raw);
      var rs1 := if mode.FullText? then Call(restarted, Convert(pmid)) else restarted;
      var pmcid := if mode.FullText? then svc2.convert(pmid) else Some("");
      pmid !in restarted.parsed &&
      Retrieve(mode, svc2, restarted, raw) == ProcessNew(mode, svc2, rs1, pmid, pmcid)
  {
  }

  // ----- A whole run -----

  /** Every data row written between `st` and `o` has the fifteen columns,
      the mode's name and a PMID that was not in `st`'s parsed set; the
      parsed set only grows. */
  ghost predicate OnlyNewRows(mode: Mode, st: State, o: State) {
    Grows(st.table, o.table) && st.parsed <= o.parsed &&
    forall r :: r in Written(st.table, o.table) ==>
      |r| == |Fieldnames| && r[0] !in st.parsed && r[1] == mode.Name()
  }

  /** The row facts of one step: at most one row, for `pmid`, which was not
      in the parsed set, with the mode's name. */
  lemma SteppedRows(mode: Mode, st: State, mid: State, pmid: string, pmcid: Option<string>)
    requires Stepped(mode, st, mid, pmid, pmcid)
    ensures Grows(st.table, mid.table) && st.parsed <= mid.parsed
    ensures Written(st.table, mid.table) == [] ||
      (|Written(st.table, mid.table)| == 1 && |Written(st.table, mid.table)[0]| == |Fieldnames| &&
       Written(st.table, mid.table)[0][0] == pmid && pmid !in st.parsed &&
       Written(st.table, mid.table)[0][1] == mode.Name())
  {
  }

  lemma RowsChain(w1: seq<Row>, w2: seq<Row>, p0: set<string>, p1: set<string>, name: string, pmid: string)
    requires p0 <= p1
    requires w1 == [] ||
      (|w1| == 1 && |w1[0]| == |Fieldnames| && w1[0][0] == pmid && pmid !in p0 && w1[0][1] == name)
    requires forall r :: r in w2 ==> |r| == |Fieldnames| && r[0] !in p1 && r[1] == name
    ensures forall r :: r in w1 + w2 ==> |r| == |Fieldnames| && r[0] !in p0 && r[1] == name
  {
    if w1 == [] {
      assert w1 + w2 == w2;
    } else {
      assert w1 == [w1[0]];
    }
  }

  /** Every data row a run writes has the fifteen columns, the run's mode and
      a PMID that was not in the parsed set when the run began. */
  lemma {:induction false} RunSkipsParsed(mode: Mode, svc: Services, st: State, lines: seq<string>)
    ensures OnlyNewRows(mode, st, Run(mode, svc, st, lines).state)
    decreases |lines|
  {
    if lines == [] {
      NothingWritten(st.table);
    } else {
      var pmid := Strip(lines[0]);
      var pmcid := if mode.FullText? then svc.convert(pmid) else None;
      var o1 := Retrieve(mode, svc, st, lines[0]);
      RetrieveStep(mode, svc, st, lines[0]);
      if o1.aborted {
        NothingWritten(o1.state.table);
        SteppedRows(mode, st, o1.state, pmid, pmcid);
        WrittenCompose(st.table, o1.state.table, o1.state.table);
        RowsChain(Written(st.table, o1.state.table), [], st.parsed, o1.state.parsed, mode.Name(), pmid);
      } else {
        var o := Run(mode, svc, o1.state, lines[1..]).state;
        RunSkipsParsed(mode, svc, o1.state, lines[1..]);
        SteppedRows(mode, st, o1.state, pmid, pmcid);
        WrittenCompose(st.table, o1.state.table, o.table);
        RowsChain(Written(st.table, o1.state.table), Written(o1.state.table, o.table),
                  st.parsed, o1.state.parsed, mode.Name(), pmid);
      }
    }
  }

  /** Reloading the checkpoint file `o` holds gives the set `st`'s file
      reloads to plus the PMIDs of the rows written in between. */
  ghost predicate MarksRows(st: State, o: State) {
    Terminated(o.checkpoint) &&
    Loaded(o.checkpoint) == Loaded(st.checkpoint) + Pmids(Written(st.table, o.table))
  }

  lemma SetChain(a: set<string>, b: set<string>, c: set<string>, p1: set<string>, p2: set<string>)
    requires b == a + p1 && c == b + p2
    ensures c == a + (p1 + p2)
  {
  }

  lemma PmidsOfOne(w: seq<Row>, pmid: string)
    requires |w| == 1 && w[0] != [] && w[0][0] == pmid
    ensures Pmids(w) == {pmid}
  {
  }

  /** The checkpoint facts of one step: without a row the file reloads to the
      same set, with one it reloads to that set plus the row's PMID. */
  lemma SteppedCheckpoint(mode: Mode, st: State, mid: State, pmid: string, pmcid: Option<string>)
    requires Terminated(st.checkpoint) && '\n' !in pmid && Strip(pmid) == pmid
    requires Stepped(mode, st, mid, pmid, pmcid)
    ensures Grows(st.table, mid.table)
    ensures Written(st.table, mid.table) == [] ==> Loaded(mid.checkpoint) == Loaded(st.checkpoint)
    ensures Written(st.table, mid.table) != [] ==>
      |Written(st.table, mid.table)| == 1 && Written(st.table, mid.table)[0] != [] &&
      Written(st.table, mid.table)[0][0] == pmid &&
      Loaded(mid.checkpoint) == Loaded(st.checkpoint) + {pmid}
  {
    if Written(st.table, mid.table) != [] {
      ReloadAfterMark(st.checkpoint, pmid);
    }
  }

  lemma MarksChain(a: Table, b: Table, c: Table, ca: TextFile, cb: TextFile, cc: TextFile, pmid: string)
    requires Grows(a, b) && Grows(b, c)
    requires Written(a, b) == [] ==> Loaded(cb) == Loaded(ca)
    requires Written(a, b) != [] ==>
      |Written(a, b)| == 1 && Written(a, b)[0] != [] && Written(a, b)[0][0] == pmid &&
      Loaded(cb) == Loaded(ca) + {pmid}
    requires Loaded(cc) == Loaded(cb) + Pmids(Written(b, c))
    ensures Loaded(cc) == Loaded(ca) + Pmids(Written(a, c))
  {
    WrittenCompose(a, b, c);
    var w1, w2 := Written(a, b), Written(b, c);
    PmidsConcat(w1, w2);
    var p1 := Pmids(w1);
    if w1 == [] {
      assert p1 == {};
    } else {
      PmidsOfOne(w1, pmid);
    }
    SetChain(Loaded(ca), Loaded(cb), Loaded(cc), p1, Pmids(w2));
  }

  lemma MarksRowsCompose(mode: Mode, st: State, mid: State, o: State, pmid: string, pmcid: Option<string>)
    requires Terminated(st.checkpoint) && '\n' !in pmid && Strip(pmid) == pmid
    requires Stepped(mode, st, mid, pmid, pmcid)
    requires Grows(mid.table, o.table) && MarksRows(mid, o)
    ensures MarksRows(st, o)
  {
    SteppedCheckpoint(mode, st, mid, pmid, pmcid);
    MarksChain(st.table, mid.table, o.table, st.checkpoint, mid.checkpoint, o.checkpoint, pmid);
  }

  /** Reloading the checkpoint file a run leaves gives the set loaded before
      it plus the PMIDs of the rows the run wrote, provided the file ended with
      a complete line and no input line holds a '\n' inside it. */
  lemma {:induction false} RunMarksWritten(mode: Mode, svc: Services, st: State, lines: seq<string>)
    requires Terminated(st.checkpoint)
    requires forall k :: 0 <= k < |lines| ==> '\n' !in Strip(lines[k])
    ensures MarksRows(st, Run(mode, svc, st, lines).state)
    decreases |lines|
  {
    NothingWritten(st.table);
    if lines == [] {
      assert Pmids([]) == {};
    } else {
      var pmid := Strip(lines[0]);
      var pmcid := if mode.FullText? then svc.convert(pmid) else None;
      var o1 := Retrieve(mode, svc, st, lines[0]);
      RetrieveStep(mode, svc, st, lines[0]);
      StripIdempotent(lines[0]);
      assert '\n' !in pmid;
      if o1.aborted {
        NothingWritten(o1.state.table);
        assert Pmids([]) == {};
        MarksRowsCompose(mode, st, o1.state, o1.state, pmid, pmcid);
      } else {
        var rest := lines[1..];
        forall k | 0 <= k < |rest| ensures '\n' !in Strip(rest[k]) {
          assert rest[k] == lines[k + 1];
        }
        assert Terminated(o1.state.checkpoint);
        RunMarksWritten(mode, svc, o1.state, rest);
        RunSkipsParsed(mode, svc, o1.state, rest);
        MarksRowsCompose(mode, st, o1.state, Run(mode, svc, o1.state, rest).state, pmid, pmcid);
      }
    }
  }

  /** Lines read from a file strip to identifiers without a '\n'. */
  lemma InputLinesHaveNoNewline(text: string)
    ensures forall k :: 0 <= k < |Lines(text)| ==> '\n' !in Strip(Lines(text)[k])
  {
    LinesShape(text);
    forall k | 0 <= k < |Lines(text)| ensures '\n' !in Strip(Lines(text)[k]) {
      StripRemovesTerminator(Lines(text)[k]);
    }
  }

  /** `StartRun` keeps both run-level facts: its rows are for unparsed
      PMIDs only, and its checkpoint file reloads to the old set plus their
      PMIDs. */
  lemma StartRunFacts(mode: Mode, svc: Services, st: State, input: TextFile)
    requires Terminated(st.checkpoint)
    ensures OnlyNewRows(mode, st, StartRun(mode, svc, st, input).state)
    ensures MarksRows(st, StartRun(mode, svc, st, input).state)
  {
    match input
    case None =>
      NothingWritten(st.table);
      assert Pmids([]) == {};
    case Some(text) =>
      InputLinesHaveNoNewline(text);
      RunSkipsParsed(mode, svc, st, Lines(text));
      RunMarksWritten(mode, svc, st, Lines(text));
  }

  /** The state a fresh process starts from on the files `st` left behind:
      the parsed set reloaded from the checkpoint file, no calls yet. */
  function Resume(st: State): (r: State)
    ensures r.parsed == Loaded(st.checkpoint) && r.requests == []
    ensures r.checkpoint == st.checkpoint && r.table == st.table && r.errorLog == st.errorLog
  {
    State(Loaded(st.checkpoint), st.checkpoint, st.errorLog, st.table, [])
  }

  /** Cross-run idempotence: a second process started on the files a first
      run left behind (with any input, mode and collaborator answers) writes
      no row for a PMID the first run wrote a row for, nor for one the
      checkpoint file held before the first run. */
  lemma ResumedStartSkipsRecorded(
    mode: Mode, svc: Services, input: TextFile,
    mode2: Mode, svc2: Services, input2: TextFile, s0: State)
    requires Terminated(s0.checkpoint)
    ensures var s1 := StartRun(mode, svc, s0, input).state;
      var s2 := Resume(s1);
      var s3 := StartRun(mode2, svc2, s2, input2).state;
      forall r :: r in Written(s2.table, s3.table) ==>
        r != [] && r[0] !in Loaded(s0.checkpoint) && r[0] !in Pmids(Written(s0.table, s1.table))
  {
    var s1 := StartRun(mode, svc, s0, input).state;
    StartRunFacts(mode, svc, s0, input);
    var s2 := Resume(s1);
    StartRunFacts(mode2, svc2, s2, input2);
  }

  // ----- Within one run -----

  /** A successful PMID goes to the checkpoint file but not to the in-memory
      parsed set (in full-text mode the set gains the PMCID instead), so the
      same line met again in the same run writes the same row again and a
      second checkpoint line for it. */
  lemma RepeatedPmidWritesAgain(mode: Mode, svc: Services, st: State, raw: string)
    requires Written(st.table, Retrieve(mode, svc, st, raw).state.table) != []
    requires mode.FullText? ==> svc.convert(Strip(raw)) != Some(Strip(raw))
    ensures var o1 := Retrieve(mode, svc, st, raw).state;
      var o2 := Retrieve(mode, svc, o1, raw).state;
      Strip(raw) !in o1.parsed &&
      Written(o1.table, o2.table) == Written(st.table, o1.table) &&
      o2.checkpoint == Mark(o1.checkpoint, Strip(raw))
  {
    var pmid := Strip(raw);
    var o1 := Retrieve(mode, svc, st, raw).state;
    RetrieveStep(mode, svc, st, raw);
    var st1 := if mode.FullText? then Call(st, Convert(pmid)) else st;
    var os1 := if mode.FullText? then Call(o1, Convert(pmid)) else o1;
    var pmcid := if mode.FullText? then svc.convert(pmid) else Some("");
    match mode
    case FullText =>
      var f := FetchFullText(svc, st1, pmcid.value);
      var g := FetchFullText(svc, os1, pmcid.value);
      FetchFullTextOutcome(svc, st1, pmcid.value);
      FetchFullTextOutcome(svc, os1, pmcid.value);
      var text := f.texts.value.1;
      ConcludeOutcome(mode, svc, f.state, pmid, text);
      ConcludeOutcome(mode, svc, g.state, pmid, text);
    case Abstract =>
      var text := svc.fetchPubmed(pmid).value;
      ConcludeOutcome(mode, svc, Call(st1, FetchPubmed(pmid)), pmid, text);
      ConcludeOutcome(mode, svc, Call(os1, FetchPubmed(pmid)), pmid, text);
  }
}
