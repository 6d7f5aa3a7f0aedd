/** The extractor's input and output and the record merger: truncation of
    the text sent to the language model, the shape check of its JSON result,
    and the projection of a record onto the fixed CSV schema. */
module Records {
  import opened Wrappers

  /** Longest text sent to the language model, in characters. */
  const MaxChars: nat := 60000

  /** `text[:60000]`. */
  function Truncate(text: string): (r: string)
    ensures r <= text && |r| <= MaxChars
    ensures |text| <= MaxChars ==> r == text
    ensures |text| > MaxChars ==> |r| == MaxChars
  {
    if |text| <= MaxChars then text else text[..MaxChars]
  }

  /** The parsed answer of the language model. A dictionary's values are
      the cell texts the CSV writer produces for them; a string, number or
      boolean is a `Scalar` carrying its Python truth value. */
  datatype Json =
    | Null
    | List(items: seq<Json>)
    | Dict(fields: map<string, string>)
    | Scalar(truthy: bool)

  /** Python's truth value of the parsed answer (`if extracted_data:`). */
  predicate Truthy(j: Json) {
    match j
    case Null => false
    case List(items) => items != []
    case Dict(fields) => fields != map[]
    case Scalar(t) => t
  }

  /** The dictionary the orchestrator goes on with, if any: a truthy answer;
      a list is replaced by its first element; what is then not a dictionary
      is dropped. */
  function Shape(j: Json): (r: Option<map<string, string>>)
  {
    if !Truthy(j) then None
    else
      var first := if j.List? then j.items[0] else j;
      if first.Dict? then Some(first.fields) else None
  }

  /** The answers that yield a record: a non-empty dictionary, or a non-empty
      list whose first element is a dictionary (even an empty one). */
  lemma ShapeAccepts(j: Json, m: map<string, string>)
    ensures Shape(j) == Some(m) <==>
      (j == Dict(m) && m != map[]) || (j.List? && j.items != [] && j.items[0] == Dict(m))
  {
  }

  /** Column order of the output table. */
  const Fieldnames: seq<string> := [
    "pmid", "paper_type", "vaccine_name", "vaccine_name_generated",
    "vaccine_target_pathogen", "vaccine_target_host", "vaccine_model_host",
    "vaccine_delivery_method", "vaccine_manufacturer", "vaccine_storage_method",
    "vaccine_stage", "vaccine_license", "vaccine_antigen",
    "vaccine_formulation", "vaccine_gene"]

  /** One CSV row, as the list of its cells. */
  type Row = seq<string>

  /** `data_dict.get(k, "")`. */
  function Lookup(d: map<string, string>, k: string): string {
    if k in d then d[k] else ""
  }

  /** `clean_row`, in column order. */
  function CleanRow(d: map<string, string>): (row: Row)
    ensures |row| == |Fieldnames|
  {
    seq(|Fieldnames|, i requires 0 <= i < |Fieldnames| => Lookup(d, Fieldnames[i]))
  }

  /** The record with the orchestrator's two fields written over whatever the
      extractor put there. */
  function WithIds(d: map<string, string>, pmid: string, paperType: string): map<string, string> {
    d["pmid" := pmid]["paper_type" := paperType]
  }

  lemma FieldnamesDistinct()
    ensures forall i, j :: 0 <= i < j < |Fieldnames| ==> Fieldnames[i] != Fieldnames[j]
  {
  }

  /** The row read back under the header (as `csv.DictReader` would). */
  function RowAsDict(row: Row): (d: map<string, string>)
    requires |row| == |Fieldnames|
    ensures d.Keys == set k | k in Fieldnames
  {
    FieldnamesDistinct();
    map i | 0 <= i < |Fieldnames| :: Fieldnames[i] := row[i]
  }

  /** Schema completeness: reading a merged row back gives, for every one of
      the fifteen columns, the record's value or "" when the record lacks the
      key, and nothing for keys outside the schema. */
  lemma CleanRowReadsBack(d: map<string, string>)
    ensures RowAsDict(CleanRow(d)) == map k | k in Fieldnames :: Lookup(d, k)
  {
    FieldnamesDistinct();
    var r := RowAsDict(CleanRow(d));
    forall k | k in Fieldnames ensures r[k] == Lookup(d, k) {
      var i :| 0 <= i < |Fieldnames| && Fieldnames[i] == k;
      assert r[Fieldnames[i]] == CleanRow(d)[i];
    }
  }

  /** Every row of fifteen cells is the merge of the dictionary it reads back
      as. */
  lemma RowRoundTrip(row: Row)
    requires |row| == |Fieldnames|
    ensures CleanRow(RowAsDict(row)) == row
  {
    FieldnamesDistinct();
    var d := RowAsDict(row);
    forall i | 0 <= i < |Fieldnames| ensures CleanRow(d)[i] == row[i] {
      assert Fieldnames[i] in d;
    }
  }

  /** Keys outside the schema do not change the row. */
  lemma ExtraKeysIgnored(d: map<string, string>, e: map<string, string>)
    requires forall k :: k in Fieldnames ==> Lookup(d, k) == Lookup(e, k)
    ensures CleanRow(d) == CleanRow(e)
  {
    forall i | 0 <= i < |Fieldnames| ensures CleanRow(d)[i] == CleanRow(e)[i] {
      assert Fieldnames[i] in Fieldnames;
    }
  }

  /** The merged row carries the orchestrator's identifier and mode in its
      first two cells and the extractor's value (or "") in each other one. */
  lemma WithIdsRow(d: map<string, string>, pmid: string, paperType: string)
    ensures var row := CleanRow(WithIds(d, pmid, paperType));
      row[0] == pmid && row[1] == paperType &&
      forall i :: 2 <= i < |Fieldnames| ==> row[i] == Lookup(d, Fieldnames[i])
  {
    FieldnamesDistinct();
  }

  /** The output table: `None` while the file does not exist, else its rows
      (the header included). */
  type Table = Option<seq<Row>>

  /** `merge_json`'s write: the header first when the file did not exist,
      then the row. */
  function AppendRow(table: Table, row: Row): (r: Table)
    ensures r.Some?
  {
    match table
    case None => Some([Fieldnames, row])
    case Some(rows) => Some(rows + [row])
  }
}
