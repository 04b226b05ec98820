/**
 Go's encoding/csv as reports.go uses it: the Writer with its defaults, and the Reader with TrimLeadingSpace
 set and any number of fields per record. Quoting follows section 2 of RFC 4180. Text is a sequence of
 characters.
 */
module Csv {
  import opened Wrappers
  import opened Text

  type Fields = seq<string>

  // ---- writing ----

  predicate NeedsQuotes(f: string) {
    f != "" && (f == "\\." || ',' in f || '"' in f || '\r' in f || '\n' in f || IsSpace(f[0]))
  }

  /** Every quote doubled. */
  function Doubled(f: string): string {
    if f == "" then "" else (if f[0] == '"' then "\"\"" else [f[0]]) + Doubled(f[1..])
  }

  function FieldText(f: string): string { if NeedsQuotes(f) then "\"" + Doubled(f) + "\"" else f }

  /** One record as Writer.Write prints it. */
  function Line(fs: Fields): string
    requires fs != []
  {
    if |fs| == 1 then FieldText(fs[0]) + "\n" else FieldText(fs[0]) + "," + Line(fs[1..])
  }

  predicate NonEmpty(records: seq<Fields>) { forall i :: 0 <= i < |records| ==> records[i] != [] }

  function Written(records: seq<Fields>): string
    requires NonEmpty(records)
  {
    if records == [] then "" else Line(records[0]) + Written(records[1..])
  }

  // ---- reading ----

  /** Reader.readLine turns each "\r\n" into "\n". */
  function Norm(s: string): (r: string)
    ensures |r| <= |s|
  {
    if s == "" then ""
    else if |s| >= 2 && s[0] == '\r' && s[1] == '\n' then "\n" + Norm(s[2..])
    else [s[0]] + Norm(s[1..])
  }

  /** A final '\r' is dropped as well. */
  function DropFinalReturn(s: string): string {
    if s != "" && s[|s| - 1] == '\r' then s[..|s| - 1] else s
  }

  /** TrimLeadingSpace, within the line. */
  function SkipSpaces(s: string): (r: string)
    ensures |r| <= |s|
  {
    if s != "" && IsSpace(s[0]) && s[0] != '\n' then SkipSpaces(s[1..]) else s
  }

  /** A bare field reaches up to the next comma or the end of its line. */
  function BareLength(s: string): (n: nat)
    ensures n <= |s| && (n < |s| ==> s[n] == ',' || s[n] == '\n')
  {
    if s == "" || s[0] == ',' || s[0] == '\n' then 0 else 1 + BareLength(s[1..])
  }

  /** The rest of a quoted field: its text and what follows the closing quote. */
  function ReadQuoted(s: string): (r: Result<(string, string)>)
    ensures r.Ok? ==> |r.value.1| < |s|
    decreases |s|
  {
    if s == "" then Err
    else if s[0] != '"' then
      match ReadQuoted(s[1..]) case Err => Err case Ok(p) => Ok(([s[0]] + p.0, p.1))
    else if |s| > 1 && s[1] == '"' then
      match ReadQuoted(s[2..]) case Err => Err case Ok(p) => Ok(("\"" + p.0, p.1))
    else Ok(("", s[1..]))
  }

  /** One field and what follows it; a bare field must not contain a quote. */
  function ReadField(s: string): (r: Result<(string, string)>)
    ensures r.Ok? ==> |r.value.1| <= |s|
  {
    var t := SkipSpaces(s);
    if t != "" && t[0] == '"' then ReadQuoted(t[1..])
    else
      var n := BareLength(t);
      if '"' in t[..n] then Err else Ok((t[..n], t[n..]))
  }

  /** The fields of one record and the text after its line. */
  function ReadRecord(s: string): (r: Result<(Fields, string)>)
    ensures r.Ok? ==> |r.value.1| <= |s| && r.value.0 != []
    decreases |s|
  {
    match ReadField(s)
    case Err => Err
    case Ok(p) =>
      if p.1 == "" then Ok(([p.0], ""))
      else if p.1[0] == '\n' then Ok(([p.0], p.1[1..]))
      else if p.1[0] == ',' then
        match ReadRecord(p.1[1..]) case Err => Err case Ok(q) => Ok(([p.0] + q.0, q.1))
      else Err
  }

  lemma RecordConsumes(s: string)
    requires s != "" && s[0] != '\n' && ReadRecord(s).Ok?
    ensures |ReadRecord(s).value.1| < |s|
  {
    var t := SkipSpaces(s);
    var p := ReadField(s).value;
    if !(t != "" && t[0] == '"') && p.1 == s { assert BareLength(t) == 0 && t == s; }
  }

  /** All records; empty lines are skipped and any error fails the whole read. */
  function ReadAll(s: string): Result<seq<Fields>>
    decreases |s|
  {
    if s == "" then Ok([])
    else if s[0] == '\n' then ReadAll(s[1..])
    else
      match ReadRecord(s)
      case Err => Err
      case Ok(p) =>
        RecordConsumes(s);
        match ReadAll(p.1) case Err => Err case Ok(rest) => Ok([p.0] + rest)
  }

  function ReadCsv(data: string): Result<seq<Fields>> { ReadAll(Norm(DropFinalReturn(data))) }
}
