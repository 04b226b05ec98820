/** Reading back what the Writer wrote. */
module CsvRoundTrip {
  import opened Wrappers
  import opened Text
  import opened Csv

  /** s contains "\r\n". */
  predicate HasReturn(s: string) { exists i :: 0 <= i < |s| - 1 && s[i] == '\r' && s[i + 1] == '\n' }

  /** A record whose line is not empty; an empty line would be skipped on reading. */
  predicate Proper(fs: Fields) { fs != [] && fs != [""] }

  predicate AllProper(records: seq<Fields>) { forall i :: 0 <= i < |records| ==> Proper(records[i]) }

  function NormFields(fs: Fields): (r: Fields)
    ensures |r| == |fs| && forall i :: 0 <= i < |fs| ==> r[i] == Norm(fs[i])
  {
    seq(|fs|, i requires 0 <= i < |fs| => Norm(fs[i]))
  }

  function NormRecords(records: seq<Fields>): (r: seq<Fields>)
    ensures |r| == |records| && forall i :: 0 <= i < |records| ==> r[i] == NormFields(records[i])
  {
    seq(|records|, i requires 0 <= i < |records| => NormFields(records[i]))
  }

  // ---- normalising line ends ----

  predicate EndsInReturn(s: string) { s != "" && s[|s| - 1] == '\r' }

  predicate StartsLine(s: string) { s != "" && s[0] == '\n' }

  lemma NormNone(s: string)
    requires s == ""
    ensures Norm(s) == ""
  {}

  lemma NormBreak(s: string, rest: string)
    requires s == "\r\n" + rest
    ensures Norm(s) == "\n" + Norm(rest)
  {
    assert s[2..] == rest;
  }

  lemma NormStep(c: char, rest: string)
    requires !(c == '\r' && StartsLine(rest))
    ensures Norm([c] + rest) == [c] + Norm(rest)
  {
    assert ([c] + rest)[1..] == rest;
  }

  lemma {:induction false} NormAppend(a: string, b: string)
    requires !(EndsInReturn(a) && StartsLine(b))
    ensures Norm(a + b) == Norm(a) + Norm(b)
    decreases |a|
  {
    hide Norm;
    if a == "" {
      NormNone(a);
      assert a + b == b;
    } else if |a| >= 2 && a[0] == '\r' && a[1] == '\n' {
      var rest := a[2..];
      NormAppend(rest, b);
      assert a == "\r\n" + rest && a + b == "\r\n" + (rest + b);
      NormBreak(a, rest);
      NormBreak(a + b, rest + b);
    } else {
      var rest := a[1..];
      NormAppend(rest, b);
      assert a == [a[0]] + rest && a + b == [a[0]] + (rest + b);
      NormStep(a[0], rest);
      NormStep(a[0], rest + b);
    }
  }

  lemma {:induction false} NormWithoutReturn(s: string)
    ensures Norm(s) == s <==> !HasReturn(s)
    decreases |s|
  {
    if s != "" {
      if |s| >= 2 && s[0] == '\r' && s[1] == '\n' {
        assert |Norm(s)| <= |s| - 1;
      } else {
        NormWithoutReturn(s[1..]);
        TailHasReturn(s);
      }
    }
  }

  lemma TailHasReturn(s: string)
    requires s != "" && !(|s| >= 2 && s[0] == '\r' && s[1] == '\n')
    ensures HasReturn(s) <==> HasReturn(s[1..])
  {
    var t := s[1..];
    if HasReturn(s) {
      var i :| 0 <= i < |s| - 1 && s[i] == '\r' && s[i + 1] == '\n';
      assert t[i - 1] == '\r' && t[i - 1 + 1] == '\n';
    }
    if HasReturn(t) {
      var i :| 0 <= i < |t| - 1 && t[i] == '\r' && t[i + 1] == '\n';
      assert s[i + 1] == '\r' && s[i + 1 + 1] == '\n';
    }
  }

  lemma {:induction false} NormKeepsLines(s: string)
    ensures '\n' in Norm(s) <==> '\n' in s
    decreases |s|
  {
    if s != "" {
      if |s| >= 2 && s[0] == '\r' && s[1] == '\n' {
        assert Norm(s)[0] == '\n';
      } else {
        NormKeepsLines(s[1..]);
        assert s == [s[0]] + s[1..];
      }
    }
  }

  lemma {:induction false} NormDoubled(f: string)
    ensures Norm(Doubled(f)) == Doubled(Norm(f))
    decreases |f|
  {
    if f != "" {
      if f[0] == '"' {
        NormDoubled(f[1..]);
        NormAppend("\"\"", Doubled(f[1..]));
      } else if |f| >= 2 && f[0] == '\r' && f[1] == '\n' {
        NormDoubled(f[2..]);
        assert Doubled(f) == "\r" + ("\n" + Doubled(f[2..])) == "\r\n" + Doubled(f[2..]);
        NormAppend("\r\n", Doubled(f[2..]));
      } else {
        NormDoubled(f[1..]);
        assert |f| >= 2 ==> Doubled(f[1..])[0] == f[1];
        NormAppend([f[0]], Doubled(f[1..]));
      }
    }
  }

  lemma NoReturnNorm(f: string)
    requires '\r' !in f
    ensures Norm(f) == f
  {
    NormWithoutReturn(f);
  }

  lemma NormNeedsQuotes(f: string)
    ensures NeedsQuotes(Norm(f)) == NeedsQuotes(f)
  {
    NormWithoutReturn(f);
    if HasReturn(f) {
      var i :| 0 <= i < |f| - 1 && f[i] == '\r' && f[i + 1] == '\n';
      assert '\n' in f;
      NormKeepsLines(f);
    }
  }

  lemma NormFieldText(f: string)
    ensures Norm(FieldText(f)) == FieldText(Norm(f)) && !EndsInReturn(FieldText(f))
  {
    NormNeedsQuotes(f);
    if NeedsQuotes(f) {
      NormDoubled(f);
      NormAppend("\"" + Doubled(f), "\"");
      NormAppend("\"", Doubled(f));
    } else {
      NoReturnNorm(f);
    }
  }

  lemma {:induction false} LineEnds(fs: Fields)
    requires fs != []
    ensures Line(fs) != "" && Line(fs)[|Line(fs)| - 1] == '\n'
  {
    if |fs| > 1 { LineEnds(fs[1..]); }
  }

  lemma LineCons(fs: Fields)
    requires |fs| > 1
    ensures Line(fs) == FieldText(fs[0]) + ("," + Line(fs[1..]))
  {}

  lemma {:induction false} NormLine(fs: Fields)
    requires fs != []
    ensures Norm(Line(fs)) == Line(NormFields(fs))
    decreases |fs|
  {
    NormFieldText(fs[0]);
    if |fs| == 1 {
      BreakAfter(FieldText(fs[0]));
    } else {
      LineCons(fs);
      LineCons(NormFields(fs));
      hide *;
      NormLine(fs[1..]);
      CommaAfter(FieldText(fs[0]), Line(fs[1..]));
      assert NormFields(fs)[1..] == NormFields(fs[1..]);
    }
  }

  lemma CommaAfter(text: string, rest: string)
    requires !EndsInReturn(text)
    ensures Norm(text + ("," + rest)) == Norm(text) + ("," + Norm(rest))
  {
    NormAppend(text, "," + rest);
    NormAppend(",", rest);
  }

  lemma BreakAfter(text: string)
    requires !EndsInReturn(text)
    ensures Norm(text + "\n") == Norm(text) + "\n"
  {
    NormAppend(text, "\n");
  }

  lemma WrittenCons(records: seq<Fields>)
    requires NonEmpty(records) && records != []
    ensures Written(records) == Line(records[0]) + Written(records[1..])
  {}

  lemma {:induction false} WrittenEnds(records: seq<Fields>)
    requires NonEmpty(records)
    ensures !EndsInReturn(Written(records))
  {
    hide Line;
    if records != [] {
      LineEnds(records[0]);
      WrittenEnds(records[1..]);
    }
  }

  lemma NormNoRecords(records: seq<Fields>)
    requires records == []
    ensures NonEmpty(NormRecords(records)) && Norm(Written(records)) == Written(NormRecords(records))
  {}

  lemma {:induction false} NormWritten(records: seq<Fields>)
    requires NonEmpty(records)
    ensures NonEmpty(NormRecords(records)) && Norm(Written(records)) == Written(NormRecords(records))
  {
    hide Line, Written, Norm, EndsInReturn;
    if records == [] {
      NormNoRecords(records);
    } else {
      var first, rest := records[0], records[1..];
      NormWritten(rest);
      NormLine(first);
      NoReturnAtEnd(first);
      NormAppend(Line(first), Written(rest));
      assert NormRecords(records)[1..] == NormRecords(rest);
      WrittenCons(records);
      WrittenCons(NormRecords(records));
    }
  }

  lemma NoReturnAtEnd(fs: Fields)
    requires fs != []
    ensures !EndsInReturn(Line(fs))
  {
    hide Line;
    LineEnds(fs);
  }

  // ---- reading back ----

  predicate EndsField(rest: string) { rest != "" && (rest[0] == ',' || rest[0] == '\n') }

  lemma {:induction false} QuotedBack(f: string, rest: string)
    requires EndsField(rest)
    ensures ReadQuoted(Doubled(f) + "\"" + rest) == Ok((f, rest))
    decreases |f|
  {
    var s := Doubled(f) + "\"" + rest;
    if f == "" {
      assert s == "\"" + rest && s[1..] == rest;
    } else {
      QuotedBack(f[1..], rest);
      var tail := Doubled(f[1..]) + "\"" + rest;
      if f[0] == '"' {
        assert s == "\"\"" + tail && s[2..] == tail;
      } else {
        assert s == [f[0]] + tail && s[1..] == tail;
      }
      assert f == [f[0]] + f[1..];
    }
  }

  lemma {:induction false} BareBack(f: string, rest: string)
    requires ',' !in f && '\n' !in f && EndsField(rest)
    ensures BareLength(f + rest) == |f|
    decreases |f|
  {
    if f == "" {
      assert f + rest == rest;
    } else {
      BareBack(f[1..], rest);
      assert (f + rest)[1..] == f[1..] + rest;
      assert f[0] in f;
    }
  }

  lemma QuotedFieldBack(f: string, rest: string)
    requires NeedsQuotes(f) && EndsField(rest)
    ensures ReadField(FieldText(f) + rest) == Ok((f, rest))
  {
    hide *;
    QuotedBack(f, rest);
    QuotedText(f, rest);
    QuoteOpens(FieldText(f) + rest);
  }

  lemma QuotedText(f: string, rest: string)
    requires NeedsQuotes(f)
    ensures var s := FieldText(f) + rest; s != "" && s[0] == '"' && s[1..] == Doubled(f) + "\"" + rest
  {
    hide NeedsQuotes, Doubled;
  }

  lemma QuoteOpens(s: string)
    requires s != "" && s[0] == '"'
    ensures SkipSpaces(s) == s && ReadField(s) == ReadQuoted(s[1..])
  {
    hide ReadQuoted, BareLength;
  }

  lemma BareFieldBack(f: string, rest: string)
    requires !NeedsQuotes(f) && EndsField(rest)
    ensures ReadField(FieldText(f) + rest) == Ok((f, rest))
  {
    BareBack(f, rest);
    hide BareLength;
    var s := f + rest;
    assert f != "" ==> f[0] in f && s[0] == f[0];
    assert SkipSpaces(s) == s;
    assert s[..|f|] == f && s[|f|..] == rest;
  }

  lemma FieldBack(f: string, rest: string)
    requires EndsField(rest)
    ensures ReadField(FieldText(f) + rest) == Ok((f, rest))
  {
    hide *;
    if NeedsQuotes(f) { QuotedFieldBack(f, rest); } else { BareFieldBack(f, rest); }
  }

  lemma {:induction false} RecordBack(fs: Fields, rest: string)
    requires fs != []
    ensures ReadRecord(Line(fs) + rest) == Ok((fs, rest))
    decreases |fs|
  {
    hide ReadField, FieldText;
    var text, s := FieldText(fs[0]), Line(fs) + rest;
    if |fs| == 1 {
      assert s == text + ("\n" + rest) && ("\n" + rest)[1..] == rest;
      FieldBack(fs[0], "\n" + rest);
      assert fs == [fs[0]];
    } else {
      var after := "," + Line(fs[1..]) + rest;
      assert s == text + after && after[1..] == Line(fs[1..]) + rest;
      FieldBack(fs[0], after);
      RecordBack(fs[1..], rest);
      assert fs == [fs[0]] + fs[1..];
    }
  }

  lemma LineStarts(fs: Fields, rest: string)
    requires Proper(fs)
    ensures Line(fs) + rest != "" && (Line(fs) + rest)[0] != '\n'
  {
    assert fs[0] != "" && !NeedsQuotes(fs[0]) ==> fs[0][0] in fs[0];
  }

  lemma {:induction false} AllBack(records: seq<Fields>)
    requires AllProper(records)
    ensures ReadAll(Written(records)) == Ok(records)
  {
    if records != [] {
      var first, rest := records[0], Written(records[1..]);
      LineStarts(first, rest);
      RecordBack(first, rest);
      AllBack(records[1..]);
      assert records == [first] + records[1..];
    }
  }

  /** Every record comes back, with each "\r\n" inside a field turned into "\n". */
  lemma ReadsBack(records: seq<Fields>)
    requires AllProper(records)
    ensures ReadCsv(Written(records)) == Ok(NormRecords(records))
  {
    NormWritten(records);
    WrittenEnds(records);
    forall i | 0 <= i < |records| ensures Proper(NormRecords(records)[i]) {
      assert NormRecords(records)[i] == NormFields(records[i]);
      assert NormFields(records[i])[0] == Norm(records[i][0]);
      assert records[i] != [""];
    }
    AllBack(NormRecords(records));
  }

  /** The file reads back unchanged exactly when no field contains "\r\n". */
  lemma ReadsBackUnchangedIff(records: seq<Fields>)
    requires AllProper(records)
    ensures ReadCsv(Written(records)) == Ok(records) <==>
            forall i, j :: 0 <= i < |records| && 0 <= j < |records[i]| ==> !HasReturn(records[i][j])
  {
    ReadsBack(records);
    forall i, j | 0 <= i < |records| && 0 <= j < |records[i]|
      ensures NormRecords(records)[i][j] == records[i][j] <==> !HasReturn(records[i][j])
    {
      NormWithoutReturn(records[i][j]);
    }
    if forall i, j :: 0 <= i < |records| && 0 <= j < |records[i]| ==> !HasReturn(records[i][j]) {
      forall i | 0 <= i < |records| ensures NormRecords(records)[i] == records[i] {}
      assert NormRecords(records) == records;
    }
  }

  // ---- what a hand-made file may add ----

  /** Spaces before a field are dropped, quoted or not. */
  lemma SpaceBeforeField(c: char, s: string)
    requires IsSpace(c) && c != '\n'
    ensures ReadField([c] + s) == ReadField(s)
  {
    assert ([c] + s)[1..] == s;
    hide ReadQuoted, BareLength;
    assert SkipSpaces([c] + s) == SkipSpaces(s);
  }

  /** Empty lines are skipped. */
  lemma EmptyLineSkipped(s: string)
    ensures ReadAll("\n" + s) == ReadAll(s)
  {
    assert ("\n" + s)[1..] == s;
    hide ReadRecord;
  }
}
