/** `parseCsvData` (script.js:49-103): a line-oriented CSV parser. The first
    line of the trimmed text names the columns; every later line whose
    comma-split length equals the number of columns becomes a record, unless
    its `year` or `estimatedLoss` value does not parse as a number. */
module CsvParser {
  import opened Options
  import opened JsString
  import opened JsNumber

  /** A value stored in a record: `parseInt` results (`year`, `id`),
      `parseFloat` results (`estimatedLoss`) and text (every other column). */
  datatype Field = IntVal(i: int) | RealVal(r: real) | Text(s: string)

  /** A parsed record: the JavaScript object keyed by column name. */
  type Entry = map<string, Field>

  /** `csvText.trim().split('\n')`. */
  function Lines(csvText: string): (rows: seq<string>)
    ensures |rows| >= 1
  {
    Split(Trim(csvText), '\n')
  }

  /** `values.map(v => v.trim())`. */
  function TrimAll(values: seq<string>): seq<string> {
    seq(|values|, j requires 0 <= j < |values| => Trim(values[j]))
  }

  /** `rows[0].split(',').map(header => header.trim())`. */
  function Headers(csvText: string): seq<string> {
    TrimAll(Split(Lines(csvText)[0], ','))
  }

  /** Removes one pair of surrounding double quotes, as
      `value.substring(1, value.length - 1)` does when the value starts and
      ends with `"`. A lone `"` both starts and ends with `"`, and
      `substring(1, 0)` swaps its arguments, so it is kept as it is. */
  function StripQuotes(value: string): (r: string)
    ensures |value| >= 2 && value[0] == '"' && value[|value| - 1] == '"' ==> r == value[1..|value| - 1]
    ensures !(|value| >= 2 && value[0] == '"' && value[|value| - 1] == '"') ==> r == value
  {
    if StartsWith(value, '"') && EndsWith(value, '"') then Substring(value, 1, |value| - 1) else value
  }

  /** The `id` column: `value ? parseInt(value, 10) : i`, with the line index
      `i` also used when `parseInt` gives `NaN`. */
  function IdValue(value: string, i: int): int {
    if value == "" then i
    else match ParseInt(value)
      case None => i
      case Some(n) => n
  }

  /** Converts one trimmed value by its column name; `None` means the row is
      skipped. */
  function ConvertField(header: string, value: string, i: int): Option<Field> {
    if header == "year" then
      match ParseInt(value)
      case None => None
      case Some(n) => Some(IntVal(n))
    else if header == "estimatedLoss" then
      match ParseFloat(value)
      case None => None
      case Some(x) => Some(RealVal(x))
    else if header == "id" then Some(IntVal(IdValue(value, i)))
    else Some(Text(StripQuotes(value)))
  }

  /** The conversions of the trimmed values of line `i`, column by column. */
  function Conversions(headers: seq<string>, cells: seq<string>, i: int): (convs: seq<Option<Field>>)
    requires |cells| == |headers|
    ensures |convs| == |headers|
  {
    seq(|headers|, j requires 0 <= j < |headers| => ConvertField(headers[j], cells[j], i))
  }

  /** The record built from the first `j` conversions, or `None` once one of
      them has failed (the `hasError` flag and its `break`). A repeated column
      name overwrites the earlier value. */
  function Build(headers: seq<string>, convs: seq<Option<Field>>, j: nat): Option<Entry>
    requires |convs| == |headers| && j <= |headers|
  {
    if j == 0 then Some(map[])
    else match Build(headers, convs, j - 1)
      case None => None
      case Some(entry) =>
        match convs[j - 1]
        case None => None
        case Some(f) => Some(entry[headers[j - 1] := f])
  }

  /** What line `i` contributes: nothing when its field count differs from the
      header count or a conversion fails, otherwise its record. */
  function RowEntry(headers: seq<string>, row: string, i: int): Option<Entry> {
    var values := Split(row, ',');
    if |values| != |headers| then None
    else Build(headers, Conversions(headers, TrimAll(values), i), |headers|)
  }

  /** The outcome of every data line: entry `k` is line `k + 1`. */
  function Outcomes(rows: seq<string>, headers: seq<string>): (outs: seq<Option<Entry>>)
    requires |rows| >= 1
    ensures |outs| == |rows| - 1
  {
    seq(|rows| - 1, k requires 0 <= k < |rows| - 1 => RowEntry(headers, rows[k + 1], k + 1))
  }

  /** The records present among some outcomes, in order. */
  function Somes(outs: seq<Option<Entry>>): seq<Entry> {
    if outs == [] then []
    else Somes(outs[..|outs| - 1]) + (if outs[|outs| - 1].Some? then [outs[|outs| - 1].value] else [])
  }

  /** The positions of the records among some outcomes. */
  function SomeIndices(outs: seq<Option<Entry>>): seq<nat> {
    if outs == [] then []
    else SomeIndices(outs[..|outs| - 1]) + (if outs[|outs| - 1].Some? then [|outs| - 1] else [])
  }

  /** The value `parseCsvData(csvText)` returns. */
  function Parsed(csvText: string): seq<Entry> {
    Somes(Outcomes(Lines(csvText), Headers(csvText)))
  }

  /** The line numbers (the loop index `i`) of the lines that produced the
      records of `Parsed(csvText)`. */
  function SourceLines(csvText: string): (lines: seq<nat>) {
    var kept := SomeIndices(Outcomes(Lines(csvText), Headers(csvText)));
    seq(|kept|, k requires 0 <= k < |kept| => kept[k] + 1)
  }

  /** A conversion that skips the row: `year` failing `parseInt` or
      `estimatedLoss` failing `parseFloat`. */
  predicate NumericFieldFails(header: string, value: string) {
    || (header == "year" && ParseInt(value).None?)
    || (header == "estimatedLoss" && ParseFloat(value).None?)
  }

  /** The value shapes the parser stores under each column name. */
  predicate FieldShape(header: string, f: Field) {
    if header == "year" || header == "id" then f.IntVal?
    else if header == "estimatedLoss" then f.RealVal?
    else f.Text?
  }

  predicate WellTyped(e: Entry) {
    forall h :: h in e ==> FieldShape(h, e[h])
  }

  // ---------------------------------------------------------------------------
  // The imperative parser

  /** `parseCsvData(csvText)`. */
  method ParseCsvData(csvText: string) returns (data: seq<Entry>)
    ensures data == Parsed(csvText)
    ensures |data| <= |Lines(csvText)| - 1
  {
    var rows := Split(Trim(csvText), '\n');
    var headers := TrimAll(Split(rows[0], ','));
    ghost var outs := Outcomes(rows, headers);
    data := [];
    var i := 1;
    while i < |rows|
      invariant 1 <= i <= |rows|
      invariant data == Somes(outs[..i - 1])
      invariant |data| <= i - 1
    {
      var entry, keep := ParseLine(headers, rows[i], i);
      if keep {
        data := data + [entry];
      }
      assert outs[i - 1] == RowEntry(headers, rows[i], i);
      assert outs[..i] == outs[..i - 1] + [outs[i - 1]];
      i := i + 1;
    }
    assert outs[..|rows| - 1] == outs;
  }

  /** The body of the outer loop of `parseCsvData` for line `i`: the line is
      kept (`keep`) with its record `entry` exactly when its field count
      matches and no conversion fails. */
  method ParseLine(headers: seq<string>, row: string, i: int) returns (entry: Entry, keep: bool)
    ensures keep <==> RowEntry(headers, row, i).Some?
    ensures keep ==> RowEntry(headers, row, i) == Some(entry)
  {
    var values := Split(row, ',');
    keep := false;
    entry := map[];
    if |values| == |headers| {
      var hasError;
      entry, hasError := ConvertRow(headers, values, i);
      keep := !hasError;
    }
  }

  /** The inner loop of `parseCsvData`: converts the values of line `i`
      column by column into `entry`, stopping with `hasError` at the first
      `year` or `estimatedLoss` value that does not parse. */
  method ConvertRow(headers: seq<string>, values: seq<string>, i: int) returns (entry: Entry, hasError: bool)
    requires |values| == |headers|
    ensures hasError ==> Build(headers, Conversions(headers, TrimAll(values), i), |headers|).None?
    ensures !hasError ==> Build(headers, Conversions(headers, TrimAll(values), i), |headers|) == Some(entry)
  {
    ghost var convs := Conversions(headers, TrimAll(values), i);
    entry := map[];
    hasError := false;
    var j := 0;
    while j < |headers|
      invariant 0 <= j <= |headers|
      invariant Build(headers, convs, j) == Some(entry)
    {
      var value := Trim(values[j]);
      assert convs[j] == ConvertField(headers[j], value, i);
      var field, ok := ConvertValue(headers[j], value, i);
      BuildStep(headers, convs, j, entry);
      if !ok {
        BuildFailureSticks(headers, convs, j + 1);
        hasError := true;
        break;
      }
      entry := entry[headers[j] := field];
      j := j + 1;
    }
  }

  /** The branch chain inside the inner loop, as statements: the value of
      column `header` converted by the column's rule, with `ok` false when a
      `year` or `estimatedLoss` value does not parse. `ConvertField` is its
      specification. */
  method ConvertValue(header: string, value: string, i: int) returns (field: Field, ok: bool)
    ensures ok <==> ConvertField(header, value, i).Some?
    ensures ok ==> ConvertField(header, value, i) == Some(field)
  {
    ok := true;
    if header == "year" {
      var year := ParseInt(value);
      if year.None? {
        return Text(value), false;
      }
      field := IntVal(year.value);
    } else if header == "estimatedLoss" {
      var loss := ParseFloat(value);
      if loss.None? {
        return Text(value), false;
      }
      field := RealVal(loss.value);
    } else if header == "id" {
      field := IntVal(IdValue(value, i));
    } else {
      field := Text(StripQuotes(value));
    }
  }

  // ---------------------------------------------------------------------------
  // Properties of the record builder

  /** One more column: the record grows by that column's conversion, or
      building fails with it. */
  lemma BuildStep(headers: seq<string>, convs: seq<Option<Field>>, j: nat, entry: Entry)
    requires |convs| == |headers| && j < |headers|
    requires Build(headers, convs, j) == Some(entry)
    ensures convs[j].None? ==> Build(headers, convs, j + 1).None?
    ensures convs[j].Some? ==> Build(headers, convs, j + 1) == Some(entry[headers[j] := convs[j].value])
  {
  }

  /** Once a conversion has failed, the rest of the row is irrelevant. */
  lemma {:induction false} BuildFailureSticks(headers: seq<string>, convs: seq<Option<Field>>, j: nat)
    requires |convs| == |headers| && j <= |headers|
    requires Build(headers, convs, j).None?
    ensures Build(headers, convs, |headers|).None?
    decreases |headers| - j
  {
    if j < |headers| {
      BuildFailureSticks(headers, convs, j + 1);
    }
  }

  /** Building fails exactly when one of the conversions failed. */
  lemma {:induction false} BuildFailsIff(headers: seq<string>, convs: seq<Option<Field>>, j: nat)
    requires |convs| == |headers| && j <= |headers|
    ensures Build(headers, convs, j).None? <==> exists k :: 0 <= k < j && convs[k].None?
  {
    if j > 0 {
      BuildFailsIff(headers, convs, j - 1);
    }
  }

  /** Column `k` is the last of the first `j` columns carrying its name. */
  predicate LastColumn(headers: seq<string>, k: nat, j: nat)
    requires k < j <= |headers|
  {
    forall m :: k < m < j ==> headers[m] != headers[k]
  }

  /** A built record has exactly the column names as keys. */
  lemma {:induction false} BuildKeys(headers: seq<string>, convs: seq<Option<Field>>, j: nat, e: Entry)
    requires |convs| == |headers| && j <= |headers|
    requires Build(headers, convs, j) == Some(e)
    ensures forall h :: h in e <==> h in headers[..j]
  {
    if j > 0 {
      var prev := Build(headers, convs, j - 1).value;
      BuildKeys(headers, convs, j - 1, prev);
      assert headers[..j] == headers[..j - 1] + [headers[j - 1]];
    }
  }

  /** Under each name a built record holds the conversion of the last column
      carrying that name. */
  lemma {:induction false} BuildValues(headers: seq<string>, convs: seq<Option<Field>>, j: nat, e: Entry)
    requires |convs| == |headers| && j <= |headers|
    requires Build(headers, convs, j) == Some(e)
    ensures forall k :: 0 <= k < j && LastColumn(headers, k, j) ==> headers[k] in e && Some(e[headers[k]]) == convs[k]
  {
    if j > 0 {
      var prev := Build(headers, convs, j - 1).value;
      var last := headers[j - 1];
      BuildValues(headers, convs, j - 1, prev);
      assert e == prev[last := convs[j - 1].value];
      forall k | 0 <= k < j && LastColumn(headers, k, j)
        ensures headers[k] in e && Some(e[headers[k]]) == convs[k]
      {
        if k < j - 1 {
          assert LastColumn(headers, k, j - 1);
          assert headers[k] != last;
        }
      }
    }
  }

  /** A record built from conversions of the right shapes is well typed. */
  lemma {:induction false} BuildWellTyped(headers: seq<string>, convs: seq<Option<Field>>, j: nat)
    requires |convs| == |headers| && j <= |headers|
    requires forall k :: 0 <= k < |convs| && convs[k].Some? ==> FieldShape(headers[k], convs[k].value)
    requires Build(headers, convs, j).Some?
    ensures WellTyped(Build(headers, convs, j).value)
  {
    if j > 0 {
      BuildWellTyped(headers, convs, j - 1);
    }
  }

  // ---------------------------------------------------------------------------
  // Properties of the filter over lines

  /** The records among some outcomes and where they come from: one record per
      present outcome, at increasing positions. */
  lemma {:induction false} SomesOrigins(outs: seq<Option<Entry>>)
    ensures var data := Somes(outs);
            var kept := SomeIndices(outs);
            && |data| == |kept| <= |outs|
            && (forall k :: 0 <= k < |kept| ==> kept[k] < |outs| && outs[kept[k]] == Some(data[k]))
            && (forall k, l :: 0 <= k < l < |kept| ==> kept[k] < kept[l])
  {
    if outs != [] {
      var init := outs[..|outs| - 1];
      SomesOrigins(init);
      var kept, kept' := SomeIndices(outs), SomeIndices(init);
      var data, data' := Somes(outs), Somes(init);
      assert |data| == |kept|;
      forall k | 0 <= k < |kept| ensures kept[k] < |outs| && outs[kept[k]] == Some(data[k]) {
        if k < |kept'| {
          assert kept[k] == kept'[k] && data[k] == data'[k];
          assert outs[kept[k]] == init[kept'[k]];
        }
      }
    }
  }

  /** No present outcome is missed, and no absent one is kept. */
  lemma {:induction false} SomeIndicesComplete(outs: seq<Option<Entry>>)
    ensures forall p :: 0 <= p < |outs| ==> (outs[p].Some? <==> p in SomeIndices(outs))
  {
    if outs != [] {
      var init := outs[..|outs| - 1];
      SomeIndicesComplete(init);
      SomesOrigins(init);
      var kept, kept' := SomeIndices(outs), SomeIndices(init);
      forall p | 0 <= p < |outs| ensures outs[p].Some? <==> p in kept {
        if p < |outs| - 1 {
          assert outs[p] == init[p];
          assert p in kept <==> p in kept';
        }
      }
    }
  }

  /** Every record among outcomes that are all well typed is well typed. */
  lemma {:induction false} SomesWellTyped(outs: seq<Option<Entry>>)
    requires forall p :: 0 <= p < |outs| && outs[p].Some? ==> WellTyped(outs[p].value)
    ensures forall k :: 0 <= k < |Somes(outs)| ==> WellTyped(Somes(outs)[k])
  {
    if outs != [] {
      SomesWellTyped(outs[..|outs| - 1]);
    }
  }

  // ---------------------------------------------------------------------------
  // Properties of parseCsvData

  /** The header list is the first line of the trimmed text (everything before
      its first newline) split on commas, each piece trimmed. */
  lemma HeadersOfFirstLine(csvText: string)
    ensures var t := Trim(csvText);
            var first := Lines(csvText)[0];
            && '\n' !in first
            && first == t[..|first|]
            && (|first| == |t| || t[|first|] == '\n')
            && |Headers(csvText)| == |Split(first, ',')|
            && forall j :: 0 <= j < |Headers(csvText)| ==> Headers(csvText)[j] == Trim(Split(first, ',')[j])
  {
    var t := Trim(csvText);
    var rows := Lines(csvText);
    SplitSpec(t, '\n');
    if |rows| > 1 {
      assert t == rows[0] + ['\n'] + Join(rows[1..], '\n');
      assert t[..|rows[0]|] == rows[0];
    }
  }

  /** What a column conversion does with one trimmed value. */
  lemma ConvertFieldCases(header: string, value: string, i: int)
    ensures ConvertField(header, value, i).None? <==> NumericFieldFails(header, value)
    ensures ConvertField(header, value, i).Some? ==> FieldShape(header, ConvertField(header, value, i).value)
  {
  }

  /** A line is dropped exactly when its comma-split length differs from the
      header count, or one of its `year` values fails `parseInt`, or one of
      its `estimatedLoss` values fails `parseFloat`. */
  lemma RowDroppedIff(headers: seq<string>, row: string, i: int)
    ensures var values := Split(row, ',');
            RowEntry(headers, row, i).None? <==>
            (|values| != |headers| ||
             exists k :: 0 <= k < |headers| && NumericFieldFails(headers[k], Trim(values[k])))
  {
    var values := Split(row, ',');
    if |values| == |headers| {
      var convs := Conversions(headers, TrimAll(values), i);
      BuildFailsIff(headers, convs, |headers|);
      forall k | 0 <= k < |headers|
        ensures convs[k].None? <==> NumericFieldFails(headers[k], Trim(values[k]))
      {
        ConvertFieldCases(headers[k], Trim(values[k]), i);
      }
    }
  }

  /** What a kept line stores, column by column: the `parseInt` value for
      `year`, the `parseFloat` value for `estimatedLoss`, for `id` the parsed
      integer or the line index `i` when the value is empty or not numeric,
      and for any other column the trimmed value with one pair of surrounding
      quotes removed. Every column name is a key and nothing else is; a
      repeated name keeps the value of its last column. */
  lemma RecordFields(headers: seq<string>, row: string, i: int, e: Entry)
    requires RowEntry(headers, row, i) == Some(e)
    ensures |Split(row, ',')| == |headers|
    ensures forall h :: h in e <==> h in headers
    ensures forall k :: 0 <= k < |headers| && headers[k] !in headers[k + 1..] ==>
              var v := Trim(Split(row, ',')[k]);
              && (headers[k] == "year" ==> ParseInt(v).Some? && e["year"] == IntVal(ParseInt(v).value))
              && (headers[k] == "estimatedLoss" ==>
                    ParseFloat(v).Some? && e["estimatedLoss"] == RealVal(ParseFloat(v).value))
              && (headers[k] == "id" ==>
                    e["id"] == IntVal(if v == "" || ParseInt(v).None? then i else ParseInt(v).value))
              && (headers[k] != "year" && headers[k] != "estimatedLoss" && headers[k] != "id" ==>
                    e[headers[k]] == Text(StripQuotes(v)))
  {
    var values := Split(row, ',');
    var convs := Conversions(headers, TrimAll(values), i);
    assert headers[..|headers|] == headers;
    BuildKeys(headers, convs, |headers|, e);
    BuildValues(headers, convs, |headers|, e);
    forall k | 0 <= k < |headers| && headers[k] !in headers[k + 1..]
      ensures Some(e[headers[k]]) == ConvertField(headers[k], Trim(values[k]), i)
    {
      forall m | k < m < |headers| ensures headers[m] != headers[k] {
        assert headers[m] == headers[k + 1..][m - k - 1];
      }
      assert LastColumn(headers, k, |headers|);
    }
  }

  /** Each record of `parseCsvData(csvText)` comes from a data line, in line
      order: the line at index `SourceLines(csvText)[k]` (never the header
      line) yields record `k` (so, by `RecordFields`, it has as many
      comma-separated values as there are headers). So there are at most as
      many records as data lines. */
  lemma ParsedOrigins(csvText: string)
    ensures |Parsed(csvText)| == |SourceLines(csvText)| <= |Lines(csvText)| - 1
    ensures forall k :: 0 <= k < |SourceLines(csvText)| ==>
              && 1 <= SourceLines(csvText)[k] < |Lines(csvText)|
              && RowEntry(Headers(csvText), Lines(csvText)[SourceLines(csvText)[k]], SourceLines(csvText)[k])
                 == Some(Parsed(csvText)[k])
    ensures forall k, l :: 0 <= k < l < |SourceLines(csvText)| ==> SourceLines(csvText)[k] < SourceLines(csvText)[l]
  {
    var rows := Lines(csvText);
    var headers := Headers(csvText);
    var outs := Outcomes(rows, headers);
    var kept := SomeIndices(outs);
    var lines := SourceLines(csvText);
    SomesOrigins(outs);
    forall k | 0 <= k < |lines|
      ensures RowEntry(headers, rows[lines[k]], lines[k]) == Some(Parsed(csvText)[k])
    {
      assert lines[k] == kept[k] + 1;
      assert outs[kept[k]] == RowEntry(headers, rows[lines[k]], lines[k]);
    }
  }

  /** Every data line that yields a record is among `SourceLines(csvText)`,
      and no other line is. */
  lemma ParsedComplete(csvText: string)
    ensures forall i :: 1 <= i < |Lines(csvText)| ==>
              (RowEntry(Headers(csvText), Lines(csvText)[i], i).Some? <==> i in SourceLines(csvText))
  {
    var rows := Lines(csvText);
    var headers := Headers(csvText);
    var outs := Outcomes(rows, headers);
    var kept := SomeIndices(outs);
    var lines := SourceLines(csvText);
    SomeIndicesComplete(outs);
    forall i | 1 <= i < |rows| ensures outs[i - 1].Some? <==> i in lines {
      if i - 1 in kept {
        var k :| 0 <= k < |kept| && kept[k] == i - 1;
        assert lines[k] == i;
      }
      if i in lines {
        var k :| 0 <= k < |lines| && lines[k] == i;
        assert kept[k] == i - 1;
      }
    }
    forall i | 1 <= i < |rows| ensures RowEntry(headers, rows[i], i).Some? <==> i in lines {
      assert outs[i - 1] == RowEntry(headers, rows[i], i);
    }
  }

  /** A record built from one line is well typed. */
  lemma RowEntryWellTyped(headers: seq<string>, row: string, i: int)
    requires RowEntry(headers, row, i).Some?
    ensures WellTyped(RowEntry(headers, row, i).value)
  {
    var values := Split(row, ',');
    var cells := TrimAll(values);
    var convs := Conversions(headers, cells, i);
    forall k | 0 <= k < |convs| && convs[k].Some? ensures FieldShape(headers[k], convs[k].value) {
      ConvertFieldCases(headers[k], cells[k], i);
    }
    BuildWellTyped(headers, convs, |headers|);
  }

  /** Every record `parseCsvData` returns stores integers under `year` and
      `id`, a real under `estimatedLoss` and text under every other column. */
  lemma ParsedWellTyped(csvText: string)
    ensures forall k :: 0 <= k < |Parsed(csvText)| ==> WellTyped(Parsed(csvText)[k])
  {
    var rows := Lines(csvText);
    var headers := Headers(csvText);
    var outs := Outcomes(rows, headers);
    forall p | 0 <= p < |outs| && outs[p].Some? ensures WellTyped(outs[p].value) {
      RowEntryWellTyped(headers, rows[p + 1], p + 1);
    }
    SomesWellTyped(outs);
  }
}
