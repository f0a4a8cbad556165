/** `FileParserService` of backend/src/services/fileParser.service.ts: extension dispatch, the CSV row loop and
    the row normaliser. Reading the file, the CSV tokenizer, `String(...)`, `parseFloat` and `new Date(...)`
    belong to the host and are parameters. */
module FileParser {
  import opened Wrappers
  import opened Text
  import opened Json

  /** A row object (`ParsedRow`, or the raw `data` object of a CSV line). */
  type Row = map<string, Value>

  /** The raw row as `Object.keys(data)` lists it: keys in order, each with its value. */
  type Entries = seq<(string, Value)>

  /** Conversions the host provides: `String(v)`, `parseFloat(s)` (`None` for `NaN`) and
      `new Date(v).getTime()` (`None` for an invalid date). */
  datatype Host = Host(text: Value -> string, parseNumber: string -> Option<real>, parseDate: Value -> Option<int>)

  /** Why a row was rejected. */
  datatype RowError =
    | MissingTransactionId
    | MissingAmount
    | MissingDate
    | InvalidAmount(amount: Value)
    | InvalidDate(date: Value)

  /** The `error.message` recorded for a rejected row. */
  function Message(e: RowError, host: Host): string {
    match e
    case MissingTransactionId => "Missing transaction ID"
    case MissingAmount => "Missing amount"
    case MissingDate => "Missing date"
    case InvalidAmount(v) => "Invalid amount: " + host.text(v)
    case InvalidDate(v) => "Invalid date: " + host.text(v)
  }

  /** `s` with its leading white space removed. */
  function DropSpaces(s: string): (r: string)
    ensures |r| <= |s| && r == s[|s| - |r|..]
    ensures r == [] || !IsSpace(r[0])
  {
    if s != [] && IsSpace(s[0]) then DropSpaces(s[1..]) else s
  }

  /** `s.replace(/\s+/g, '_')`: every maximal run of white space becomes one underscore. */
  function CollapseSpaces(s: string): (r: string)
    ensures forall c :: c in r ==> !IsSpace(c)
    ensures forall c :: c in r ==> c in s || c == '_'
    ensures (forall c :: c in s ==> !IsSpace(c)) ==> r == s
    decreases |s|
  {
    if s == [] then []
    else if IsSpace(s[0]) then
      var rest := DropSpaces(s[1..]);
      assert forall c :: c in rest ==> c in s;
      "_" + CollapseSpaces(rest)
    else
      assert forall c :: c in s[1..] ==> c in s;
      [s[0]] + CollapseSpaces(s[1..])
  }

  /** `key.trim().toLowerCase().replace(/\s+/g, '_')`. */
  function NormalizeKey(key: string): (r: string)
    ensures forall c :: c in r ==> !IsSpace(c) && !('A' <= c <= 'Z')
  {
    var lowered := Lower(Trim(key));
    assert forall c :: c in lowered ==> !('A' <= c <= 'Z');
    CollapseSpaces(lowered)
  }

  /** Normalising a normalised column name changes nothing. */
  lemma NormalizeKeyIdempotent(key: string)
    ensures NormalizeKey(NormalizeKey(key)) == NormalizeKey(key)
  {
    var k := NormalizeKey(key);
    TrimWithoutSpace(k);
    LowerWithoutUpper(k);
    assert Lower(Trim(k)) == k;
    assert CollapseSpaces(k) == k;
  }

  /** The `Object.keys(data).forEach` loop as a function of the entries: each entry is stored under its
      normalised key, overwriting what an earlier entry left there. */
  function NormalizedOf(data: Entries): Row
    decreases |data|
  {
    if data == [] then map[]
    else NormalizedOf(data[..|data| - 1])[NormalizeKey(data[|data| - 1].0) := data[|data| - 1].1]
  }

  /** The normalised row has exactly the normalised names of the columns. */
  lemma {:induction false} NormalizedKeys(data: Entries, k: string)
    ensures k in NormalizedOf(data) <==> exists i :: 0 <= i < |data| && NormalizeKey(data[i].0) == k
    decreases |data|
  {
    if data != [] {
      var init := data[..|data| - 1];
      NormalizedKeys(init, k);
      if k in NormalizedOf(init) {
        var i :| 0 <= i < |init| && NormalizeKey(init[i].0) == k;
        assert data[i] == init[i];
      }
      if exists i :: 0 <= i < |data| && NormalizeKey(data[i].0) == k {
        var i :| 0 <= i < |data| && NormalizeKey(data[i].0) == k;
        if i < |data| - 1 {
          assert data[i] == init[i];
        }
      }
    }
  }

  /** When two columns normalise to the same name, the later one wins. */
  lemma {:induction false} LastColumnWins(data: Entries, i: nat)
    requires i < |data|
    requires forall j :: i < j < |data| ==> NormalizeKey(data[j].0) != NormalizeKey(data[i].0)
    ensures NormalizeKey(data[i].0) in NormalizedOf(data)
    ensures NormalizedOf(data)[NormalizeKey(data[i].0)] == data[i].1
    decreases |data|
  {
    if i < |data| - 1 {
      var init := data[..|data| - 1];
      assert init[i] == data[i];
      forall j | i < j < |init| ensures NormalizeKey(init[j].0) != NormalizeKey(init[i].0) {
        assert init[j] == data[j];
      }
      LastColumnWins(init, i);
    }
  }

  /** Every key of a normalised row is a normalised name: trimmed, lower case, without white space. */
  lemma NormalizedKeysAreNormal(data: Entries, k: string)
    ensures k in NormalizedOf(data) ==> NormalizeKey(k) == k
    ensures k in NormalizedOf(data) ==> forall c :: c in k ==> !IsSpace(c) && !('A' <= c <= 'Z')
  {
    NormalizedKeys(data, k);
    if k in NormalizedOf(data) {
      var i :| 0 <= i < |data| && NormalizeKey(data[i].0) == k;
      NormalizeKeyIdempotent(data[i].0);
    }
  }

  /** `transaction_id || transactionid || txn_id || id`. */
  function TransactionIdOf(n: Row): Value {
    FirstTruthy([Get(n, "transaction_id"), Get(n, "transactionid"), Get(n, "txn_id"), Get(n, "id")])
  }

  /** `reference_number || referencenumber || reference || ref_number || ref || transactionId`. */
  function ReferenceOf(n: Row): Value {
    FirstTruthy([Get(n, "reference_number"), Get(n, "referencenumber"), Get(n, "reference"), Get(n, "ref_number"),
                 Get(n, "ref"), TransactionIdOf(n)])
  }

  /** `amount || value || transaction_amount`. */
  function AmountOf(n: Row): Value {
    FirstTruthy([Get(n, "amount"), Get(n, "value"), Get(n, "transaction_amount")])
  }

  /** `date || transaction_date || txn_date`. */
  function DateOf(n: Row): Value {
    FirstTruthy([Get(n, "date"), Get(n, "transaction_date"), Get(n, "txn_date")])
  }

  /** `description || desc || narration`. */
  function DescriptionOf(n: Row): Value {
    FirstTruthy([Get(n, "description"), Get(n, "desc"), Get(n, "narration")])
  }

  /** `source_system || source || system`. */
  function SourceSystemOf(n: Row): Value {
    FirstTruthy([Get(n, "source_system"), Get(n, "source"), Get(n, "system")])
  }

  /** `amount === undefined || amount === null || amount === ''`. */
  predicate IsMissing(v: Value) {
    v == Undef || v == Null || v == Str("")
  }

  /** `cond ? String(v).trim() : undefined`. */
  function OptionalText(v: Value, host: Host): Value {
    if Truthy(v) then Str(Trim(host.text(v))) else Undef
  }

  /** The computed fields of a parsed row. */
  function Computed(n: Row, amount: real, date: int, host: Host): Row {
    map["transactionId" := Str(Trim(host.text(TransactionIdOf(n)))),
        "referenceNumber" := Str(Trim(host.text(ReferenceOf(n)))),
        "amount" := Num(amount),
        "date" := Date(date),
        "description" := OptionalText(DescriptionOf(n), host),
        "sourceSystem" := OptionalText(SourceSystemOf(n), host)]
  }

  /** Everything `parseRow` does after normalising the keys: the checks, in their order, then the
      computed fields with the normalised columns spread over them. */
  function BuildRow(n: Row, host: Host): Result<Row, RowError>
  {
    var txn := TransactionIdOf(n);
    var amount := AmountOf(n);
    var date := DateOf(n);
    if !Truthy(txn) then Failure(MissingTransactionId)
    else if IsMissing(amount) then Failure(MissingAmount)
    else if !Truthy(date) then Failure(MissingDate)
    else
      match host.parseNumber(Remove(host.text(amount), {','}))
      case None => Failure(InvalidAmount(amount))
      case Some(x) =>
        match host.parseDate(date)
        case None => Failure(InvalidDate(date))
        case Some(ms) => Success(Computed(n, x, ms, host) + n)
  }

  /** `parseRow(data)` as a function of the raw entries. */
  function RowOf(data: Entries, host: Host): Result<Row, RowError> {
    BuildRow(NormalizedOf(data), host)
  }

  /** `parseRow`: the key-normalising loop, then the checks and the computed fields. */
  method ParseRow(data: Entries, host: Host) returns (r: Result<Row, RowError>)
    ensures r == RowOf(data, host)
  {
    var normalized: Row := map[];
    for i := 0 to |data|
      invariant normalized == NormalizedOf(data[..i])
    {
      assert data[..i + 1][..i] == data[..i];
      normalized := normalized[NormalizeKey(data[i].0) := data[i].1];
    }
    assert data[..|data|] == data;
    r := BuildRow(normalized, host);
  }

  /** The checks of `parseRow`, in their order: the first one that fails names the error, and a row passes
      exactly when all of them hold. */
  lemma BuildRowChecks(n: Row, host: Host)
    ensures var r := BuildRow(n, host);
            var amountText := Remove(host.text(AmountOf(n)), {','});
            && (r == Failure(MissingTransactionId) <==> !Truthy(TransactionIdOf(n)))
            && (r == Failure(MissingAmount) <==> Truthy(TransactionIdOf(n)) && IsMissing(AmountOf(n)))
            && (r == Failure(MissingDate) <==>
                  Truthy(TransactionIdOf(n)) && !IsMissing(AmountOf(n)) && !Truthy(DateOf(n)))
            && (r == Failure(InvalidAmount(AmountOf(n))) <==>
                  Truthy(TransactionIdOf(n)) && !IsMissing(AmountOf(n)) && Truthy(DateOf(n))
                  && host.parseNumber(amountText).None?)
            && (r == Failure(InvalidDate(DateOf(n))) <==>
                  Truthy(TransactionIdOf(n)) && !IsMissing(AmountOf(n)) && Truthy(DateOf(n))
                  && host.parseNumber(amountText).Some? && host.parseDate(DateOf(n)).None?)
            && (r.Success? <==>
                  Truthy(TransactionIdOf(n)) && !IsMissing(AmountOf(n)) && Truthy(DateOf(n))
                  && host.parseNumber(amountText).Some? && host.parseDate(DateOf(n)).Some?)
  {
  }

  /** On success the row is the computed fields with the normalised columns spread over them. */
  lemma SuccessValue(n: Row, host: Host)
    requires BuildRow(n, host).Success?
    ensures host.parseNumber(Remove(host.text(AmountOf(n)), {','})).Some? && host.parseDate(DateOf(n)).Some?
    ensures BuildRow(n, host).value ==
              Computed(n, host.parseNumber(Remove(host.text(AmountOf(n)), {','})).value, host.parseDate(DateOf(n)).value, host) + n
  {
  }

  /** The names of the computed fields. */
  const ComputedFields: set<string> := {"transactionId", "referenceNumber", "amount", "date", "description", "sourceSystem"}

  lemma ComputedKeys(n: Row, x: real, ms: int, host: Host)
    ensures Computed(n, x, ms, host).Keys == ComputedFields
  {
  }

  /** A parsed row has the normalised columns and the six computed fields, and nothing else. */
  lemma ParsedRowKeys(n: Row, host: Host)
    ensures var r := BuildRow(n, host);
            r.Success? ==> r.value.Keys == n.Keys + ComputedFields
  {
    var r := BuildRow(n, host);
    if r.Success? {
      SuccessValue(n, host);
      var x, ms := host.parseNumber(Remove(host.text(AmountOf(n)), {','})).value, host.parseDate(DateOf(n)).value;
      ComputedKeys(n, x, ms, host);
      SpreadOver(r.value, Computed(n, x, ms, host), n);
    }
  }

  /** A parsed row keeps every normalised column unchanged. */
  lemma ParsedRowKeepsColumns(n: Row, host: Host)
    ensures var r := BuildRow(n, host);
            r.Success? ==> forall k :: k in n ==> k in r.value && r.value[k] == n[k]
  {
    var r := BuildRow(n, host);
    if r.Success? {
      SuccessValue(n, host);
      var x, ms := host.parseNumber(Remove(host.text(AmountOf(n)), {','})).value, host.parseDate(DateOf(n)).value;
      SpreadOver(r.value, Computed(n, x, ms, host), n);
    }
  }

  lemma ComputedAmountDate(n: Row, x: real, ms: int, host: Host, c: Row)
    requires c == Computed(n, x, ms, host)
    ensures "amount" in c && c["amount"] == Num(x)
    ensures "date" in c && c["date"] == Date(ms)
  {
  }

  /** `{...c, ...n}`: the keys of both, the values of `n` winning. */
  lemma SpreadOver(v: Row, c: Row, n: Row)
    requires v == c + n
    ensures v.Keys == c.Keys + n.Keys
    ensures forall k :: k in n ==> v[k] == n[k]
    ensures forall k :: k in c && k !in n ==> v[k] == c[k]
  {
  }

  /** No normalised column has an upper-case letter in its name. */
  lemma UpperCaseNeverColumn(data: Entries, k: string, i: nat)
    requires i < |k| && 'A' <= k[i] <= 'Z'
    ensures k !in NormalizedOf(data)
  {
    NormalizedKeysAreNormal(data, k);
    assert k[i] in k;
  }

  /** In particular no normalised column is named `transactionId`, `referenceNumber` or `sourceSystem`. */
  lemma CamelCaseNamesNeverColumns(data: Entries)
    ensures var n := NormalizedOf(data);
            "transactionId" !in n && "referenceNumber" !in n && "sourceSystem" !in n
  {
    UpperCaseNeverColumn(data, "transactionId", 11);
    UpperCaseNeverColumn(data, "referenceNumber", 9);
    UpperCaseNeverColumn(data, "sourceSystem", 6);
  }

  /** The computed `transactionId`, `referenceNumber` and `sourceSystem` survive the spread of a row that has
      no column of that name. */
  lemma CamelCaseFieldsKept(n: Row, host: Host)
    requires "transactionId" !in n && "referenceNumber" !in n && "sourceSystem" !in n
    ensures var r := BuildRow(n, host);
            r.Success? ==>
              && r.value["transactionId"] == Str(Trim(host.text(TransactionIdOf(n))))
              && r.value["referenceNumber"] == Str(Trim(host.text(ReferenceOf(n))))
              && r.value["sourceSystem"] == OptionalText(SourceSystemOf(n), host)
  {
    var r := BuildRow(n, host);
    if r.Success? {
      SuccessValue(n, host);
      var x, ms := host.parseNumber(Remove(host.text(AmountOf(n)), {','})).value, host.parseDate(DateOf(n)).value;
      var c := Computed(n, x, ms, host);
      ComputedCamelCase(n, x, ms, host, c);
      SpreadOver(r.value, c, n);
    }
  }

  lemma ComputedCamelCase(n: Row, x: real, ms: int, host: Host, c: Row)
    requires c == Computed(n, x, ms, host)
    ensures "transactionId" in c && c["transactionId"] == Str(Trim(host.text(TransactionIdOf(n))))
    ensures "referenceNumber" in c && c["referenceNumber"] == Str(Trim(host.text(ReferenceOf(n))))
    ensures "sourceSystem" in c && c["sourceSystem"] == OptionalText(SourceSystemOf(n), host)
  {
  }

  /** Hence in every parsed row the computed `transactionId`, `referenceNumber` and `sourceSystem` survive. */
  lemma CamelCaseFieldsSurvive(data: Entries, host: Host)
    ensures var n := NormalizedOf(data);
            var r := RowOf(data, host);
            r.Success? ==>
              && r.value["transactionId"] == Str(Trim(host.text(TransactionIdOf(n))))
              && r.value["referenceNumber"] == Str(Trim(host.text(ReferenceOf(n))))
              && r.value["sourceSystem"] == OptionalText(SourceSystemOf(n), host)
  {
    CamelCaseNamesNeverColumns(data);
    CamelCaseFieldsKept(NormalizedOf(data), host);
  }

  /** A column that normalises to `amount` or `date` replaces the parsed value with its raw cell; without
      one, the parsed number is stored. */
  lemma LowerCaseFieldsOverridden(n: Row, host: Host)
    ensures var r := BuildRow(n, host);
            r.Success? ==>
              && ("amount" in n ==> r.value["amount"] == n["amount"])
              && ("amount" !in n ==> r.value["amount"] == Num(host.parseNumber(Remove(host.text(AmountOf(n)), {','})).value))
              && ("date" in n ==> r.value["date"] == n["date"])
              && ("date" !in n ==> r.value["date"] == Date(host.parseDate(DateOf(n)).value))
  {
    AmountColumnOverrides(n, host);
    DateColumnOverrides(n, host);
  }

  lemma AmountColumnOverrides(n: Row, host: Host)
    ensures var r := BuildRow(n, host);
            r.Success? ==>
              && ("amount" in n ==> r.value["amount"] == n["amount"])
              && ("amount" !in n ==> r.value["amount"] == Num(host.parseNumber(Remove(host.text(AmountOf(n)), {','})).value))
  {
    var r := BuildRow(n, host);
    if r.Success? {
      SuccessValue(n, host);
      var x, ms := host.parseNumber(Remove(host.text(AmountOf(n)), {','})).value, host.parseDate(DateOf(n)).value;
      var c := Computed(n, x, ms, host);
      ComputedAmountDate(n, x, ms, host, c);
      SpreadOver(r.value, c, n);
    }
  }

  lemma DateColumnOverrides(n: Row, host: Host)
    ensures var r := BuildRow(n, host);
            r.Success? ==>
              && ("date" in n ==> r.value["date"] == n["date"])
              && ("date" !in n ==> r.value["date"] == Date(host.parseDate(DateOf(n)).value))
  {
    var r := BuildRow(n, host);
    if r.Success? {
      SuccessValue(n, host);
      var x, ms := host.parseNumber(Remove(host.text(AmountOf(n)), {','})).value, host.parseDate(DateOf(n)).value;
      var c := Computed(n, x, ms, host);
      ComputedAmountDate(n, x, ms, host, c);
      SpreadOver(r.value, c, n);
    }
  }

  /** Without a truthy reference column the reference number falls back to the transaction id. */
  lemma ReferenceFallsBackToTransactionId(n: Row)
    requires !Truthy(Get(n, "reference_number")) && !Truthy(Get(n, "referencenumber")) && !Truthy(Get(n, "reference"))
    requires !Truthy(Get(n, "ref_number")) && !Truthy(Get(n, "ref"))
    ensures ReferenceOf(n) == TransactionIdOf(n)
  {
    var vs := [Get(n, "reference_number"), Get(n, "referencenumber"), Get(n, "reference"), Get(n, "ref_number"),
               Get(n, "ref"), TransactionIdOf(n)];
    FirstTruthySkipsFalsy(vs, 5);
    assert vs[5..] == [TransactionIdOf(n)];
  }

  /** A rejected CSV line: its 1-based number and the error. */
  datatype RowFailure = RowFailure(row: nat, error: RowError)

  /** `ParseResult`. */
  datatype ParseResult = ParseResult(rows: seq<Row>, totalRows: nat, errors: seq<RowFailure>)

  /** What `parseRow` makes of each line, in order. */
  function Outcomes(lines: seq<Entries>, host: Host): (r: seq<Result<Row, RowError>>)
    ensures |r| == |lines|
    decreases |lines|
  {
    if lines == [] then [] else Outcomes(lines[..|lines| - 1], host) + [RowOf(lines[|lines| - 1], host)]
  }

  /** The CSV `data` handler after the per-line outcomes `outs`: each line increments the row number and
      lands in `rows` or in `errors`. */
  function CsvOf(outs: seq<Result<Row, RowError>>): (p: ParseResult)
    ensures p.totalRows == |outs| && |p.rows| + |p.errors| == |outs|
    ensures forall e :: e in p.errors ==> 1 <= e.row <= |outs| && outs[e.row - 1] == Failure(e.error)
    ensures forall i, j :: 0 <= i < j < |p.errors| ==> p.errors[i].row < p.errors[j].row
    decreases |outs|
  {
    if outs == [] then ParseResult([], 0, [])
    else
      var prev := CsvOf(outs[..|outs| - 1]);
      assert forall i :: 0 <= i < |outs| - 1 ==> outs[..|outs| - 1][i] == outs[i];
      match outs[|outs| - 1]
      case Success(row) => ParseResult(prev.rows + [row], |outs|, prev.errors)
      case Failure(e) => ParseResult(prev.rows, |outs|, prev.errors + [RowFailure(|outs|, e)])
  }

  /** `parseCsv`: the row loop over the lines the CSV reader emits. */
  method ParseCsv(lines: seq<Entries>, host: Host) returns (result: ParseResult)
    ensures result == CsvOf(Outcomes(lines, host))
  {
    var rows: seq<Row> := [];
    var errors: seq<RowFailure> := [];
    var rowNumber := 0;
    while rowNumber < |lines|
      invariant 0 <= rowNumber <= |lines|
      invariant ParseResult(rows, rowNumber, errors) == CsvOf(Outcomes(lines[..rowNumber], host))
    {
      var data := lines[rowNumber];
      assert lines[..rowNumber + 1][..rowNumber] == lines[..rowNumber];
      var parsed := ParseRow(data, host);
      ghost var outs := Outcomes(lines[..rowNumber + 1], host);
      assert outs == Outcomes(lines[..rowNumber], host) + [parsed];
      assert outs[..rowNumber] == Outcomes(lines[..rowNumber], host);
      rowNumber := rowNumber + 1;
      if parsed.Success? {
        rows := rows + [parsed.value];
      } else {
        errors := errors + [RowFailure(rowNumber, parsed.error)];
      }
    }
    assert lines[..rowNumber] == lines;
    result := ParseResult(rows, rowNumber, errors);
  }

  /** `p` without its trailing slashes. */
  function StripTrailingSlashes(p: string): (r: string)
    ensures |r| <= |p| && r == p[..|r|]
    ensures r == [] || r[|r| - 1] != '/'
  {
    if p != [] && p[|p| - 1] == '/' then StripTrailingSlashes(p[..|p| - 1]) else p
  }

  /** The last path segment. */
  function BaseName(p: string): (r: string)
    ensures '/' !in r
  {
    AfterLast(StripTrailingSlashes(p), '/')
  }

  /** `path.extname(p)` (POSIX): from the last dot of the last segment to its end; empty when the segment
      has no dot, starts with its only dot, or is `..`. */
  function ExtName(p: string): (r: string)
    ensures r == [] || (r[0] == '.' && '.' !in r[1..] && '/' !in r)
  {
    var b := BaseName(p);
    match LastIndexOf(b, '.')
    case None => ""
    case Some(d) => if d == 0 || b == ".." then "" else b[d..]
  }

  /** The last segment of `stem + ext`, when `ext` has no slash and `stem` does not end in one, is the last
      segment of `stem` followed by `ext`; it is not empty. */
  lemma BaseNameOfJoin(stem: string, ext: string)
    requires stem != [] && stem[|stem| - 1] != '/'
    requires ext != [] && '/' !in ext
    ensures AfterLast(stem, '/') != []
    ensures BaseName(stem + ext) == AfterLast(stem, '/') + ext
  {
    var p := stem + ext;
    assert p[|p| - 1] == ext[|ext| - 1] && ext[|ext| - 1] in ext;
    assert StripTrailingSlashes(p) == p;
    LastIndexOfAppend(stem, ext, '/');
    match LastIndexOf(stem, '/')
    case None =>
    case Some(i) =>
      assert i + 1 < |stem|;
      assert p[i + 1..] == stem[i + 1..] + ext;
  }

  /** Appending an extension to a name whose last segment is not empty gives that extension back. */
  lemma ExtNameOfJoin(stem: string, ext: string)
    requires stem != [] && stem[|stem| - 1] != '/'
    requires |ext| >= 2 && ext[0] == '.' && '.' !in ext[1..] && '/' !in ext
    ensures ExtName(stem + ext) == ext
  {
    BaseNameOfJoin(stem, ext);
    var s := AfterLast(stem, '/');
    LastDotOfJoin(s, ext);
    assert (s + ext)[|s|..] == ext;
    assert |s + ext| >= 3;
  }

  /** The last dot of `s + ext` is the one `ext` starts with. */
  lemma LastDotOfJoin(s: string, ext: string)
    requires ext != [] && ext[0] == '.' && '.' !in ext[1..]
    ensures LastIndexOf(s + ext, '.') == Some(|s|)
  {
    assert s + ext == (s + ".") + ext[1..];
    LastIndexOfAppend(s + ".", ext[1..], '.');
  }

  /** The file formats `parseFile` accepts. Parsing Excel workbooks is not part of this model. */
  datatype Format = Csv | Excel

  /** The dispatch of `parseFile` on the lower-cased extension. */
  function FormatOf(filePath: string): (r: Result<Format, string>)
    ensures r == Success(Csv) <==> Lower(ExtName(filePath)) == ".csv"
    ensures r == Success(Excel) <==> Lower(ExtName(filePath)) in {".xlsx", ".xls"}
    ensures r.Failure? ==> r.error == "Unsupported file format: " + Lower(ExtName(filePath))
  {
    var ext := Lower(ExtName(filePath));
    if ext == ".csv" then Success(Csv)
    else if ext == ".xlsx" || ext == ".xls" then Success(Excel)
    else Failure("Unsupported file format: " + ext)
  }

  /** A name with an extension is dispatched on that extension, in any letter case. */
  lemma FormatOfJoin(stem: string, ext: string)
    requires stem != [] && stem[|stem| - 1] != '/'
    requires |ext| >= 2 && ext[0] == '.' && '.' !in ext[1..] && '/' !in ext
    ensures Lower(ext) == ".csv" ==> FormatOf(stem + ext) == Success(Csv)
    ensures Lower(ext) in {".xlsx", ".xls"} ==> FormatOf(stem + ext) == Success(Excel)
    ensures Lower(ext) !in {".csv", ".xlsx", ".xls"} ==> FormatOf(stem + ext) == Failure("Unsupported file format: " + Lower(ext))
  {
    ExtNameOfJoin(stem, ext);
  }

  /** A name whose last segment has no dot is refused with an empty extension. */
  lemma NoDotRefused(p: string)
    requires '.' !in BaseName(p)
    ensures FormatOf(p) == Failure("Unsupported file format: ")
  {
    assert ExtName(p) == "";
    assert Lower("") == "";
    assert "Unsupported file format: " + "" == "Unsupported file format: ";
  }

  /** So is a name whose last segment starts with its only dot (`uploads/.csv`). */
  lemma DotFileRefused(p: string)
    requires BaseName(p) != [] && BaseName(p)[0] == '.' && '.' !in BaseName(p)[1..]
    ensures FormatOf(p) == Failure("Unsupported file format: ")
  {
    var b := BaseName(p);
    assert b == "." + b[1..];
    LastIndexOfAppend(".", b[1..], '.');
    assert ExtName(p) == "";
    assert Lower("") == "";
    assert "Unsupported file format: " + "" == "Unsupported file format: ";
  }
}
