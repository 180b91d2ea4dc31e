/** ExampleParser and its two variants (src/DataProviders/TextLoader.cpp,
    lines 14-46 and 172-266): turning one data line into one Example. */
module Parsers {
  import opened Records
  import opened Text
  import opened Schema

  /** How feature columns are read: dense rows hold one column per feature
      (at `parseIndices`), sparse rows hold `index:value` tokens from column
      `featureColumnOffset` on. */
  datatype Layout =
    | DenseLayout(parseIndices: seq<nat>)
    | SparseLayout(featureColumnOffset: nat)

  /** The fields of an ExampleParser, fixed at construction. An empty label
      map means labels are read as floats. */
  datatype Parser = Parser(
    dimension: nat,
    labelCol: int,
    weightCol: int,
    nameCol: int,
    separator: char,
    labelMap: map<string, real>,
    numbers: Numbers,
    layout: Layout)

  /** What the constructors guarantee about a parser's layout. */
  ghost predicate Valid(p: Parser) {
    match p.layout
    case DenseLayout(parseIndices) => StrictlyIncreasing(parseIndices) && |parseIndices| == p.dimension
    case SparseLayout(offset) => offset == FeatureColumnOffset(p.weightCol, p.nameCol)
  }

  // ---------------------------------------------------------------------
  // Parse (lines 207-212)

  /** `columns[col]`; the source indexes without a check, the model fails. */
  function Column(columns: seq<string>, col: int): (r: Result<string>)
    ensures r.Success? <==> 0 <= col < |columns|
    ensures r.Success? ==> r.value == columns[col]
  {
    if 0 <= col < |columns| then Success(columns[col]) else Failure(MissingColumn(col))
  }

  /** stof: the float a token denotes, or the error it throws. */
  function ToFloat(stof: string -> Option<real>, token: string): (r: Result<real>) {
    match stof(token)
    case None => Failure(CannotParseFloat(token))
    case Some(v) => Success(v)
  }

  /** Line 209: the label, from the label map when there is one, else as a float. */
  function ResolveLabel(p: Parser, columns: seq<string>): Result<real> {
    var raw :- Column(columns, p.labelCol);
    if p.labelMap == map[] then ToFloat(p.numbers.stof, raw)
    else if raw in p.labelMap then Success(p.labelMap[raw])
    else Failure(UnknownLabel(raw))
  }

  /** Line 210: the weight column's float, or 1 without a weight column. */
  function ResolveWeight(p: Parser, columns: seq<string>): Result<real> {
    if p.weightCol >= 0 then
      var raw :- Column(columns, p.weightCol);
      ToFloat(p.numbers.stof, raw)
    else Success(1.0)
  }

  /** Line 211: the name column's text, if there is a name column. */
  function ResolveName(p: Parser, columns: seq<string>): Result<Option<string>> {
    if p.nameCol >= 0 then
      var raw :- Column(columns, p.nameCol);
      Success(Some(raw))
    else Success(None)
  }

  /** The virtual ParseFeatures: the variant's feature vector of a row. */
  function Features(p: Parser, columns: seq<string>): Result<Vector>
    requires Valid(p)
  {
    match p.layout
    case DenseLayout(parseIndices) => DenseFeatures(p.numbers.stof, parseIndices, columns)
    case SparseLayout(offset) => SparseFeatures(ParseIndex, p.numbers.strtof, p.dimension, offset, columns)
  }

  /** The label column is in the row and holds a known label (with a label
      map) or a float (without). */
  predicate LabelReadable(p: Parser, columns: seq<string>) {
    && 0 <= p.labelCol < |columns|
    && (if p.labelMap == map[] then p.numbers.stof(columns[p.labelCol]).Some?
        else columns[p.labelCol] in p.labelMap)
  }

  /** Without a weight column there is nothing to read; with one, it is in
      the row and holds a float. */
  predicate WeightReadable(p: Parser, columns: seq<string>) {
    p.weightCol >= 0 ==> p.weightCol < |columns| && p.numbers.stof(columns[p.weightCol]).Some?
  }

  /** Lines 207-212: split the line, then read label, weight, features and
      name, in that order; any failure yields no Example, and the first step
      that fails decides the error. */
  function Parse(p: Parser, line: string): (r: Result<Example>)
    requires Valid(p)
    ensures var columns := Split(line, p.separator);
      r.Success? <==>
        && LabelReadable(p, columns)
        && WeightReadable(p, columns)
        && Features(p, columns).Success?
        && (p.nameCol >= 0 ==> p.nameCol < |columns|)
    ensures var columns := Split(line, p.separator);
      r.Success? ==>
        && (p.labelMap != map[] ==> r.value.labelValue == p.labelMap[columns[p.labelCol]])
        && (p.labelMap == map[] ==> p.numbers.stof(columns[p.labelCol]) == Some(r.value.labelValue))
        && (p.weightCol >= 0 ==> p.numbers.stof(columns[p.weightCol]) == Some(r.value.weight))
        && (p.weightCol < 0 ==> r.value.weight == 1.0)
        && (r.value.name.Some? <==> p.nameCol >= 0)
        && (p.nameCol >= 0 ==> r.value.name.value == columns[p.nameCol])
        && Features(p, columns) == Success(r.value.features)
    ensures var columns := Split(line, p.separator);
      !(0 <= p.labelCol < |columns|) ==> r == Failure(MissingColumn(p.labelCol))
    ensures var columns := Split(line, p.separator);
      0 <= p.labelCol < |columns| && p.labelMap == map[] && p.numbers.stof(columns[p.labelCol]).None? ==>
        r == Failure(CannotParseFloat(columns[p.labelCol]))
    ensures var columns := Split(line, p.separator);
      0 <= p.labelCol < |columns| && p.labelMap != map[] && columns[p.labelCol] !in p.labelMap ==>
        r == Failure(UnknownLabel(columns[p.labelCol]))
    ensures var columns := Split(line, p.separator);
      LabelReadable(p, columns) && p.weightCol >= |columns| ==> r == Failure(MissingColumn(p.weightCol))
    ensures var columns := Split(line, p.separator);
      LabelReadable(p, columns) && 0 <= p.weightCol < |columns| && p.numbers.stof(columns[p.weightCol]).None? ==>
        r == Failure(CannotParseFloat(columns[p.weightCol]))
    ensures var columns := Split(line, p.separator);
      LabelReadable(p, columns) && WeightReadable(p, columns) && Features(p, columns).Failure? ==>
        r == Failure(Features(p, columns).error)
    ensures var columns := Split(line, p.separator);
      LabelReadable(p, columns) && WeightReadable(p, columns) && Features(p, columns).Success? && p.nameCol >= |columns| ==>
        r == Failure(MissingColumn(p.nameCol))
  {
    var columns := Split(line, p.separator);
    var labelValue :- ResolveLabel(p, columns);
    var weight :- ResolveWeight(p, columns);
    var features :- Features(p, columns);
    var name :- ResolveName(p, columns);
    Success(Example(features, labelValue, weight, name))
  }

  // ---------------------------------------------------------------------
  // DenseParser (lines 214-230)

  /** Lines 214-222: the dense parser keeps the columns that are not marked
      non-feature, in increasing order. */
  method NewDenseParser(dimension: nat, labelCol: int, weightCol: int, nameCol: int, nonFeature: seq<bool>,
                        separator: char, labelMap: map<string, real>, numbers: Numbers)
    returns (p: Parser)
    requires dimension == |FeatureColumns(nonFeature)|
    ensures p.layout.DenseLayout? && Valid(p)
    ensures p.layout.parseIndices == FeatureColumns(nonFeature)
    ensures forall c :: 0 <= c < |nonFeature| ==> (c in p.layout.parseIndices <==> !nonFeature[c])
    ensures p.dimension == dimension && p.labelCol == labelCol && p.weightCol == weightCol && p.nameCol == nameCol
    ensures p.separator == separator && p.labelMap == labelMap && p.numbers == numbers
  {
    var parseIndices: seq<nat> := [];
    for i := 0 to |nonFeature|
      invariant parseIndices == FeatureColumns(nonFeature[..i])
    {
      FeatureColumnsSnoc(nonFeature[..i], nonFeature[i]);
      assert nonFeature[..i + 1] == nonFeature[..i] + [nonFeature[i]];
      if !nonFeature[i] {
        parseIndices := parseIndices + [i];
      }
    }
    assert nonFeature[..|nonFeature|] == nonFeature;
    FeatureColumnsSpec(nonFeature);
    p := Parser(dimension, labelCol, weightCol, nameCol, separator, labelMap, numbers, DenseLayout(parseIndices));
  }

  /** Every token read as a float by stof, or the error of the first that is not. */
  function ParseAll(stof: string -> Option<real>, tokens: seq<string>): (r: Result<seq<real>>)
    ensures r.Success? <==> forall k :: 0 <= k < |tokens| ==> stof(tokens[k]).Some?
    ensures r.Success? ==> |r.value| == |tokens| && forall k :: 0 <= k < |tokens| ==> stof(tokens[k]) == Some(r.value[k])
    ensures r.Failure? ==>
      exists k :: 0 <= k < |tokens| && stof(tokens[k]).None?
        && (forall j :: 0 <= j < k ==> stof(tokens[j]).Some?) && r.error == CannotParseFloat(tokens[k])
    decreases |tokens|
  {
    if tokens == [] then Success([])
    else
      match stof(tokens[0])
      case None => Failure(CannotParseFloat(tokens[0]))
      case Some(v) =>
        var rest :- ParseAll(stof, tokens[1..]);
        Success([v] + rest)
  }

  /** Lines 224-230 (with the undefined `back()` of an empty index list read
      as a failed column check): a row needs a column at every parse index, and
      feature i is the float of column parseIndices[i]. */
  function DenseFeatures(stof: string -> Option<real>, parseIndices: seq<nat>, columns: seq<string>): (r: Result<Vector>)
    requires StrictlyIncreasing(parseIndices)
    ensures r.Success? <==>
      && |parseIndices| > 0 && parseIndices[|parseIndices| - 1] < |columns|
      && forall k :: 0 <= k < |parseIndices| ==> stof(columns[parseIndices[k]]).Some?
    ensures r.Success? ==>
      && r.value.Dense? && |r.value.values| == |parseIndices|
      && forall k :: 0 <= k < |parseIndices| ==> stof(columns[parseIndices[k]]) == Some(r.value.values[k])
    ensures (|parseIndices| == 0 || |columns| <= parseIndices[|parseIndices| - 1]) ==> r == Failure(WrongNumberOfColumns)
    ensures r.Failure? && |parseIndices| > 0 && parseIndices[|parseIndices| - 1] < |columns| ==>
      exists k :: 0 <= k < |parseIndices| && stof(columns[parseIndices[k]]).None?
        && (forall j :: 0 <= j < k ==> stof(columns[parseIndices[j]]).Some?)
        && r.error == CannotParseFloat(columns[parseIndices[k]])
  {
    if |parseIndices| == 0 || |columns| <= parseIndices[|parseIndices| - 1] then Failure(WrongNumberOfColumns)
    else
      assert forall k :: 0 <= k < |parseIndices| ==> parseIndices[k] <= parseIndices[|parseIndices| - 1];
      var tokens := Select(columns, parseIndices);
      var values :- ParseAll(stof, tokens);
      Success(Dense(values))
  }

  /** Lines 224-230: fill the feature vector position by position. */
  method ParseDenseFeatures(stof: string -> Option<real>, dimension: nat, parseIndices: seq<nat>, columns: seq<string>)
    returns (r: Result<Vector>)
    requires StrictlyIncreasing(parseIndices) && |parseIndices| == dimension
    ensures r == DenseFeatures(stof, parseIndices, columns)
  {
    if |parseIndices| == 0 || |columns| <= parseIndices[|parseIndices| - 1] {
      return Failure(WrongNumberOfColumns);
    }
    assert forall k :: 0 <= k < |parseIndices| ==> parseIndices[k] <= parseIndices[|parseIndices| - 1];
    ghost var tokens := Select(columns, parseIndices);
    var features := new real[dimension];
    for i := 0 to dimension
      invariant forall k :: 0 <= k < i ==> stof(tokens[k]) == Some(features[k])
    {
      match stof(columns[parseIndices[i]]) {
        case None =>
          return Failure(CannotParseFloat(columns[parseIndices[i]]));
        case Some(v) =>
          features[i] := v;
      }
    }
    ghost var expected := ParseAll(stof, tokens);
    assert expected.Success? && |expected.value| == |features[..]|;
    assert expected.value == features[..];
    return Success(Dense(features[..]));
  }

  // ---------------------------------------------------------------------
  // SparseParser (lines 232-266)

  /** Line 235: role columns come first, so features start after the label and
      the weight and name columns that are present. */
  function FeatureColumnOffset(weightCol: int, nameCol: int): (offset: nat)
    ensures 1 <= offset <= 3
  {
    1 + (if weightCol < 0 then 0 else 1) + (if nameCol < 0 then 0 else 1)
  }

  /** Lines 236-237 as intended: every role column lies before the offset. */
  predicate RolesInFront(labelCol: int, weightCol: int, nameCol: int) {
    var offset := FeatureColumnOffset(weightCol, nameCol);
    labelCol < offset && weightCol < offset && nameCol < offset
  }

  /** The value C++ compares when an int meets a size_t: the int modulo 2^64. */
  function AsSizeT(x: int): nat {
    x % 0x1_0000_0000_0000_0000
  }

  /** Lines 236-237 as written: the int columns are converted to size_t before
      the comparison, so an absent column (-1) becomes 2^64 - 1. */
  predicate RolesInFrontAsWritten(labelCol: int, weightCol: int, nameCol: int) {
    var offset := FeatureColumnOffset(weightCol, nameCol);
    AsSizeT(labelCol) < offset && AsSizeT(weightCol) < offset && AsSizeT(nameCol) < offset
  }

  /** As written, a sparse dataset without a weight or without a name column
      is always rejected: the default settings (label in column 0, no weight,
      no name) fail the check that the intended comparison passes. */
  lemma AbsentColumnRejectedAsWritten(labelCol: int, weightCol: int, nameCol: int)
    requires weightCol == Absent || nameCol == Absent
    ensures !RolesInFrontAsWritten(labelCol, weightCol, nameCol)
    ensures RolesInFront(0, Absent, Absent)
  {
    assert AsSizeT(-1) == 0x1_0000_0000_0000_0000 - 1;
  }

  /** With the intended check, the present role columns, when distinct and
      non-negative, are exactly the columns before the offset. */
  lemma RolesFormPrefix(labelCol: int, weightCol: int, nameCol: int)
    requires RolesInFront(labelCol, weightCol, nameCol)
    requires labelCol >= 0 && weightCol >= Absent && nameCol >= Absent
    requires labelCol != weightCol && labelCol != nameCol && (weightCol >= 0 ==> weightCol != nameCol)
    ensures forall c :: 0 <= c < FeatureColumnOffset(weightCol, nameCol) <==> c >= 0 && IsRole(c, labelCol, weightCol, nameCol)
  {
  }

  /** Lines 232-238: a sparse parser, refused unless the role columns are in front. */
  function NewSparseParser(dimension: nat, labelCol: int, weightCol: int, nameCol: int,
                           separator: char, labelMap: map<string, real>, numbers: Numbers): (r: Result<Parser>)
    ensures r.Success? <==> RolesInFront(labelCol, weightCol, nameCol)
    ensures r.Failure? ==> r.error == NonFeatureColumnsNotInFront
    ensures r.Success? ==>
      && Valid(r.value) && r.value.layout.SparseLayout?
      && r.value.dimension == dimension && r.value.labelCol == labelCol && r.value.weightCol == weightCol
      && r.value.nameCol == nameCol && r.value.separator == separator && r.value.labelMap == labelMap
      && r.value.numbers == numbers
  {
    var offset := FeatureColumnOffset(weightCol, nameCol);
    if RolesInFront(labelCol, weightCol, nameCol) then
      Success(Parser(dimension, labelCol, weightCol, nameCol, separator, labelMap, numbers, SparseLayout(offset)))
    else Failure(NonFeatureColumnsNotInFront)
  }

  /** A long value as a C int on a two's-complement machine: its low 32 bits. */
  function ToInt32(v: int): (r: int)
    ensures -0x8000_0000 <= r < 0x8000_0000
    ensures -0x8000_0000 <= v < 0x8000_0000 ==> r == v
  {
    (v + 0x8000_0000) % 0x1_0000_0000 - 0x8000_0000
  }

  const LongMin := -0x8000_0000_0000_0000
  const LongMax := 0x7FFF_FFFF_FFFF_FFFF

  predicate IsDigit(c: char) {
    '0' as int <= c as int <= '9' as int
  }

  function DigitValue(c: char): nat
    requires IsDigit(c)
  {
    c as int - '0' as int
  }

  /** The length of the run of decimal digits that starts `s`. */
  function DigitRun(s: string): (n: nat)
    ensures n <= |s|
    ensures forall i :: 0 <= i < n ==> IsDigit(s[i])
    ensures n < |s| ==> !IsDigit(s[n])
  {
    if s != [] && IsDigit(s[0]) then 1 + DigitRun(s[1..]) else 0
  }

  /** The number a string of decimal digits denotes. */
  function DigitsValue(ds: string): nat
    requires forall i :: 0 <= i < |ds| ==> IsDigit(ds[i])
  {
    if ds == [] then 0
    else DigitsValue(ds[..|ds| - 1]) * 10 + DigitValue(ds[|ds| - 1])
  }

  /** A feature token split at its colon: the index before, the text after. */
  datatype IndexToken = IndexToken(index: int, rest: string)

  /** A token accepted as `index:value`: right before the text handed on as
      the value stands a colon, preceded by a decimal digit, and the index
      fits in a C int. */
  predicate ReadsIndex(token: string, t: IndexToken) {
    var k := |token| - |t.rest| - 1;
    && 1 <= k && token[k] == ':' && IsDigit(token[k - 1]) && token[k + 1..] == t.rest
    && -0x8000_0000 <= t.index < 0x8000_0000
  }

  /** Lines 252-254: strtol(column, &rest, 10) on a 64-bit long -- leading
      white space, an optional sign, at least one digit -- refused when no digit
      was read, when errno is set (the value overflows a long) or when the digits
      are not followed by ':'; the long is then stored into an int. */
  function ParseIndex(token: string): (r: Option<IndexToken>)
    ensures r.Some? ==> ReadsIndex(token, r.value)
  {
    var s := TrimStart(token);
    var r := ParseSigned(s);
    if r.Some? then
      var k := |s| - |r.value.rest| - 1;
      assert |token| - |r.value.rest| - 1 == |token| - |s| + k;
      r
    else None
  }

  /** strtol after the white space: an optional sign, then the digits. */
  function ParseSigned(s: string): (r: Option<IndexToken>)
    ensures r.Some? ==> ReadsIndex(s, r.value)
  {
    if |s| > 0 && (s[0] == '+' || s[0] == '-') then
      var r := ParseDigits(s[0] == '-', s[1..]);
      if r.Some? then
        var k := |s[1..]| - |r.value.rest| - 1;
        assert s[1 + k] == s[1..][k] && s[k] == s[1..][k - 1] && s[1 + k + 1..] == s[1..][k + 1..];
        r
      else None
    else ParseDigits(false, s)
  }

  /** strtol's digits, then the colon the loader demands right after them. */
  function ParseDigits(negative: bool, body: string): (r: Option<IndexToken>)
    ensures r.Some? ==> ReadsIndex(body, r.value)
  {
    var n := DigitRun(body);
    if n == 0 || n == |body| || body[n] != ':' then None
    else
      var magnitude := DigitsValue(body[..n]);
      var value := if negative then -(magnitude as int) else magnitude as int;
      if value < LongMin || LongMax < value then None
      else Some(IndexToken(ToInt32(value), body[n + 1..]))
  }

  /** The decimal text of `n`. */
  function FormatIndex(n: nat): (s: string)
    ensures |s| > 0 && forall i :: 0 <= i < |s| ==> IsDigit(s[i])
  {
    var digit := ['0' + (n % 10) as char];
    if n < 10 then digit else FormatIndex(n / 10) + digit
  }

  lemma {:induction false} FormatIndexValue(n: nat)
    ensures DigitsValue(FormatIndex(n)) == n
  {
    var digit := ['0' + (n % 10) as char];
    if n >= 10 {
      FormatIndexValue(n / 10);
      var s := FormatIndex(n / 10) + digit;
      assert s[..|s| - 1] == FormatIndex(n / 10);
    }
  }

  lemma {:induction false} DigitRunOfDigits(ds: string, rest: string)
    requires forall i :: 0 <= i < |ds| ==> IsDigit(ds[i])
    ensures DigitRun(ds + rest) == |ds| + DigitRun(rest)
  {
    if ds == [] {
      assert ds + rest == rest;
    } else {
      var s := ds + rest;
      assert s[0] == ds[0] && IsDigit(ds[0]);
      assert s[1..] == ds[1..] + rest;
      DigitRunOfDigits(ds[1..], rest);
      assert DigitRun(s) == 1 + DigitRun(s[1..]);
    }
  }

  lemma FormattedStartsWithDigit(n: nat, value: string)
    ensures var token := FormatIndex(n) + ":" + value;
      token != [] && IsDigit(token[0]) && !IsWhiteSpace(token[0]) && token[0] != '+' && token[0] != '-'
  {
    var digits := FormatIndex(n);
    assert (digits + ":" + value)[0] == digits[0];
  }

  /** A digit run, a colon and a value: the run ends at the colon. */
  lemma DigitsColonShape(ds: string, value: string)
    requires forall i :: 0 <= i < |ds| ==> IsDigit(ds[i])
    ensures var body := ds + ":" + value;
      && DigitRun(body) == |ds| && |ds| < |body| && body[|ds|] == ':'
      && body[..|ds|] == ds && body[|ds| + 1..] == value
  {
    var tail := ":" + value;
    assert ds + ":" + value == ds + tail;
    DigitRunOfDigits(ds, tail);
    assert DigitRun(tail) == 0;
  }

  lemma ParseDigitsOfDigits(ds: string, value: string)
    requires ds != [] && forall i :: 0 <= i < |ds| ==> IsDigit(ds[i])
    requires DigitsValue(ds) <= LongMax
    ensures ParseDigits(false, ds + ":" + value) == Some(IndexToken(ToInt32(DigitsValue(ds)), value))
  {
    DigitsColonShape(ds, value);
  }

  /** The token `n:value` is read as index n followed by `value` for every n a
      long can hold, with n stored into an int: indices an int can hold come
      back unchanged, larger ones wrap around instead of being refused. */
  lemma ParseIndexOfFormatted(n: nat, value: string)
    requires n <= LongMax
    ensures ParseIndex(FormatIndex(n) + ":" + value) == Some(IndexToken(ToInt32(n), value))
    ensures n < 0x8000_0000 ==> ToInt32(n) == n
    ensures 0x8000_0000 <= n ==> ToInt32(n) != n
  {
    var token := FormatIndex(n) + ":" + value;
    FormattedStartsWithDigit(n, value);
    assert TrimStart(token) == token;
    assert ParseSigned(token) == ParseDigits(false, token);
    FormatIndexValue(n);
    ParseDigitsOfDigits(FormatIndex(n), value);
  }

  /** The token is `index:value` with both parts readable. */
  predicate IsFeatureToken(readIndex: string -> Option<IndexToken>, strtof: string -> Option<real>, token: string) {
    readIndex(token).Some? && strtof(readIndex(token).value.rest).Some?
  }

  function TokenIndex(readIndex: string -> Option<IndexToken>, token: string): int
    requires readIndex(token).Some?
  {
    readIndex(token).value.index
  }

  function TokenValue(readIndex: string -> Option<IndexToken>, strtof: string -> Option<real>, token: string): real
    requires IsFeatureToken(readIndex, strtof, token)
  {
    strtof(readIndex(token).value.rest).value
  }

  /** The feature tokens the loop of lines 248-263 accepts: all readable, all
      indices above `lastIndex` and below `dimension`, in strictly increasing order. */
  ghost predicate AcceptedTokens(readIndex: string -> Option<IndexToken>, strtof: string -> Option<real>, dimension: nat, tokens: seq<string>, lastIndex: int) {
    && (forall k :: 0 <= k < |tokens| ==> IsFeatureToken(readIndex, strtof, tokens[k]))
    && (forall k :: 0 <= k < |tokens| ==> lastIndex < TokenIndex(readIndex, tokens[k]) < dimension)
    && (forall i, j :: 0 <= i < j < |tokens| ==> TokenIndex(readIndex, tokens[i]) < TokenIndex(readIndex, tokens[j]))
  }

  /** Lines 248-263, token by token: the indices and values read from
      `tokens`, given the index read before them. */
  function SparseScan(readIndex: string -> Option<IndexToken>, strtof: string -> Option<real>, dimension: nat, tokens: seq<string>, lastIndex: int)
    : (r: Result<(seq<int>, seq<real>)>)
    ensures r.Success? ==> |r.value.0| == |tokens| == |r.value.1|
    ensures r.Success? ==> forall k :: 0 <= k < |tokens| ==> lastIndex < r.value.0[k] < dimension
    ensures r.Failure? ==> r.error.CannotParse? || r.error.IndicesNotOrdered?
    decreases |tokens|
  {
    if tokens == [] then Success(([], []))
    else
      match readIndex(tokens[0])
      case None => Failure(CannotParse(tokens[0]))
      case Some(t) =>
        if t.index <= lastIndex || t.index >= dimension then Failure(IndicesNotOrdered(tokens[0]))
        else
          match strtof(t.rest)
          case None => Failure(CannotParse(tokens[0]))
          case Some(v) =>
            var tail :- SparseScan(readIndex, strtof, dimension, tokens[1..], t.index);
            Success(([t.index] + tail.0, [v] + tail.1))
  }

  /** Accepted tokens, one at a time: the first token is readable and in
      range, and the rest are accepted after its index. */
  lemma AcceptedTokensCons(readIndex: string -> Option<IndexToken>, strtof: string -> Option<real>, dimension: nat, tokens: seq<string>, lastIndex: int)
    requires tokens != []
    ensures AcceptedTokens(readIndex, strtof, dimension, tokens, lastIndex) <==>
      && IsFeatureToken(readIndex, strtof, tokens[0])
      && lastIndex < TokenIndex(readIndex, tokens[0]) < dimension
      && AcceptedTokens(readIndex, strtof, dimension, tokens[1..], TokenIndex(readIndex, tokens[0]))
  {
    var tail := tokens[1..];
    assert forall k :: 1 <= k < |tokens| ==> tokens[k] == tail[k - 1];
    if AcceptedTokens(readIndex, strtof, dimension, tokens, lastIndex) {
      forall k | 0 <= k < |tail| ensures TokenIndex(readIndex, tokens[0]) < TokenIndex(readIndex, tail[k]) {
        assert TokenIndex(readIndex, tokens[0]) < TokenIndex(readIndex, tokens[k + 1]);
      }
      forall i, j | 0 <= i < j < |tail| ensures TokenIndex(readIndex, tail[i]) < TokenIndex(readIndex, tail[j]) {
        assert TokenIndex(readIndex, tokens[i + 1]) < TokenIndex(readIndex, tokens[j + 1]);
      }
    }
  }

  /** One step of the scan on a token it accepts. */
  lemma SparseScanCons(readIndex: string -> Option<IndexToken>, strtof: string -> Option<real>, dimension: nat, tokens: seq<string>, lastIndex: int)
    requires tokens != [] && IsFeatureToken(readIndex, strtof, tokens[0])
    requires lastIndex < TokenIndex(readIndex, tokens[0]) < dimension
    ensures SparseScan(readIndex, strtof, dimension, tokens, lastIndex)
      == Prepend([TokenIndex(readIndex, tokens[0])], [TokenValue(readIndex, strtof, tokens[0])],
                 SparseScan(readIndex, strtof, dimension, tokens[1..], TokenIndex(readIndex, tokens[0])))
  {
  }

  /** The scan succeeds exactly on accepted tokens, and then returns one
      (index, value) pair per token, in token order. */
  lemma {:induction false} SparseScanSpec(readIndex: string -> Option<IndexToken>, strtof: string -> Option<real>, dimension: nat, tokens: seq<string>, lastIndex: int)
    ensures SparseScan(readIndex, strtof, dimension, tokens, lastIndex).Success? <==> AcceptedTokens(readIndex, strtof, dimension, tokens, lastIndex)
    ensures SparseScan(readIndex, strtof, dimension, tokens, lastIndex).Success? ==>
      var pairs := SparseScan(readIndex, strtof, dimension, tokens, lastIndex).value;
      && |pairs.0| == |tokens| && |pairs.1| == |tokens|
      && forall k :: 0 <= k < |tokens| ==> pairs.0[k] == TokenIndex(readIndex, tokens[k]) && pairs.1[k] == TokenValue(readIndex, strtof, tokens[k])
    decreases |tokens|
  {
    if tokens != [] {
      AcceptedTokensCons(readIndex, strtof, dimension, tokens, lastIndex);
      if IsFeatureToken(readIndex, strtof, tokens[0]) && lastIndex < TokenIndex(readIndex, tokens[0]) < dimension {
        var tail := tokens[1..];
        SparseScanSpec(readIndex, strtof, dimension, tail, TokenIndex(readIndex, tokens[0]));
        SparseScanCons(readIndex, strtof, dimension, tokens, lastIndex);
        assert forall k :: 1 <= k < |tokens| ==> tokens[k] == tail[k - 1];
      }
    }
  }

  /** The error the checks of lines 253-259 raise on one token, given the
      index read before it, or None when the token passes them: an unreadable
      index, then an index out of order or range, then an unreadable value. */
  function TokenError(readIndex: string -> Option<IndexToken>, strtof: string -> Option<real>, dimension: nat, token: string, lastIndex: int)
    : Option<Error>
  {
    if readIndex(token).None? then Some(CannotParse(token))
    else if !(lastIndex < TokenIndex(readIndex, token) < dimension) then Some(IndicesNotOrdered(token))
    else if !IsFeatureToken(readIndex, strtof, token) then Some(CannotParse(token))
    else None
  }

  /** The index the scan compares token k with: the one read just before it
      (the scan never reaches token k when token k - 1 has no index). */
  function IndexBefore(readIndex: string -> Option<IndexToken>, tokens: seq<string>, k: nat, lastIndex: int): int
    requires k <= |tokens|
  {
    if k == 0 then lastIndex
    else match readIndex(tokens[k - 1])
      case None => lastIndex
      case Some(t) => t.index
  }

  /** The first step of a scan: a token whose checks fail ends it with
      their error. */
  lemma SparseScanHead(readIndex: string -> Option<IndexToken>, strtof: string -> Option<real>, dimension: nat, tokens: seq<string>, lastIndex: int)
    requires tokens != []
    requires TokenError(readIndex, strtof, dimension, tokens[0], lastIndex).Some?
    ensures SparseScan(readIndex, strtof, dimension, tokens, lastIndex)
      == Failure(TokenError(readIndex, strtof, dimension, tokens[0], lastIndex).value)
  {
  }

  /** Accepted tokens grow by one at the front: a token that passes its
      checks, before tokens accepted after its index. */
  lemma AcceptedPrefixCons(readIndex: string -> Option<IndexToken>, strtof: string -> Option<real>, dimension: nat, tokens: seq<string>, lastIndex: int, k: nat)
    requires k < |tokens| && TokenError(readIndex, strtof, dimension, tokens[0], lastIndex).None?
    requires AcceptedTokens(readIndex, strtof, dimension, tokens[1..][..k], TokenIndex(readIndex, tokens[0]))
    ensures AcceptedTokens(readIndex, strtof, dimension, tokens[..k + 1], lastIndex)
  {
    var prefix := tokens[..k + 1];
    assert prefix[0] == tokens[0] && prefix[1..] == tokens[1..][..k];
    AcceptedTokensCons(readIndex, strtof, dimension, prefix, lastIndex);
  }

  /** Counted from the second token, the index before a token is the same. */
  lemma IndexBeforeShift(readIndex: string -> Option<IndexToken>, tokens: seq<string>, k: nat, lastIndex: int)
    requires k < |tokens| && readIndex(tokens[0]).Some? && readIndex(tokens[k]).Some?
    ensures IndexBefore(readIndex, tokens, k + 1, lastIndex)
      == IndexBefore(readIndex, tokens[1..], k, TokenIndex(readIndex, tokens[0]))
  {
    if k > 0 {
      assert tokens[1..][k - 1] == tokens[k];
    }
  }

  /** A failed scan stops at the first token that fails a check: every token
      before it is accepted, and the error is the one that token's checks raise. */
  lemma {:induction false} SparseScanFailure(readIndex: string -> Option<IndexToken>, strtof: string -> Option<real>, dimension: nat, tokens: seq<string>, lastIndex: int)
    requires SparseScan(readIndex, strtof, dimension, tokens, lastIndex).Failure?
    ensures exists k :: (&& 0 <= k < |tokens|
      && AcceptedTokens(readIndex, strtof, dimension, tokens[..k], lastIndex)
      && TokenError(readIndex, strtof, dimension, tokens[k], IndexBefore(readIndex, tokens, k, lastIndex))
         == Some(SparseScan(readIndex, strtof, dimension, tokens, lastIndex).error))
    decreases |tokens|
  {
    var e := SparseScan(readIndex, strtof, dimension, tokens, lastIndex).error;
    if TokenError(readIndex, strtof, dimension, tokens[0], lastIndex).Some? {
      SparseScanHead(readIndex, strtof, dimension, tokens, lastIndex);
      assert tokens[..0] == [];
      assert AcceptedTokens(readIndex, strtof, dimension, tokens[..0], lastIndex);
    } else {
      var tail := tokens[1..];
      var first := TokenIndex(readIndex, tokens[0]);
      SparseScanCons(readIndex, strtof, dimension, tokens, lastIndex);
      var rest := SparseScan(readIndex, strtof, dimension, tail, first);
      assert rest.Failure? && rest.error == e;
      SparseScanFailure(readIndex, strtof, dimension, tail, first);
      var k :| (&& 0 <= k < |tail|
        && AcceptedTokens(readIndex, strtof, dimension, tail[..k], first)
        && TokenError(readIndex, strtof, dimension, tail[k], IndexBefore(readIndex, tail, k, first)) == Some(e));
      AcceptedPrefixCons(readIndex, strtof, dimension, tokens, lastIndex, k);
      assert tokens[k + 1] == tail[k];
      if k > 0 {
        assert tail[..k][k - 1] == tokens[k];
      }
      IndexBeforeShift(readIndex, tokens, k, lastIndex);
    }
  }

  /** Lines 240-266 (with line 260-261 writing position i): a row needs
      between 1 and `dimension` feature tokens after the role columns, and
      yields their indices -- non-negative, strictly increasing, below
      `dimension` -- and values, one per token in token order. */
  function SparseFeatures(readIndex: string -> Option<IndexToken>, strtof: string -> Option<real>, dimension: nat, offset: nat, columns: seq<string>)
    : (r: Result<Vector>)
    ensures r.Success? <==>
      && offset < |columns| && |columns| - offset <= dimension
      && AcceptedTokens(readIndex, strtof, dimension, columns[offset..], -1)
    ensures !(offset < |columns| && |columns| - offset <= dimension) ==> r == Failure(ColumnCountOutOfRange)
    ensures r.Failure? && offset < |columns| && |columns| - offset <= dimension ==>
      exists k :: 0 <= k < |columns| - offset
        && AcceptedTokens(readIndex, strtof, dimension, columns[offset..offset + k], -1)
        && TokenError(readIndex, strtof, dimension, columns[offset + k], IndexBefore(readIndex, columns[offset..], k, -1))
           == Some(r.error)
    ensures r.Success? ==>
      && r.value.Sparse? && r.value.dimension == dimension
      && |r.value.indices| == |columns| - offset && |r.value.values| == |columns| - offset
      && StrictlyIncreasing(r.value.indices)
      && (forall k :: 0 <= k < |r.value.indices| ==> 0 <= r.value.indices[k] < dimension)
      && forall k :: 0 <= k < |columns| - offset ==>
           r.value.indices[k] == TokenIndex(readIndex, columns[offset + k])
           && r.value.values[k] == TokenValue(readIndex, strtof, columns[offset + k])
  {
    if |columns| <= offset || |columns| - offset > dimension then Failure(ColumnCountOutOfRange)
    else
      var tokens := columns[offset..];
      SparseScanSpec(readIndex, strtof, dimension, tokens, -1);
      assert forall k :: 0 <= k < |tokens| ==> tokens[k] == columns[offset + k];
      var scan := SparseScan(readIndex, strtof, dimension, tokens, -1);
      if scan.Failure? then
        SparseScanFailure(readIndex, strtof, dimension, tokens, -1);
        assert forall k :: 0 <= k <= |tokens| ==> tokens[..k] == columns[offset..offset + k];
        Failure(scan.error)
      else Success(Sparse(dimension, scan.value.0, scan.value.1))
  }

  /** `pairs` with `indices` and `values` put in front; failures pass through. */
  function Prepend(indices: seq<int>, values: seq<real>, pairs: Result<(seq<int>, seq<real>)>)
    : Result<(seq<int>, seq<real>)>
  {
    match pairs
    case Success(p) => Success((indices + p.0, values + p.1))
    case Failure(e) => Failure(e)
  }

  lemma PrependNothing(pairs: Result<(seq<int>, seq<real>)>)
    ensures Prepend([], [], pairs) == pairs
  {
    if pairs.Success? {
      assert [] + pairs.value.0 == pairs.value.0 && [] + pairs.value.1 == pairs.value.1;
    }
  }

  lemma PrependTwice(indices: seq<int>, values: seq<real>, index: int, value: real, pairs: Result<(seq<int>, seq<real>)>)
    ensures Prepend(indices, values, Prepend([index], [value], pairs))
      == Prepend(indices + [index], values + [value], pairs)
  {
    if pairs.Success? {
      assert indices + ([index] + pairs.value.0) == (indices + [index]) + pairs.value.0;
      assert values + ([value] + pairs.value.1) == (values + [value]) + pairs.value.1;
    }
  }

  /** Lines 240-266: fill the index and value arrays token by token, tracking
      the last index. Lines 260-261 write position j = i + offset, past the end
      of both arrays; the model writes position i (see SlotsAsWritten). */
  method ParseSparseFeatures(readIndex: string -> Option<IndexToken>, strtof: string -> Option<real>, dimension: nat, offset: nat, columns: seq<string>)
    returns (r: Result<Vector>)
    ensures r == SparseFeatures(readIndex, strtof, dimension, offset, columns)
  {
    if |columns| <= offset || |columns| - offset > dimension {
      return Failure(ColumnCountOutOfRange);
    }
    var count := |columns| - offset;
    var indices := new int[count];
    var values := new real[count];
    var lastIndex := -1;
    ghost var tokens := columns[offset..];
    var i, j := 0, offset;
    PrependNothing(SparseScan(readIndex, strtof, dimension, tokens, -1));
    while i < count
      invariant 0 <= i <= count && j == i + offset
      invariant -1 <= lastIndex < dimension
      invariant SparseScan(readIndex, strtof, dimension, tokens, -1)
        == Prepend(indices[..i], values[..i], SparseScan(readIndex, strtof, dimension, tokens[i..], lastIndex))
    {
      var column := columns[j];
      ghost var rest := tokens[i..];
      assert rest != [] && rest[0] == column && rest[1..] == tokens[i + 1..];
      match readIndex(column) {
        case None =>
          return Failure(CannotParse(column));
        case Some(t) =>
          if t.index <= lastIndex || t.index >= dimension {
            return Failure(IndicesNotOrdered(column));
          }
          match strtof(t.rest) {
            case None =>
              return Failure(CannotParse(column));
            case Some(value) =>
              ghost var readIndices, readValues := indices[..i], values[..i];
              SparseScanCons(readIndex, strtof, dimension, rest, lastIndex);
              PrependTwice(readIndices, readValues, t.index, value,
                           SparseScan(readIndex, strtof, dimension, tokens[i + 1..], t.index));
              indices[i] := t.index;
              values[i] := value;
              lastIndex := t.index;
              assert indices[..i + 1] == readIndices + [t.index];
              assert values[..i + 1] == readValues + [value];
          }
      }
      i, j := i + 1, j + 1;
    }
    // The check of line 264 always passes: every accepted index is below dimension.
    assert lastIndex < dimension;
    assert indices[..count] == indices[..] && values[..count] == values[..];
    assert tokens[count..] == [];
    assert indices[..] + [] == indices[..] && values[..] + [] == values[..];
    assert SparseScan(readIndex, strtof, dimension, tokens, -1) == Success((indices[..], values[..]));
    return Success(Sparse(dimension, indices[..], values[..]));
  }

  /** The array positions lines 260-261 write, as written: j = i + offset. */
  function SlotsAsWritten(count: nat, offset: nat): (slots: seq<int>)
    ensures |slots| == count
  {
    seq(count, i => i + offset)
  }

  /** As written, the last write of a row lands past the end of the arrays of
      length `count` (offset is at least 1), and position 0 is never written:
      the row `1<TAB>3:0.2` (offset 1, one feature) writes slot 1 of a
      one-element array. */
  lemma SlotsOutOfBoundsAsWritten(count: nat, weightCol: int, nameCol: int)
    requires count > 0
    ensures var slots := SlotsAsWritten(count, FeatureColumnOffset(weightCol, nameCol));
      slots[count - 1] >= count && 0 !in slots
  {
  }
}
