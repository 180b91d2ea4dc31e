/** TextLoader itself (src/DataProviders/TextLoader.cpp, lines 48-170): the
    constructor that reads the header, infers the schema, detects the format
    and builds the parser, and the iteration state over the data lines. */
module Loader {
  import opened Records
  import opened Text
  import opened Schema
  import opened LabelMaps
  import opened Parsers

  /** The settings the constructor fixes (lines 99-105): the separator, the
      role columns (Absent when not given) and the label map path. */
  datatype Settings = Settings(separator: char, labelCol: int, weightCol: int, nameCol: int, labelMapFile: string)

  /** The values lines 100-104 hard-code: tab-separated, no role column given, no label map. */
  const DefaultSettings := Settings('\t', Absent, Absent, Absent, "")

  /** What the constructor settles before iteration starts. `dataStart` is
      the line the stream position saved at line 152 points to. */
  datatype Loaded = Loaded(schema: SchemaInfo, isSparse: bool, dataStart: nat, parser: Parser)

  /** Line 154: the line after the header, or the empty string getline leaves
      when the header is the last line. */
  function FirstDataLine(lines: seq<string>, h: nat): string {
    if h + 1 < |lines| then lines[h + 1] else ""
  }

  /** The header is unique: the first line that is not skipped. */
  lemma HeaderUnique(lines: seq<string>, h: int, h': int)
    requires IsHeaderIndex(lines, h) && IsHeaderIndex(lines, h')
    ensures h == h'
  {
  }

  /** Lines 107-163, up to the construction of the iteration state: the
      header, the schema, the dense/sparse decision and the parser. `lines`
      is the data file, `labelMapLines` the label map file (read only when its
      path is not blank). */
  method Configure(lines: seq<string>, settings: Settings, labelMapLines: seq<string>, numbers: Numbers)
    returns (r: Result<Loaded>)
    ensures (r == Failure(NoData)) <==> forall k :: 0 <= k < |lines| ==> IsSkipped(lines[k])
    ensures r.Success? ==> 1 <= r.value.dataStart <= |lines| && IsHeaderIndex(lines, r.value.dataStart - 1)
    ensures r.Success? ==> Valid(r.value.parser)
    ensures forall h :: IsHeaderIndex(lines, h) ==> ConfiguredFrom(r, lines, h, settings, labelMapLines, numbers)
  {
    var found := FindHeader(lines);
    if found.Failure? {
      return Failure(NoData);
    }
    var h := found.value;
    forall h' | IsHeaderIndex(lines, h') ensures h' == h {
      HeaderUnique(lines, h, h');
    }
    r := ConfigureFrom(lines, h, settings, labelMapLines, numbers);
    forall h' | IsHeaderIndex(lines, h')
      ensures ConfiguredFrom(r, lines, h', settings, labelMapLines, numbers)
    {
      HeaderUnique(lines, h, h');
    }
  }

  /** The label column after inference: the given one, or the first column
      that is not a weight or name column. */
  function InferredLabel(numCols: nat, settings: Settings): int {
    if settings.labelCol == Absent then FirstFree(RoleMask(numCols, Absent, settings.weightCol, settings.nameCol))
    else settings.labelCol
  }

  /** What the constructor promises once line `h` is the header. Every check
      in the order of the source: the role columns lie in the header, the first
      data row is no wider than the header, the label map reads, and a sparse
      file has its role columns in front. The result is a success exactly when
      all of them pass, and then holds the schema, format and parser that
      follow from the settings. */
  ghost predicate ConfiguredFrom(r: Result<Loaded>, lines: seq<string>, h: nat, settings: Settings,
                                 labelMapLines: seq<string>, numbers: Numbers)
    requires h < |lines|
  {
    var cols := Split(Trim(lines[h]), settings.separator);
    var n := |cols|;
    var firstRow := Split(FirstDataLine(lines, h), settings.separator);
    var rolesOk := ColumnOk(settings.labelCol, n) && ColumnOk(settings.nameCol, n) && ColumnOk(settings.weightCol, n);
    var widthOk := |firstRow| <= n;
    var mapOk := LabelMapReadable(settings.labelMapFile, labelMapLines, numbers.stof);
    var frontOk := |firstRow| < n ==> RolesInFront(InferredLabel(n, settings), settings.weightCol, settings.nameCol);
    && r != Failure(NoData)
    && (!rolesOk ==> r == Failure(ColumnOutOfRange(
          if !ColumnOk(settings.labelCol, n) then LabelRole else if !ColumnOk(settings.nameCol, n) then NameRole else WeightRole)))
    && (rolesOk && !widthOk ==> r == Failure(InvalidData))
    && (rolesOk && widthOk && !mapOk ==>
          r.Failure? && LabelMapRead(Failure(r.error), settings.labelMapFile, labelMapLines, numbers.stof))
    && (rolesOk && widthOk && mapOk && !frontOk ==> r == Failure(NonFeatureColumnsNotInFront))
    && (r.Success? <==> rolesOk && widthOk && mapOk && frontOk)
    && (r.Success? ==>
          && r.value.dataStart == h + 1
          && InferredFrom(r.value.schema, cols, settings.labelCol, settings.weightCol, settings.nameCol)
          && (r.value.isSparse <==> |firstRow| < n)
          && ParserFor(r.value.parser, r.value.schema, r.value.isSparse, settings, labelMapLines, numbers))
  }

  /** The parser the constructor builds for a schema and a format, with the
      label map read from `labelMapLines`. */
  ghost predicate ParserFor(p: Parser, info: SchemaInfo, isSparse: bool, settings: Settings,
                            labelMapLines: seq<string>, numbers: Numbers) {
    && Valid(p)
    && p.dimension == info.Dimension()
    && p.labelCol == info.labelCol && p.weightCol == settings.weightCol && p.nameCol == settings.nameCol
    && p.separator == settings.separator && p.numbers == numbers
    && (isSparse <==> p.layout.SparseLayout?)
    && (isSparse ==> RolesInFront(info.labelCol, settings.weightCol, settings.nameCol))
    && (!isSparse ==> p.layout.parseIndices == FeatureColumns(info.nonFeature))
    && LabelMapRead(Success(p.labelMap), settings.labelMapFile, labelMapLines, numbers.stof)
  }

  /** Lines 115-163 once the header is known. */
  method ConfigureFrom(lines: seq<string>, h: nat, settings: Settings, labelMapLines: seq<string>, numbers: Numbers)
    returns (r: Result<Loaded>)
    requires IsHeaderIndex(lines, h)
    ensures ConfiguredFrom(r, lines, h, settings, labelMapLines, numbers)
  {
    var header := Trim(lines[h]);
    var schema := InferSchema(header, settings.separator, settings.labelCol, settings.weightCol, settings.nameCol);
    if schema.Failure? {
      return Failure(schema.error);
    }
    var info := schema.value;
    var numCols := |Split(header, settings.separator)|;
    // Lines 152-158: the first data row decides the format.
    var firstDataLineColumns := Split(FirstDataLine(lines, h), settings.separator);
    if |firstDataLineColumns| > numCols {
      return Failure(InvalidData);
    }
    var isSparse := |firstDataLineColumns| < numCols;
    assert info.labelCol == InferredLabel(numCols, settings);
    var parser := BuildParser(info, isSparse, settings, labelMapLines, numbers);
    if parser.Failure? {
      if !LabelMapReadable(settings.labelMapFile, labelMapLines, numbers.stof) {
        LabelMapErrors(Failure(parser.error), settings.labelMapFile, labelMapLines, numbers.stof);
      }
      return Failure(parser.error);
    }
    r := Success(Loaded(info, isSparse, h + 1, parser.value));
  }

  /** Lines 160-163: the ExampleParser part of either constructor reads the
      label map first, then the sparse constructor checks the role columns and
      the dense one computes its parse indices. */
  method BuildParser(info: SchemaInfo, isSparse: bool, settings: Settings, labelMapLines: seq<string>, numbers: Numbers)
    returns (r: Result<Parser>)
    requires |info.featureNames| == |FeatureColumns(info.nonFeature)|
    ensures r.Success? <==>
      && LabelMapReadable(settings.labelMapFile, labelMapLines, numbers.stof)
      && (isSparse ==> RolesInFront(info.labelCol, settings.weightCol, settings.nameCol))
    ensures r.Success? ==> ParserFor(r.value, info, isSparse, settings, labelMapLines, numbers)
    ensures !LabelMapReadable(settings.labelMapFile, labelMapLines, numbers.stof) ==>
      r.Failure? && LabelMapRead(Failure(r.error), settings.labelMapFile, labelMapLines, numbers.stof)
    ensures (&& LabelMapReadable(settings.labelMapFile, labelMapLines, numbers.stof)
             && isSparse && !RolesInFront(info.labelCol, settings.weightCol, settings.nameCol)) ==>
      r == Failure(NonFeatureColumnsNotInFront)
  {
    var labelMap := ReadLabelMap(settings.labelMapFile, labelMapLines, numbers.stof);
    if labelMap.Failure? {
      return Failure(labelMap.error);
    }
    var dimension := info.Dimension();
    if isSparse {
      var sparse := NewSparseParser(dimension, info.labelCol, settings.weightCol, settings.nameCol,
                                    settings.separator, labelMap.value, numbers);
      if sparse.Failure? {
        return Failure(sparse.error);
      }
      r := Success(sparse.value);
    } else {
      var dense := NewDenseParser(dimension, info.labelCol, settings.weightCol, settings.nameCol, info.nonFeature,
                                  settings.separator, labelMap.value, numbers);
      r := Success(dense);
    }
  }

  /** TextLoader::State (lines 48-92). Two modes, told apart by the cache:
      with cached examples, `cursor` is the index of `current_` in the cache;
      without, `pos` is the line the stream reads next and `current` the last
      example parsed from it (None stands for a null `current_`). */
  class State {
    const lines: seq<string>
    const dataStart: nat
    const parser: Parser
    const cache: seq<Example>
    var pos: nat
    var cursor: nat
    var current: Option<Example>

    ghost predicate Valid()
      reads this
    {
      Parsers.Valid(parser) && dataStart <= pos <= |lines|
    }

    /** The example the state points at. */
    function Current(): Option<Example>
      reads this
    {
      if cache == [] then current
      else if cursor < |cache| then Some(cache[cursor])
      else None
    }

    /** Lines 68-72 without the call to Reset (see Open): the stream handed
        over at `position`, the cache (filled by Cache(), which is not part of
        this model) as given. */
    constructor (lines: seq<string>, dataStart: nat, position: nat, parser: Parser, cache: seq<Example>)
      requires Parsers.Valid(parser) && dataStart <= position <= |lines|
      ensures Valid()
      ensures this.lines == lines && this.dataStart == dataStart && this.parser == parser && this.cache == cache
      ensures pos == position && cursor == 0 && current == None
    {
      this.lines := lines;
      this.dataStart := dataStart;
      this.parser := parser;
      this.cache := cache;
      pos := position;
      cursor := 0;
      current := None;
    }

    /** Lines 53-66. Cached: point at the first cached example. Streaming: seek
        to the first data line, read it and parse it; the old example is
        released first, so a failed parse leaves none. Without a data line the
        read asserted at line 58 fails. */
    method Reset() returns (r: Result<()>)
      requires Valid()
      modifies this
      ensures Valid()
      ensures cache != [] ==>
        && r.Success? && cursor == 0 && Current() == Some(cache[0])
        && pos == old(pos) && current == old(current)
      ensures cache == [] && dataStart < |lines| ==>
        && pos == dataStart + 1 && cursor == old(cursor)
        && (Parse(parser, lines[dataStart]).Success? <==> r.Success?)
        && (r.Success? ==> Current() == Some(Parse(parser, lines[dataStart]).value))
        && (r.Failure? ==> r.error == Parse(parser, lines[dataStart]).error && Current() == None)
      ensures cache == [] && dataStart == |lines| ==>
        r == Failure(NoData) && pos == dataStart && cursor == old(cursor) && current == old(current)
    {
      if cache == [] {
        pos := dataStart;
        if pos == |lines| {
          return Failure(NoData);
        }
        var line := lines[pos];
        pos := pos + 1;
        current := None;
        var parsed := Parse(parser, line);
        if parsed.Failure? {
          return Failure(parsed.error);
        }
        current := Some(parsed.value);
        r := Success(());
      } else {
        cursor := 0;
        r := Success(());
      }
    }

    /** Lines 74-86. Cached: step the cursor and report whether it is still
        on a cached example. Streaming: read the next line and parse it, or
        report the end of the file and change nothing; a line that does not
        parse is consumed and leaves the current example as it was. */
    method MoveNext() returns (r: Result<bool>)
      requires Valid()
      modifies this
      ensures Valid()
      ensures cache != [] ==>
        && cursor == old(cursor) + 1
        && r == Success(cursor < |cache|)
        && (r.value <==> Current().Some?)
        && pos == old(pos) && current == old(current)
      ensures cache == [] && old(pos) == |lines| ==>
        r == Success(false) && pos == old(pos) && cursor == old(cursor) && current == old(current)
      ensures cache == [] && old(pos) < |lines| ==>
        && pos == old(pos) + 1 && cursor == old(cursor)
        && (Parse(parser, lines[old(pos)]).Success? ==>
              r == Success(true) && current == Some(Parse(parser, lines[old(pos)]).value))
        && (Parse(parser, lines[old(pos)]).Failure? ==>
              r == Failure(Parse(parser, lines[old(pos)]).error) && current == old(current))
    {
      if cache == [] {
        if pos == |lines| {
          return Success(false);
        }
        var line := lines[pos];
        pos := pos + 1;
        var parsed := Parse(parser, line);
        if parsed.Failure? {
          return Failure(parsed.error);
        }
        current := Some(parsed.value);
        return Success(true);
      }
      cursor := cursor + 1;
      return Success(cursor < |cache|);
    }
  }

  /** Lines 95-170: configure, then hand the stream (left just past the first
      data line) to a new State, whose constructor calls Reset. `config` is
      what the constructor settles on the way (schema_, isSparse_ and the
      parser); the loader exists when it succeeds and the first data line
      parses. The cache starts empty: Cache() (line 169) is not part of this
      model. */
  method Open(lines: seq<string>, settings: Settings, labelMapLines: seq<string>, numbers: Numbers)
    returns (config: Result<Loaded>, r: Result<State>)
    ensures (config == Failure(NoData)) <==> forall k :: 0 <= k < |lines| ==> IsSkipped(lines[k])
    ensures forall h :: IsHeaderIndex(lines, h) ==> ConfiguredFrom(config, lines, h, settings, labelMapLines, numbers)
    ensures config.Success? ==> 1 <= config.value.dataStart <= |lines| && Valid(config.value.parser)
    ensures config.Failure? ==> r == Failure(config.error)
    ensures config.Success? && config.value.dataStart == |lines| ==> r == Failure(NoData)
    ensures config.Success? && config.value.dataStart < |lines| ==>
      var first := Parse(config.value.parser, lines[config.value.dataStart]);
      && (r.Success? <==> first.Success?)
      && (r.Failure? ==> r.error == first.error)
    ensures r.Success? ==>
      && config.Success? && fresh(r.value) && r.value.Valid()
      && r.value.lines == lines && r.value.cache == []
      && r.value.parser == config.value.parser && r.value.dataStart == config.value.dataStart
      && r.value.dataStart < |lines| && r.value.pos == r.value.dataStart + 1
      && r.value.Current() == Some(Parse(r.value.parser, lines[r.value.dataStart]).value)
  {
    config := Configure(lines, settings, labelMapLines, numbers);
    if config.Failure? {
      return config, Failure(config.error);
    }
    var loaded := config.value;
    var position := if loaded.dataStart < |lines| then loaded.dataStart + 1 else |lines|;
    var state := new State(lines, loaded.dataStart, position, loaded.parser, []);
    var reset := state.Reset();
    if reset.Failure? {
      return config, Failure(reset.error);
    }
    r := Success(state);
  }

  // ---------------------------------------------------------------------
  // Reset as compiled and as run after the end of the file

  /** Line 58 in a build with NDEBUG defined: the getline inside `assert` is
      compiled away, so Reset parses the empty line it declared and the stream
      stays at the data start. The pair is (line parsed, position after). */
  function ReleaseResetRead(dataStart: nat): (read: (string, nat)) {
    ("", dataStart)
  }

  /** In such a build Reset parses "" instead of the first data line: with the
      label read as a float from column 0, stof("") fails, so the constructor
      throws on every file; and the first data line stays unread, so MoveNext
      would return it next. */
  lemma ReleaseResetParsesEmptyLine(p: Parser, lines: seq<string>, dataStart: nat)
    requires Parsers.Valid(p) && p.labelMap == map[] && p.labelCol == 0 && p.numbers.stof("") == None
    requires dataStart < |lines| && lines[dataStart] != ""
    ensures var read := ReleaseResetRead(dataStart);
      && read.0 != lines[dataStart]
      && Parse(p, read.0) == Failure(CannotParseFloat(""))
      && read.1 == dataStart
  {
    assert Split("", p.separator) == [""];
  }

  /** Line 56 as written: seekg on a stream whose failbit is set (getline set it
      when MoveNext hit the end of the file) does nothing, since only eofbit is
      cleared first. The position the stream is at after the seek. */
  function SeekAsWritten(failbit: bool, pos: nat, target: nat): nat {
    if failbit then pos else target
  }

  /** Lines 56-58 of a streaming Reset as written, from stream position `pos`
      with the stream's failbit as given: the seek, then the getline of line
      58. The pair is (line read, or None when getline fails; position after).
      A getline on a failed stream fails and leaves the failbit set. */
  function StreamingResetRead(lines: seq<string>, dataStart: nat, pos: nat, failbit: bool): (Option<string>, nat)
    requires dataStart <= |lines| && pos <= |lines|
  {
    var at := SeekAsWritten(failbit, pos, dataStart);
    if failbit || at == |lines| then (None, at) else (Some(lines[at]), at + 1)
  }

  /** As written, a streaming Reset after MoveNext ran to the end of the file
      reads nothing: the seek is skipped, the stream stays at the end and the
      getline of line 58 fails (its assert fires). On a stream without the
      failbit, as State.Reset assumes, the same steps read the first data line
      again. */
  lemma ResetAfterEndAsWritten(lines: seq<string>, dataStart: nat)
    requires dataStart < |lines|
    ensures StreamingResetRead(lines, dataStart, |lines|, true) == (None, |lines|)
    ensures StreamingResetRead(lines, dataStart, |lines|, false) == (Some(lines[dataStart]), dataStart + 1)
  {
  }
}
