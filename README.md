# TextLoader: a Dafny model

This project models the text data loader of MLx
(`src/DataProviders/TextLoader.cpp`). The loader reads a tab-separated
data file and turns it into training examples. An example holds a feature
vector, a label, a weight and an optional name. The model covers:

- the search for the header line, which is the first line that is neither
  blank nor a `//` comment;
- schema inference: the explicit label, weight and name columns are checked
  and marked, the first free column becomes the label when none is given,
  and every other free column is a feature;
- the choice between a dense and a sparse file, made from the width of the
  first data row;
- the optional label map, read in one of two modes: one column (labels
  numbered 0, 1, 2, ... in file order) or two columns (`key<TAB>value`);
- `ExampleParser::Parse` with its two variants. The dense parser reads one
  float per feature column. The sparse parser reads `index:value` tokens
  that follow the role columns.
- `TextLoader::State`: `Reset` and `MoveNext` over an in-memory cache or
  over the file stream.

The modules are:

- `Text`: splitting, trimming and blank tests;
- `Records`: examples, vectors, the error of each check, and the `Result`
  and `Option` types;
- `Schema`: header search and schema inference;
- `LabelMaps`: the label map;
- `Parsers`: the parsers;
- `Loader`: the constructor and the iteration state.

A file is a sequence of lines, and a stream position is a line index. The
library's float conversions `stof` and `strtof` are parameters, given as
`Numbers`. An exception in the source is a `Failure` in the model, and a
null `current_` is `None`.

Where the source departs from what it evidently means to do, the model
keeps the intended behaviour. It also holds a member that shows the
behaviour as written (see "## Findings").

## Model

| member | source | states |
|---|---|---|
| `Schema.FindHeader` | src/DataProviders/TextLoader.cpp:107-113 | The header is the first line whose trimmed text is neither empty nor starts with `//`. There is no data exactly when every line is skipped. |
| `Schema.FirstFree` | src/DataProviders/TextLoader.cpp:137-145 | The implicit label column is the first unmarked column, or none when all are marked. |
| `Schema.InferSchema` | src/DataProviders/TextLoader.cpp:115-149 | Fails exactly when a given role column lies outside the header, with the label, name, weight order of the checks. On success the schema is the one the role mask and the scan define. |
| `Schema.ScanColumns` | src/DataProviders/TextLoader.cpp:136-147 | The scan marks the first free column as the label when none is given. The feature names are the header names of the columns left unmarked, in column order. |
| `Schema.FeatureColumnsSpec` | src/DataProviders/TextLoader.cpp:136-147 | The feature columns are exactly the unmarked columns, strictly increasing, and number the header width less the marked columns. |
| `Schema.SchemaDimension` | src/DataProviders/TextLoader.cpp:136-149 | The dimension plus the marked columns is the header width. An inferred label column is a marked column inside the header. Feature k is named by its column. |
| `Schema.ImplicitLabel` | src/DataProviders/TextLoader.cpp:137-145 | Without a given label there is no label exactly when every column is a weight or name column. Otherwise the label is the first other column, and the features are the columns that have no role. |
| `Schema.RoleColumnsExcluded` | src/DataProviders/TextLoader.cpp:118-134 | No explicit role column is ever a feature column. |
| `Schema.WeightColumnTakenAsLabel` | src/DataProviders/TextLoader.cpp:130-134 | As written, header (w, n, f) with weight column 0 and name column 1 takes the weight column as the label, where the intended mask gives column 2. |
| `LabelMaps.EnumerateLabels` | src/DataProviders/TextLoader.cpp:183-190 | The one-column map exists exactly when no line repeats, and then maps line k to k and holds no other key. A repeat is `DuplicateKey`. |
| `LabelMaps.ExplicitMapKeys` | src/DataProviders/TextLoader.cpp:191-203 | The keys of the two-column map are the first tokens of its lines. |
| `LabelMaps.ExplicitMapValues` | src/DataProviders/TextLoader.cpp:191-203 | Each key maps to the value on the last line that carries it. |
| `LabelMaps.ReadLabelValues` | src/DataProviders/TextLoader.cpp:191-203 | The two-column map exists exactly when every line has two tokens and a float value. The first bad line decides the error. On success the map is the one the entries build in file order. |
| `LabelMaps.ReadLabelMap` | src/DataProviders/TextLoader.cpp:172-205 | The map exists exactly when it is readable: the path is blank, or the file has more than one line, its first line has one or two columns, and the lines are distinct (one column) or all entries (two columns). A blank path gives the empty map. A file of at most one line is `LabelMapTooShort`, a first line of three or more columns `LabelMapTooWide`, and otherwise the first line's width picks the mode. A map read from a file is never empty. |
| `Parsers.Parse` | src/DataProviders/TextLoader.cpp:207-212 | A line parses exactly when its label (looked up in the map or read as a float), its weight if any, its features and its name column if any can be read. The Example then holds those values, with weight 1 when there is no weight column. Otherwise the first step that fails gives the error: `MissingColumn` for a role column beyond the row, `CannotParseFloat` or `UnknownLabel` for the label, `CannotParseFloat` for the weight, and the feature parser's own error. |
| `Parsers.NewDenseParser` | src/DataProviders/TextLoader.cpp:214-222 | The parse indices are the unmarked columns in increasing order, each unmarked column among them. |
| `Parsers.ParseAll` | src/DataProviders/TextLoader.cpp:227-228 | All tokens convert exactly when each converts. Value k is token k's float, and otherwise the first bad token is reported. |
| `Parsers.DenseFeatures` | src/DataProviders/TextLoader.cpp:224-230 | A dense row needs a column at its last parse index, and feature k is the float of column parseIndices[k]. A short row is `WrongNumberOfColumns`. Otherwise a failure is `CannotParseFloat` of the first feature column that is no float. |
| `Parsers.ParseDenseFeatures` | src/DataProviders/TextLoader.cpp:224-230 | The loop over the feature array yields exactly `DenseFeatures`. |
| `Parsers.FeatureColumnOffset` | src/DataProviders/TextLoader.cpp:235 | Sparse features start after 1 to 3 role columns. |
| `Parsers.NewSparseParser` | src/DataProviders/TextLoader.cpp:232-238 | A sparse parser exists exactly when every role column lies before the feature offset, and is `NonFeatureColumnsNotInFront` otherwise. |
| `Parsers.RolesFormPrefix` | src/DataProviders/TextLoader.cpp:235-237 | When the check passes, the distinct present role columns are exactly the columns before the offset. |
| `Parsers.AbsentColumnRejectedAsWritten` | src/DataProviders/TextLoader.cpp:236-237 | As written, the check refuses every sparse file that lacks a weight or a name column, including the default settings that the intended check accepts. |
| `Parsers.ToInt32` | src/DataProviders/TextLoader.cpp:252 | Storing a long into an int keeps the value when it fits in 32 bits, and always yields a 32-bit value. |
| `Parsers.DigitRun` | src/DataProviders/TextLoader.cpp:252 | strtol's digit run: only digits, ended by a non-digit or the end. |
| `Parsers.ParseIndex` | src/DataProviders/TextLoader.cpp:252-254 | An accepted token has a colon right after a decimal digit, the text handed on as the value is exactly what follows that colon, and the index fits in a C int. |
| `Parsers.FormatIndexValue` | src/DataProviders/TextLoader.cpp:252 | The value strtol accumulates from a digit run inverts decimal formatting (`FormatIndex`, the reference inverse the round trip below uses): reading the decimal text of n gives back n. |
| `Parsers.ParseIndexOfFormatted` | src/DataProviders/TextLoader.cpp:252-254 | The token `n:value` reads as index n and remainder `value` for every n a long holds. Indices above the int range wrap around instead of being refused. |
| `Parsers.SparseScan` | src/DataProviders/TextLoader.cpp:248-263 | The scan fails only with `CannotParse` or `IndicesNotOrdered` of one of its tokens. On success it yields one index and one value per token, and every index lies between the index before the tokens and the dimension. |
| `Parsers.SparseScanSpec` | src/DataProviders/TextLoader.cpp:248-263 | The scan succeeds exactly on tokens that are all readable and whose indices rise strictly from -1 and stay below the dimension. It then yields one index and value per token, in order. |
| `Parsers.SparseScanFailure` | src/DataProviders/TextLoader.cpp:248-259 | A failed scan stops at the first token whose checks fail, every token before it being accepted. Its error is that token's: `CannotParse` for an unreadable index, else `IndicesNotOrdered` for an index not above the one before it or not below the dimension, else `CannotParse` for an unreadable value. |
| `Parsers.SparseFeatures` | src/DataProviders/TextLoader.cpp:240-266 | A sparse row needs 1 to dimension tokens after the role columns, and yields their strictly increasing indices, all in [0, dimension), with their values. Any other count is `ColumnCountOutOfRange`. Otherwise a failure is the error of the first token whose checks fail, all tokens before it being accepted. |
| `Parsers.ParseSparseFeatures` | src/DataProviders/TextLoader.cpp:240-266 | The loop over the index and value arrays yields exactly `SparseFeatures` on the same index reader. |
| `Parsers.SlotsOutOfBoundsAsWritten` | src/DataProviders/TextLoader.cpp:260-261 | As written, the last write of a row lands past the end of its arrays and slot 0 is never written. |
| `Text.SplitJoin` | src/DataProviders/TextLoader.cpp:115 | Splitting loses nothing: no token holds the separator, and the tokens join back to the line. |
| `Loader.Configure` | src/DataProviders/TextLoader.cpp:107-163 | There is no data exactly when every line is skipped. Otherwise the result is what `ConfiguredFrom` says for the unique header line, and a configured parser is well formed. |
| `Loader.HeaderUnique` | src/DataProviders/TextLoader.cpp:107-113 | At most one line is the header. |
| `Loader.ConfigureFrom` | src/DataProviders/TextLoader.cpp:115-163 | The checks run in the source's order: role columns in the header (else `ColumnOutOfRange` of the first bad one), a first data row no wider than the header (else `InvalidData`), a readable label map (else its error), and role columns in front for a sparse file (else `NonFeatureColumnsNotInFront`). The result is a success exactly when all pass. A narrower row means sparse and an equal one dense. The schema is the inferred one, and the parser is the one `ParserFor` pins, label map included. |
| `Loader.BuildParser` | src/DataProviders/TextLoader.cpp:160-163 | A parser is built exactly when the label map reads and, for a sparse file, the role columns are in front. Its label map is the one read from the file, its dense indices are the feature columns, and it carries the schema's dimension and roles. Each failure names its cause. |
| `Loader.State.constructor` | src/DataProviders/TextLoader.cpp:68-72 | The state starts at the given stream position with no current example. |
| `Loader.State.Reset` | src/DataProviders/TextLoader.cpp:53-66 | Cached: points at the first cached example. Streaming: reads the first data line again and parses it, leaving no example on failure, and fails when there is no data line. |
| `Loader.State.MoveNext` | src/DataProviders/TextLoader.cpp:74-86 | Cached: steps on and reports whether an example remains. Streaming: false at the end of the file with nothing changed. Otherwise it consumes one line and parses it, and a failed parse keeps the current example. |
| `Loader.Open` | src/DataProviders/TextLoader.cpp:94-170 | The configuration is the one `ConfiguredFrom` pins. The loader opens exactly when the configuration succeeds and the first data line exists and parses, and otherwise fails with the first error. An opened loader holds the configured parser, is positioned just past the first data line, and its current example is that line's Example. |
| `Loader.ReleaseResetParsesEmptyLine` | src/DataProviders/TextLoader.cpp:58 | With NDEBUG, Reset parses the empty line instead of the first data line, fails to read its label, and leaves the stream at the data start. |
| `Loader.ResetAfterEndAsWritten` | src/DataProviders/TextLoader.cpp:56-58 | As written, a streaming Reset after MoveNext reached the end of the file skips the seek, stays at the end and reads no line. The same steps on a stream without the failbit read the first data line again. |

## Left out

- Opening the data file and reading the label map file (lines 96-97, 178): the model receives both files as their lines. The model's data file is a sequence of newline-terminated lines.
- Loader.Configure: assumes a newline after the header. Without one, getline leaves the stream at its end and line 113 reports no data, but the model configures normally.
- The settings string (line 99 leaves it unparsed): `Settings` is a parameter, and `DefaultSettings` holds the values of lines 100-104.
- The `cache` flag and `State::Cache()` (lines 105, 168-169): the cache is a constructor argument, and `Loader.Open` starts with an empty one.
- `stof` and `strtof` are not modelled. They are the parameters in `Numbers`, and each returns `None` where the library throws or sets errno. Floats are unbounded reals, with no rounding to 32 bits and no NaN or infinity.
- The sparse index check (lines 253-254) reads errno without clearing it first. The model assumes errno starts clear.
- LabelMaps.EnumerateLabels: the counter of line 188 is a C `float`, which is exact only up to 2^24. The model counts exactly.
- Parsers.Parse: the source indexes a row with no range check for the label, weight and name columns, which is undefined behaviour on a short row. The model fails with `MissingColumn`.
- Parsers.DenseFeatures: line 225 calls `back()` on an empty index list when the dimension is 0, which is undefined behaviour. The model fails with `WrongNumberOfColumns`.
- Parsers.ParseSparseFeatures: the check of line 264 always passes because every accepted index is below the dimension. The model asserts this and has no branch for it.
- Parsers.ParseSparseFeatures: the index reader is a parameter. `Parsers.Parse` passes `ParseIndex`, the model of strtol on a 64-bit long.
- Loader.State.MoveNext: in cached mode, stepping past the end moves the C++ pointer beyond the array, which is undefined. The model keeps counting, and `Current()` is `None` there.
- Memory ownership is not modelled. That covers the `delete current_` of Reset, the Example that MoveNext leaks, and pointers into the cache. A failed parse in a streaming Reset leaves no current example, because the old one was deleted first.
- The exception types (`domain_error`, `FormatException`, `out_of_range`, `invalid_argument`) are merged into one `Error` constructor per check.
- `DataSchema`, `Example` and the vector classes are records in the model. Their own code is not part of this model, and neither is the implementation of `Split`, `Trim`, `IsEmptyOrWhiteSpace` and `ReadAllLines`: `Text` defines them as their uses here require.

## Findings

| source | as written | input that shows it | evidently intended | confidence | as-written member | corrected member |
|---|---|---|---|---|---|---|
| src/DataProviders/TextLoader.cpp:133 | the weight branch marks `isNonFeature[nameCol]` | header `w<TAB>n<TAB>f`, weight column 0, name column 1, no label column: column 0 (the weight) becomes the label | mark `isNonFeature[weightCol]` | high; not executed | `Schema.WeightColumnTakenAsLabel` | `Schema.InferSchema` |
| src/DataProviders/TextLoader.cpp:260-261 | the arrays are written at `j = i + offset` | the row `1<TAB>3:0.2` (offset 1, one feature) writes slot 1 of one-element arrays | write slot `i` | high; not executed | `Parsers.SlotsOutOfBoundsAsWritten` | `Parsers.ParseSparseFeatures` |
| src/DataProviders/TextLoader.cpp:236 | int role columns are compared with a `size_t` offset, so an absent column (-1) becomes 2^64-1 | a sparse file with the default settings (label inferred at column 0, no weight, no name) | compare as signed integers | high; not executed | `Parsers.AbsentColumnRejectedAsWritten` | `Parsers.NewSparseParser` |
| src/DataProviders/TextLoader.cpp:58 | the `getline` that Reset needs sits inside `assert` | any build with NDEBUG: Reset parses `""` and the stream stays at the first data line | read the line, then check the read | high; not executed | `Loader.ReleaseResetParsesEmptyLine` | `Loader.State.Reset` |
| src/DataProviders/TextLoader.cpp:56 | `seekg` without `clear()` after MoveNext has hit the end of the file | streaming: call MoveNext until it returns false, then Reset: the seek is ignored and the read fails | clear the stream state before the seek | medium; not executed | `Loader.ResetAfterEndAsWritten` | `Loader.State.Reset` |
