/** The values the loader produces and the errors it raises. */
module Records {

  datatype Option<+T> = None | Some(value: T)

  /** The outcome of an operation that can raise one of the loader's errors. */
  datatype Result<+T> = Success(value: T) | Failure(error: Error) {
    predicate IsFailure() {
      Failure?
    }

    function PropagateFailure<U>(): Result<U>
      requires Failure?
    {
      Failure(error)
    }

    function Extract(): T
      requires Success?
    {
      value
    }
  }

  /** The role columns a dataset may declare. */
  datatype Role = LabelRole | NameRole | WeightRole

  /** Every error the loader raises, one constructor per check. */
  datatype Error =
    | NoData                          // no header line, or no data line to re-read
    | ColumnOutOfRange(role: Role)    // an explicit role column outside the header
    | InvalidData                     // the first data row is wider than the header
    | NonFeatureColumnsNotInFront     // sparse rows need the role columns first
    | LabelMapTooShort                // a label map file of at most one line
    | LabelMapTooWide                 // a label map whose first line has 3+ columns
    | DuplicateKey                    // a repeated key in an enumerated label map
    | LabelMapColumns                 // an explicit label map line without 2 columns
    | LabelMapValue                   // an explicit label map value that is no float
    | MissingColumn(column: int)      // a row too short for a role column
    | UnknownLabel(key: string)       // a label that the label map lacks
    | CannotParseFloat(token: string) // a label, weight or dense feature that is no float
    | WrongNumberOfColumns            // a dense row too short for its features
    | ColumnCountOutOfRange           // a sparse row with no or too many features
    | CannotParse(token: string)      // a sparse token that is not index:value
    | IndicesNotOrdered(token: string) // a sparse index not above the last or too large

  /** A feature vector: one value per feature, or the nonzero ones by index. */
  datatype Vector =
    | Dense(values: seq<real>)
    | Sparse(dimension: nat, indices: seq<int>, values: seq<real>)

  /** One labelled training example; weight defaults to 1. */
  datatype Example = Example(features: Vector, labelValue: real, weight: real, name: Option<string>)

  /** The two float conversions of the C++ library, taken as given:
      `stof` fails (throws) on text it cannot convert; `strtof` fails only
      where it sets errno. Neither is modelled further. */
  datatype Numbers = Numbers(stof: string -> Option<real>, strtof: string -> Option<real>)
}
