/** Header selection and schema inference of TextLoader's constructor
    (src/DataProviders/TextLoader.cpp, lines 107-149): which line is the
    header, which columns are label, weight and name, and which are features. */
module Schema {
  import opened Records
  import opened Text

  /** The column value that means "not given" for a role column. */
  const Absent := -1

  /** Lines the header search passes over: blank or `//` comments, after trimming. */
  predicate IsSkipped(line: string) {
    var t := Trim(line);
    |t| == 0 || StartsWith(t, "//")
  }

  /** `h` is the header: the first line that is not skipped. */
  ghost predicate IsHeaderIndex(lines: seq<string>, h: int) {
    0 <= h < |lines| && !IsSkipped(lines[h]) && forall k :: 0 <= k < h ==> IsSkipped(lines[k])
  }

  /** Lines 107-113: read lines until one is neither blank nor a comment. */
  method FindHeader(lines: seq<string>) returns (r: Result<nat>)
    ensures r.Success? ==> IsHeaderIndex(lines, r.value)
    ensures r.Failure? ==> r.error == NoData && forall k :: 0 <= k < |lines| ==> IsSkipped(lines[k])
  {
    var i := 0;
    while i < |lines| && IsSkipped(lines[i])
      invariant 0 <= i <= |lines|
      invariant forall k :: 0 <= k < i ==> IsSkipped(lines[k])
    {
      i := i + 1;
    }
    if i == |lines| {
      return Failure(NoData);
    }
    return Success(i);
  }

  predicate StrictlyIncreasing(s: seq<int>) {
    forall i, j :: 0 <= i < j < |s| ==> s[i] < s[j]
  }

  /** A role column setting is acceptable: absent, or a column of the header. */
  predicate ColumnOk(col: int, numCols: nat) {
    col == Absent || 0 <= col < numCols
  }

  /** Column `c` is one of the given role columns. */
  predicate IsRole(c: int, labelCol: int, weightCol: int, nameCol: int) {
    c == labelCol || c == weightCol || c == nameCol
  }

  /** Lines 118-134 as intended: the explicit role columns are the non-feature ones. */
  function RoleMask(numCols: nat, labelCol: int, weightCol: int, nameCol: int): (mask: seq<bool>)
    ensures |mask| == numCols
    ensures forall i :: 0 <= i < numCols ==> (mask[i] <==> IsRole(i, labelCol, weightCol, nameCol))
  {
    seq(numCols, i => IsRole(i, labelCol, weightCol, nameCol))
  }

  /** Lines 118-134 as written: the weight branch (line 133) marks `nameCol`.
      None when that index lies outside the vector, as it does when no name
      column is given (undefined behaviour in C++). */
  function RoleMaskAsWritten(numCols: nat, labelCol: int, weightCol: int, nameCol: int): Option<seq<bool>> {
    if weightCol != Absent && !(0 <= nameCol < numCols) then None
    else Some(seq(numCols, i => IsRole(i, labelCol, nameCol, nameCol)))
  }

  /** The first column not yet marked, or -1 when every column is marked. */
  function FirstFree(mask: seq<bool>): (i: int)
    ensures -1 <= i < |mask|
    ensures i >= 0 ==> !mask[i] && forall k :: 0 <= k < i ==> mask[k]
    ensures i == -1 ==> forall k :: 0 <= k < |mask| ==> mask[k]
  {
    if mask == [] then -1
    else if !mask[0] then 0
    else
      var j := FirstFree(mask[1..]);
      if j == -1 then -1 else j + 1
  }

  /** The unmarked columns in increasing order. */
  function FeatureColumns(mask: seq<bool>): (cols: seq<nat>)
    ensures forall k :: 0 <= k < |cols| ==> cols[k] < |mask|
  {
    if mask == [] then []
    else
      var init := FeatureColumns(mask[..|mask| - 1]);
      if mask[|mask| - 1] then init else init + [|mask| - 1]
  }

  /** The number of marked columns. */
  function CountMarked(mask: seq<bool>): nat {
    if mask == [] then 0
    else CountMarked(mask[..|mask| - 1]) + (if mask[|mask| - 1] then 1 else 0)
  }

  /** FeatureColumns lists exactly the unmarked columns, each once, in order,
      so there are as many of them as columns left over by the roles. */
  lemma {:induction false} FeatureColumnsSpec(mask: seq<bool>)
    ensures var cols := FeatureColumns(mask);
      && StrictlyIncreasing(cols)
      && (forall k :: 0 <= k < |cols| ==> !mask[cols[k]])
      && (forall c :: 0 <= c < |mask| && !mask[c] ==> c in cols)
      && |cols| + CountMarked(mask) == |mask|
  {
    if mask != [] {
      var init := mask[..|mask| - 1];
      FeatureColumnsSpec(init);
      assert forall c :: 0 <= c < |init| ==> init[c] == mask[c];
    }
  }

  lemma FeatureColumnsSnoc(mask: seq<bool>, b: bool)
    ensures FeatureColumns(mask + [b]) == FeatureColumns(mask) + (if b then [] else [|mask|])
  {
    assert (mask + [b])[..|mask|] == mask;
  }

  /** The tokens of `cols` at positions `idx`. */
  function Select(cols: seq<string>, idx: seq<nat>): (r: seq<string>)
    requires forall k :: 0 <= k < |idx| ==> idx[k] < |cols|
    ensures |r| == |idx| && forall k :: 0 <= k < |idx| ==> r[k] == cols[idx[k]]
  {
    seq(|idx|, k requires 0 <= k < |idx| => cols[idx[k]])
  }

  /** What schema inference settles: the feature names (their number is the
      dimension), the final role columns and the non-feature mask. */
  datatype SchemaInfo = SchemaInfo(
    featureNames: seq<string>,
    labelCol: int,
    weightCol: int,
    nameCol: int,
    nonFeature: seq<bool>)
  {
    function Dimension(): nat {
      |featureNames|
    }
  }

  /** The mask after the scan of lines 137-147: the roles, plus the first
      free column when it is taken as the implicit label. */
  function FinalMask(mask: seq<bool>, labelCol: int): (m: seq<bool>)
    ensures |m| == |mask|
  {
    if labelCol == Absent && FirstFree(mask) >= 0 then mask[FirstFree(mask) := true] else mask
  }

  /** `info` is the schema inferred from the header columns `cols` and the role settings. */
  ghost predicate InferredFrom(info: SchemaInfo, cols: seq<string>, labelCol: int, weightCol: int, nameCol: int) {
    var mask := RoleMask(|cols|, labelCol, weightCol, nameCol);
    && info.weightCol == weightCol
    && info.nameCol == nameCol
    && info.labelCol == (if labelCol == Absent then FirstFree(mask) else labelCol)
    && info.nonFeature == FinalMask(mask, labelCol)
    && info.featureNames == Select(cols, FeatureColumns(info.nonFeature))
  }

  /** Lines 115-149: split the header, check and mark the explicit role columns,
      then scan the columns: the first free one becomes the label when none was
      given, every other free one is a feature. */
  method InferSchema(header: string, separator: char, labelCol: int, weightCol: int, nameCol: int)
    returns (r: Result<SchemaInfo>)
    ensures var n := |Split(header, separator)|;
      r.Failure? <==> !ColumnOk(labelCol, n) || !ColumnOk(nameCol, n) || !ColumnOk(weightCol, n)
    ensures var n := |Split(header, separator)|;
      r.Failure? ==> r.error == ColumnOutOfRange(
        if !ColumnOk(labelCol, n) then LabelRole else if !ColumnOk(nameCol, n) then NameRole else WeightRole)
    ensures r.Success? ==> InferredFrom(r.value, Split(header, separator), labelCol, weightCol, nameCol)
  {
    var cols := Split(header, separator);
    var numCols := |cols|;
    var isNonFeature := new bool[numCols](_ => false);
    if labelCol != Absent {
      if !(0 <= labelCol < numCols) {
        return Failure(ColumnOutOfRange(LabelRole));
      }
      isNonFeature[labelCol] := true;
    }
    if nameCol != Absent {
      if !(0 <= nameCol < numCols) {
        return Failure(ColumnOutOfRange(NameRole));
      }
      isNonFeature[nameCol] := true;
    }
    if weightCol != Absent {
      if !(0 <= weightCol < numCols) {
        return Failure(ColumnOutOfRange(WeightRole));
      }
      // Line 133 marks nameCol here; see RoleMaskAsWritten and WeightColumnTakenAsLabel.
      isNonFeature[weightCol] := true;
    }
    assert isNonFeature[..] == RoleMask(numCols, labelCol, weightCol, nameCol);
    var inferred, featureNames := ScanColumns(cols, isNonFeature, labelCol);
    r := Success(SchemaInfo(featureNames, inferred, weightCol, nameCol, isNonFeature[..]));
  }

  /** Lines 136-147: the scan over the header columns. A column not yet
      marked becomes the label while none is known, and a feature after that. */
  method ScanColumns(cols: seq<string>, isNonFeature: array<bool>, labelCol: int)
    returns (inferred: int, featureNames: seq<string>)
    requires isNonFeature.Length == |cols|
    modifies isNonFeature
    ensures inferred == if labelCol == Absent then FirstFree(old(isNonFeature[..])) else labelCol
    ensures isNonFeature[..] == FinalMask(old(isNonFeature[..]), labelCol)
    ensures featureNames == Select(cols, FeatureColumns(isNonFeature[..]))
  {
    ghost var mask := isNonFeature[..];
    inferred := labelCol;
    featureNames := [];
    ghost var fc: seq<nat> := [];
    for i := 0 to |cols|
      invariant labelCol != Absent ==> inferred == labelCol
      invariant labelCol == Absent && inferred == Absent ==> forall k :: 0 <= k < i ==> mask[k]
      invariant labelCol == Absent && inferred != Absent ==>
        0 <= inferred < i && !mask[inferred] && forall k :: 0 <= k < inferred ==> mask[k]
      invariant isNonFeature[..] == if labelCol == Absent && inferred != Absent then mask[inferred := true] else mask
      invariant fc == FeatureColumns(isNonFeature[..i])
      invariant featureNames == Select(cols, fc)
    {
      ghost var done := isNonFeature[..i];
      if !isNonFeature[i] {
        if inferred == Absent {
          isNonFeature[i] := true;
          inferred := i;
        } else {
          featureNames := featureNames + [cols[i]];
        }
      }
      assert isNonFeature[..i + 1] == done + [isNonFeature[i]];
      FeatureColumnsSnoc(done, isNonFeature[i]);
      fc := if isNonFeature[i] then fc else fc + [i];
    }
    assert isNonFeature[..|cols|] == isNonFeature[..];
    assert labelCol == Absent ==> inferred == FirstFree(mask);
  }

  /** The schema's bookkeeping: the label column (when there is one) is a
      marked column, and the dimension is the number of header columns less
      the marked ones. */
  lemma SchemaDimension(info: SchemaInfo, cols: seq<string>, labelCol: int, weightCol: int, nameCol: int)
    requires ColumnOk(labelCol, |cols|) && ColumnOk(weightCol, |cols|) && ColumnOk(nameCol, |cols|)
    requires InferredFrom(info, cols, labelCol, weightCol, nameCol)
    ensures info.Dimension() + CountMarked(info.nonFeature) == |cols|
    ensures info.labelCol != Absent ==> 0 <= info.labelCol < |cols| && info.nonFeature[info.labelCol]
    ensures forall k :: 0 <= k < info.Dimension() ==> info.featureNames[k] == cols[FeatureColumns(info.nonFeature)[k]]
  {
    FeatureColumnsSpec(info.nonFeature);
  }

  /** When no label column is given, the label is the first column that is
      not a weight or name column, and every later free column is a feature,
      in column order. */
  lemma ImplicitLabel(info: SchemaInfo, cols: seq<string>, weightCol: int, nameCol: int)
    requires InferredFrom(info, cols, Absent, weightCol, nameCol)
    ensures info.labelCol == Absent <==> forall c :: 0 <= c < |cols| ==> IsRole(c, Absent, weightCol, nameCol)
    ensures info.labelCol != Absent ==>
      && !IsRole(info.labelCol, Absent, weightCol, nameCol)
      && forall c :: 0 <= c < info.labelCol ==> IsRole(c, Absent, weightCol, nameCol)
    ensures forall c :: 0 <= c < |cols| ==>
      (c in FeatureColumns(info.nonFeature) <==> !IsRole(c, info.labelCol, weightCol, nameCol))
  {
    var mask := RoleMask(|cols|, Absent, weightCol, nameCol);
    FeatureColumnsSpec(info.nonFeature);
    var fc := FeatureColumns(info.nonFeature);
    forall c | 0 <= c < |cols| && c in fc
      ensures c != info.labelCol && c != weightCol && c != nameCol
    {
      var k :| 0 <= k < |fc| && fc[k] == c;
      assert !info.nonFeature[c];
    }
  }

  /** Line 133 as written lets a weight column through as a feature, and with
      no label column given it is even taken as the label: header columns
      (w, n, f) with weight column 0 and name column 1 get label column 0,
      where the intended mask gives label column 2. */
  lemma WeightColumnTakenAsLabel()
    ensures RoleMaskAsWritten(3, Absent, 0, 1) == Some([false, true, false])
    ensures FirstFree([false, true, false]) == 0
    ensures FirstFree(RoleMask(3, Absent, 0, 1)) == 2
  {
    assert seq(3, i => IsRole(i, Absent, 1, 1)) == [false, true, false];
    assert RoleMask(3, Absent, 0, 1) == [true, true, false];
    assert [true, true, false][1..] == [true, false];
    assert [true, false][1..] == [false];
  }

  /** With the weight column marked (line 133 read as intended) every explicit
      role column is excluded from the features. */
  lemma RoleColumnsExcluded(cols: seq<string>, labelCol: int, weightCol: int, nameCol: int, info: SchemaInfo)
    requires InferredFrom(info, cols, labelCol, weightCol, nameCol)
    ensures forall c :: c in FeatureColumns(info.nonFeature) ==> c != labelCol && c != weightCol && c != nameCol
  {
    FeatureColumnsSpec(info.nonFeature);
    var fc := FeatureColumns(info.nonFeature);
    forall c | c in fc
      ensures c != labelCol && c != weightCol && c != nameCol
    {
      var k :| 0 <= k < |fc| && fc[k] == c;
      assert !info.nonFeature[c];
    }
  }
}
