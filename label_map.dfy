/** The label map of ExampleParser's constructor
    (src/DataProviders/TextLoader.cpp, lines 172-205): a table from label
    text to label value, read from an optional file. */
module LabelMaps {
  import opened Records
  import opened Text

  /** No line repeats an earlier one. */
  predicate Distinct(lines: seq<string>) {
    forall i, j :: 0 <= i < j < |lines| ==> lines[i] != lines[j]
  }

  /** Each line of the file split at its tabs, as the two-column loop does. */
  function SplitLines(lines: seq<string>): (rows: seq<seq<string>>)
    ensures |rows| == |lines|
    ensures forall i :: 0 <= i < |lines| ==> rows[i] == Split(lines[i], '\t') && rows[i] != []
  {
    seq(|lines|, i requires 0 <= i < |lines| => Split(lines[i], '\t'))
  }

  /** A two-column line: exactly two tokens, the second a float. */
  predicate IsEntry(row: seq<string>, stof: string -> Option<real>) {
    |row| == 2 && stof(row[1]).Some?
  }

  /** The key of a line: its first token (Split never returns no token). */
  function Key(row: seq<string>): string {
    if row == [] then "" else row[0]
  }

  /** The value of a two-column line. */
  function Value(row: seq<string>, stof: string -> Option<real>): real
    requires IsEntry(row, stof)
  {
    stof(row[1]).value
  }

  /** The error the two-column loop raises on a line that is not an entry. */
  function EntryError(row: seq<string>): Error {
    if |row| != 2 then LabelMapColumns else LabelMapValue
  }

  /** No row after `k` (up to `n`) has the key of row `k`. */
  predicate LastWithKey(rows: seq<seq<string>>, k: nat, n: nat)
    requires k < n <= |rows|
  {
    forall j :: k < j < n ==> Key(rows[j]) != Key(rows[k])
  }

  /** What the one-column mode promises: the map exists iff no key repeats, and
      then numbers the lines 0, 1, 2, ... in file order. */
  ghost predicate EnumeratedFrom(r: Result<map<string, real>>, lines: seq<string>) {
    && (r.Success? <==> Distinct(lines))
    && (r.Failure? ==> r.error == DuplicateKey)
    && (r.Success? ==>
          && r.value.Keys == (set k | 0 <= k < |lines| :: lines[k])
          && forall k :: 0 <= k < |lines| ==> r.value[lines[k]] == k as real)
  }

  /** The map the two-column mode builds from its rows, all entries: each
      row in turn sets its key to its value. */
  function ExplicitMap(rows: seq<seq<string>>, stof: string -> Option<real>): map<string, real>
    requires forall k :: 0 <= k < |rows| ==> IsEntry(rows[k], stof)
    decreases |rows|
  {
    if rows == [] then map[]
    else
      var last := rows[|rows| - 1];
      assert IsEntry(last, stof);
      ExplicitMap(rows[..|rows| - 1], stof)[Key(last) := Value(last, stof)]
  }

  /** One more row sets its key to its value. */
  lemma ExplicitMapStep(rows: seq<seq<string>>, stof: string -> Option<real>, k: nat)
    requires k < |rows| && forall j :: 0 <= j <= k ==> IsEntry(rows[j], stof)
    ensures ExplicitMap(rows[..k + 1], stof) == ExplicitMap(rows[..k], stof)[rows[k][0] := Value(rows[k], stof)]
  {
    assert rows[..k + 1][..k] == rows[..k];
  }

  /** The keys of the map are the keys of the rows. */
  lemma {:induction false} ExplicitMapKeys(rows: seq<seq<string>>, stof: string -> Option<real>)
    requires forall k :: 0 <= k < |rows| ==> IsEntry(rows[k], stof)
    ensures ExplicitMap(rows, stof).Keys == set k | 0 <= k < |rows| :: Key(rows[k])
    decreases |rows|
  {
    if rows != [] {
      var n := |rows| - 1;
      var init := rows[..n];
      ExplicitMapKeys(init, stof);
      assert forall k :: 0 <= k < n ==> init[k] == rows[k];
      assert (set k | 0 <= k < |rows| :: Key(rows[k])) == (set k | 0 <= k < n :: Key(init[k])) + {Key(rows[n])};
    }
  }

  /** Each key has the value of the last row that carries it. */
  lemma {:induction false} ExplicitMapValues(rows: seq<seq<string>>, stof: string -> Option<real>)
    requires forall k :: 0 <= k < |rows| ==> IsEntry(rows[k], stof)
    ensures forall k :: 0 <= k < |rows| && LastWithKey(rows, k, |rows|) ==>
      Key(rows[k]) in ExplicitMap(rows, stof) && ExplicitMap(rows, stof)[Key(rows[k])] == Value(rows[k], stof)
    decreases |rows|
  {
    if rows != [] {
      var n := |rows| - 1;
      var init := rows[..n];
      ExplicitMapValues(init, stof);
      forall k | 0 <= k < |rows| && LastWithKey(rows, k, |rows|)
        ensures Key(rows[k]) in ExplicitMap(rows, stof) && ExplicitMap(rows, stof)[Key(rows[k])] == Value(rows[k], stof)
      {
        if k < n {
          assert Key(rows[n]) != Key(rows[k]);
          assert init[k] == rows[k];
          assert LastWithKey(init, k, n) by {
            forall j | k < j < n ensures Key(init[j]) != Key(init[k]) {
              assert init[j] == rows[j];
            }
          }
        }
      }
    }
  }

  /** What the two-column mode promises, on the split lines: the map exists
      iff every line is an entry, the first bad line decides the error, and
      the map is the one the rows build. */
  ghost predicate ExplicitFrom(r: Result<map<string, real>>, rows: seq<seq<string>>, stof: string -> Option<real>) {
    && (r.Success? <==> forall k :: 0 <= k < |rows| ==> IsEntry(rows[k], stof))
    && (r.Failure? ==> exists k :: 0 <= k < |rows| && !IsEntry(rows[k], stof)
                         && (forall j :: 0 <= j < k ==> IsEntry(rows[j], stof))
                         && r.error == EntryError(rows[k]))
    && (r.Success? ==> r.value == ExplicitMap(rows, stof))
  }

  /** Lines 183-190: each whole line is a key, numbered by a counter from 0. */
  method EnumerateLabels(lines: seq<string>) returns (r: Result<map<string, real>>)
    ensures EnumeratedFrom(r, lines)
  {
    var labelMap: map<string, real> := map[];
    var counter: real := 0.0;
    for k := 0 to |lines|
      invariant counter == k as real
      invariant Distinct(lines[..k])
      invariant labelMap.Keys == set j | 0 <= j < k :: lines[j]
      invariant forall j :: 0 <= j < k ==> labelMap[lines[j]] == j as real
    {
      var key := lines[k];
      if key in labelMap {
        var j :| 0 <= j < k && lines[j] == key;
        return Failure(DuplicateKey);
      }
      labelMap := labelMap[key := counter];
      counter := counter + 1.0;
    }
    assert lines[..|lines|] == lines;
    return Success(labelMap);
  }

  /** Lines 191-203: each line is `key<TAB>value`; a later key overwrites. */
  method ReadLabelValues(lines: seq<string>, stof: string -> Option<real>) returns (r: Result<map<string, real>>)
    ensures ExplicitFrom(r, SplitLines(lines), stof)
  {
    ghost var rows := SplitLines(lines);
    var labelMap: map<string, real> := map[];
    for k := 0 to |lines|
      invariant forall j :: 0 <= j < k ==> IsEntry(rows[j], stof)
      invariant labelMap == ExplicitMap(rows[..k], stof)
    {
      var tokens := Split(lines[k], '\t');
      assert tokens == rows[k];
      if |tokens| != 2 {
        assert !IsEntry(rows[k], stof) && EntryError(rows[k]) == LabelMapColumns;
        return Failure(LabelMapColumns);
      }
      match stof(tokens[1]) {
        case None =>
          assert !IsEntry(rows[k], stof) && EntryError(rows[k]) == LabelMapValue;
          return Failure(LabelMapValue);
        case Some(value) =>
          ExplicitMapStep(rows, stof, k);
          labelMap := labelMap[tokens[0] := value];
      }
    }
    assert rows[..|lines|] == rows;
    return Success(labelMap);
  }

  /** Whether the label map at `path`, whose lines are `lines`, can be read:
      a blank path always can; a file needs more than one line and a first
      line of one or two tab-separated columns, then distinct lines in the
      one-column mode and entries only in the two-column mode. */
  ghost predicate LabelMapReadable(path: string, lines: seq<string>, stof: string -> Option<real>) {
    || IsBlank(path)
    || (&& |lines| > 1
        && |Split(lines[0], '\t')| <= 2
        && (|Split(lines[0], '\t')| == 1 ==> Distinct(lines))
        && (|Split(lines[0], '\t')| == 2 ==> forall k :: 0 <= k < |lines| ==> IsEntry(SplitLines(lines)[k], stof)))
  }

  /** What reading the label map promises (lines 172-205): the map exists
      exactly when it is readable. An empty or blank path gives the empty
      map. Otherwise a file of at most one line, or whose first line has more
      than two columns, is refused, and the first line's width picks the mode.
      A map read from a file is never empty. */
  ghost predicate LabelMapRead(r: Result<map<string, real>>, path: string, lines: seq<string>, stof: string -> Option<real>) {
    && (r.Success? <==> LabelMapReadable(path, lines, stof))
    && (IsBlank(path) ==> r == Success(map[]))
    && (!IsBlank(path) && |lines| <= 1 ==> r == Failure(LabelMapTooShort))
    && (!IsBlank(path) && |lines| > 1 && |Split(lines[0], '\t')| > 2 ==> r == Failure(LabelMapTooWide))
    && (!IsBlank(path) && |lines| > 1 && |Split(lines[0], '\t')| == 1 ==> EnumeratedFrom(r, lines))
    && (!IsBlank(path) && |lines| > 1 && |Split(lines[0], '\t')| == 2 ==> ExplicitFrom(r, SplitLines(lines), stof))
    && (!IsBlank(path) && r.Success? ==> r.value != map[])
  }

  /** Reading a label map fails only with one of the label map errors. */
  lemma LabelMapErrors(r: Result<map<string, real>>, path: string, lines: seq<string>, stof: string -> Option<real>)
    requires LabelMapRead(r, path, lines, stof) && r.Failure?
    ensures r.error in {LabelMapTooShort, LabelMapTooWide, DuplicateKey, LabelMapColumns, LabelMapValue}
  {
    if !IsBlank(path) && |lines| > 1 && |Split(lines[0], '\t')| == 2 {
      var k :| 0 <= k < |lines| && !IsEntry(SplitLines(lines)[k], stof) && r.error == EntryError(SplitLines(lines)[k]);
    }
  }

  /** Lines 172-205: read the label map named by `path`, whose file holds `lines`. */
  method ReadLabelMap(path: string, lines: seq<string>, stof: string -> Option<real>)
    returns (r: Result<map<string, real>>)
    ensures LabelMapRead(r, path, lines, stof)
  {
    if IsBlank(path) {
      return Success(map[]);
    }
    if |lines| <= 1 {
      return Failure(LabelMapTooShort);
    }
    var tokens := Split(lines[0], '\t');
    if |tokens| > 2 {
      return Failure(LabelMapTooWide);
    }
    if |tokens| == 1 {
      r := EnumerateLabels(lines);
      assert r.Success? ==> lines[0] in r.value;
    } else {
      r := ReadLabelValues(lines, stof);
      if r.Success? {
        ExplicitMapKeys(SplitLines(lines), stof);
        assert Key(SplitLines(lines)[0]) in r.value;
      }
    }
  }
}
