/**
 The libsvm reader: a first pass over the lines into labels and dictionaries, a second pass into a
 dense matrix; and the writer of the synthetic validation set.
 */
module Libsvm {
  import opened Wrappers
  import opened Decimal

  datatype Feature = Feature(index: int, value: Number)
  datatype Example = Example(target: Number, features: seq<Feature>)
  datatype Line = Skipped | Malformed | Parsed(example: Example)
  datatype Dataset = Dataset(labels: seq<Number>, width: int, matrix: seq<seq<Number>>)
  datatype LoadError = ValueError | IndexError

  /** Reading in text mode ends a line at each of these; the empty line inside a pair is skipped like any other. */
  predicate IsNewline(c: char) { c == '\n' || c == '\r' }
  predicate IsColon(c: char) { c == ':' }
  predicate IsSpace(c: char) { c == ' ' || '\t' <= c <= '\r' || '\U{1c}' <= c <= '\U{1f}' }

  /** The lines of a text; a final newline does not start another one. */
  function Lines(text: string): seq<string>
    decreases |text|
  {
    if text == [] then []
    else
      var line := TakeUntil(text, IsNewline);
      [line] + Lines(if |line| < |text| then text[|line| + 1..] else [])
  }

  /** The pieces of a line between runs of white space. */
  function Words(line: string): seq<string>
    decreases |line|
  {
    if line == [] then []
    else if IsSpace(line[0]) then Words(line[1..])
    else
      var word := TakeUntil(line, IsSpace);
      [word] + Words(line[|word|..])
  }

  /** A token has exactly one colon, an integer before it and a number after it. */
  function ParseFeature(token: string): Option<Feature> {
    var key := TakeUntil(token, IsColon);
    if |key| == |token| || ':' in token[|key| + 1..] then None
    else
      match (ParseInt(key), ParseNumber(token[|key| + 1..]))
      case (Some(index), Some(value)) => Some(Feature(index, value))
      case _ => None
  }

  function ParseFeatures(tokens: seq<string>): Option<seq<Feature>> {
    if tokens == [] then Some([])
    else
      match (ParseFeatures(tokens[..|tokens| - 1]), ParseFeature(tokens[|tokens| - 1]))
      case (Some(before), Some(f)) => Some(before + [f])
      case _ => None
  }

  function ParseLine(line: string): Line {
    var words := Words(line);
    if words == [] || (words[0] != [] && words[0][0] == '#') then Skipped
    else
      match (ParseNumber(words[0]), ParseFeatures(words[1..]))
      case (Some(target), Some(features)) => Parsed(Example(target, features))
      case _ => Malformed
  }

  /** The examples of a text, or None as soon as one line is malformed. */
  function Examples(lines: seq<string>): Option<seq<Example>> {
    if lines == [] then Some([])
    else
      match Examples(lines[..|lines| - 1])
      case None => None
      case Some(before) =>
        match ParseLine(lines[|lines| - 1])
        case Skipped => Some(before)
        case Malformed => None
        case Parsed(e) => Some(before + [e])
  }

  function Max(a: int, b: int): int { if a > b then a else b }

  function MaxIndex(features: seq<Feature>): int {
    if features == [] then 0 else Max(MaxIndex(features[..|features| - 1]), features[|features| - 1].index)
  }

  function Width(examples: seq<Example>): int {
    if examples == [] then 0 else Max(Width(examples[..|examples| - 1]), MaxIndex(examples[|examples| - 1].features))
  }

  // ---------- Dictionaries, in insertion order ----------

  function PositionOf(d: seq<Feature>, index: int): Option<nat> {
    if d == [] then None
    else if d[|d| - 1].index == index then Some(|d| - 1)
    else PositionOf(d[..|d| - 1], index)
  }

  function Put(d: seq<Feature>, f: Feature): seq<Feature> {
    match PositionOf(d, f.index)
    case None => d + [f]
    case Some(k) => if k < |d| then d[k := f] else d
  }

  function Dict(features: seq<Feature>): seq<Feature> {
    if features == [] then [] else Put(Dict(features[..|features| - 1]), features[|features| - 1])
  }

  /** The last value given for an index, or 0. */
  function ValueAt(features: seq<Feature>, index: int): Number {
    if features == [] then ZERO
    else if features[|features| - 1].index == index then features[|features| - 1].value
    else ValueAt(features[..|features| - 1], index)
  }

  // ---------- The dense matrix ----------

  /** Where X[r, index - 1] lands in a row: a negative position counts from the end. */
  function Slot(index: int, width: nat): Option<nat> {
    if 1 <= index <= width then Some(index - 1)
    else if index <= 0 && width + index - 1 >= 0 then Some(width + index - 1)
    else None
  }

  function FillRow(d: seq<Feature>, row: seq<Number>): Option<seq<Number>> {
    if d == [] then Some(row)
    else
      match FillRow(d[..|d| - 1], row)
      case None => None
      case Some(r) =>
        match Slot(d[|d| - 1].index, |row|)
        case None => None
        case Some(k) => if k < |r| then Some(r[k := d[|d| - 1].value]) else None
  }

  function Zeros(width: int): seq<Number> {
    if width <= 0 then [] else seq(width, i => ZERO)
  }

  function Matrix(examples: seq<Example>, width: int): Option<seq<seq<Number>>> {
    if examples == [] then Some([])
    else
      match (Matrix(examples[..|examples| - 1], width), FillRow(Dict(examples[|examples| - 1].features), Zeros(width)))
      case (Some(rows), Some(row)) => Some(rows + [row])
      case _ => None
  }

  function Labels(examples: seq<Example>): seq<Number> {
    seq(|examples|, i requires 0 <= i < |examples| => examples[i].target)
  }

  function Load(text: string): Result<Dataset, LoadError> {
    match Examples(Lines(text))
    case None => Failure(ValueError)
    case Some(examples) =>
      match Matrix(examples, Width(examples))
      case None => Failure(IndexError)
      case Some(matrix) => Success(Dataset(Labels(examples), Width(examples), matrix))
  }

  // ---------- The two passes ----------

  lemma Extend<T>(s: seq<T>, i: nat)
    requires i < |s|
    ensures s[..i + 1] != [] && s[..i + 1][..|s[..i + 1]| - 1] == s[..i] && s[..i + 1][|s[..i + 1]| - 1] == s[i]
  {
  }

  lemma {:induction false} ParseFails(tokens: seq<string>, i: nat)
    requires i < |tokens| && ParseFeature(tokens[i]).None?
    ensures ParseFeatures(tokens).None?
    decreases |tokens|
  {
    if i < |tokens| - 1 {
      ParseFails(tokens[..|tokens| - 1], i);
    }
  }

  lemma {:induction false} ExamplesFail(lines: seq<string>, i: nat)
    requires i < |lines| && ParseLine(lines[i]) == Malformed
    ensures Examples(lines).None?
    decreases |lines|
  {
    if i < |lines| - 1 {
      ExamplesFail(lines[..|lines| - 1], i);
    }
  }

  /** One line's tokens into a dictionary, keeping the largest index seen. */
  method ReadFeatures(tokens: seq<string>, start: int) returns (ok: bool, feats: seq<Feature>, maxIndex: int)
    requires start >= 0
    ensures ok <==> ParseFeatures(tokens).Some?
    ensures ok ==> var features := ParseFeatures(tokens).value;
      feats == Dict(features) && maxIndex == Max(start, MaxIndex(features))
  {
    feats, maxIndex := [], start;
    ghost var features: seq<Feature> := [];
    for i := 0 to |tokens|
      invariant ParseFeatures(tokens[..i]) == Some(features)
      invariant feats == Dict(features) && maxIndex == Max(start, MaxIndex(features))
    {
      Extend(tokens, i);
      var f := ParseFeature(tokens[i]);
      if f.None? {
        ParseFails(tokens, i);
        return false, [], 0;
      }
      feats := Put(feats, f.value);
      if f.value.index > maxIndex {
        maxIndex := f.value.index;
      }
      assert (features + [f.value])[..|features|] == features;
      features := features + [f.value];
    }
    assert tokens[..|tokens|] == tokens;
    ok := true;
  }

  /** The writes of one row, in place. */
  method FillInPlace(row: array<Number>, d: seq<Feature>) returns (ok: bool)
    modifies row
    ensures ok <==> FillRow(d, old(row[..])).Some?
    ensures ok ==> FillRow(d, old(row[..])) == Some(row[..])
  {
    ghost var before := row[..];
    assert d[..0] == [];
    for i := 0 to |d|
      invariant FillRow(d[..i], before) == Some(row[..])
    {
      Extend(d, i);
      var slot := Slot(d[i].index, row.Length);
      if slot.None? {
        FillFails(d, before, i);
        return false;
      }
      row[slot.value] := d[i].value;
    }
    assert d[..|d|] == d;
    ok := true;
  }

  lemma {:induction false} FillFails(d: seq<Feature>, row: seq<Number>, i: nat)
    requires i < |d| && Slot(d[i].index, |row|).None?
    ensures FillRow(d, row).None?
    decreases |d|
  {
    if i < |d| - 1 {
      FillFails(d[..|d| - 1], row, i);
    }
  }

  ghost predicate ReadSoFar(lines: seq<string>, examples: seq<Example>, rows: seq<seq<Feature>>, labels: seq<Number>,
                            maxIndex: int)
  {
    && Examples(lines) == Some(examples)
    && |rows| == |examples| && (forall k | 0 <= k < |rows| :: rows[k] == Dict(examples[k].features))
    && labels == Labels(examples) && maxIndex == Width(examples)
  }

  lemma {:induction false} WidthIsNatural(examples: seq<Example>)
    ensures Width(examples) >= 0
  {
    if examples != [] {
      WidthIsNatural(examples[..|examples| - 1]);
    }
  }

  lemma ReadOneMore(lines: seq<string>, line: string, examples: seq<Example>, rows: seq<seq<Feature>>,
                    labels: seq<Number>, maxIndex: int, e: Example)
    requires ReadSoFar(lines, examples, rows, labels, maxIndex) && ParseLine(line) == Parsed(e)
    ensures ReadSoFar(lines + [line], examples + [e], rows + [Dict(e.features)], labels + [e.target],
                      Max(maxIndex, MaxIndex(e.features)))
  {
    assert (lines + [line])[..|lines|] == lines;
    ExamplesLast(lines + [line], |lines|, examples, e);
    WidthMore(examples, e);
    assert Labels(examples + [e]) == Labels(examples) + [e.target];
  }

  lemma WidthMore(examples: seq<Example>, e: Example)
    ensures Width(examples + [e]) == Max(Width(examples), MaxIndex(e.features))
  {
    assert (examples + [e])[..|examples|] == examples;
  }

  lemma SkipOne(lines: seq<string>, line: string, examples: seq<Example>, rows: seq<seq<Feature>>,
                labels: seq<Number>, maxIndex: int)
    requires ReadSoFar(lines, examples, rows, labels, maxIndex) && ParseLine(line) == Skipped
    ensures ReadSoFar(lines + [line], examples, rows, labels, maxIndex)
  {
    assert (lines + [line])[..|lines|] == lines;
  }

  /** The first pass over the file. */
  method ReadExamples(text: string)
    returns (ok: bool, rows: seq<seq<Feature>>, labels: seq<Number>, maxIndex: int, ghost examples: seq<Example>)
    ensures ok <==> Examples(Lines(text)).Some?
    ensures ok ==> ReadSoFar(Lines(text), examples, rows, labels, maxIndex)
  {
    var lines := Lines(text);
    rows, labels, maxIndex, examples := [], [], 0, [];
    for i := 0 to |lines|
      invariant ReadSoFar(lines[..i], examples, rows, labels, maxIndex)
    {
      assert lines[..i + 1] == lines[..i] + [lines[i]];
      var words := Words(lines[i]);
      if words == [] || (words[0] != [] && words[0][0] == '#') {
        assert ParseLine(lines[i]) == Skipped;
        SkipOne(lines[..i], lines[i], examples, rows, labels, maxIndex);
        continue;
      }
      var target := ParseNumber(words[0]);
      if target.None? {
        ExamplesFail(lines, i);
        return false, [], [], 0, [];
      }
      WidthIsNatural(examples);
      var good, feats, largest := ReadFeatures(words[1..], maxIndex);
      if !good {
        ExamplesFail(lines, i);
        return false, [], [], 0, [];
      }
      ghost var e := Example(target.value, ParseFeatures(words[1..]).value);
      assert ParseLine(lines[i]) == Parsed(e);
      ReadOneMore(lines[..i], lines[i], examples, rows, labels, maxIndex, e);
      rows, labels, maxIndex, examples := rows + [feats], labels + [target.value], largest, examples + [e];
    }
    assert lines[..|lines|] == lines;
    ok := true;
  }

  lemma {:induction false} MatrixFails(examples: seq<Example>, width: int, r: nat)
    requires r < |examples| && FillRow(Dict(examples[r].features), Zeros(width)).None?
    ensures Matrix(examples, width).None?
    decreases |examples|
  {
    if r < |examples| - 1 {
      MatrixFails(examples[..|examples| - 1], width, r);
    }
  }

  lemma MatrixStep(examples: seq<Example>, width: int, r: nat, matrix: seq<seq<Number>>, row: seq<Number>)
    requires r < |examples| && Matrix(examples[..r], width) == Some(matrix)
    requires FillRow(Dict(examples[r].features), Zeros(width)) == Some(row)
    ensures Matrix(examples[..r + 1], width) == Some(matrix + [row])
  {
    Extend(examples, r);
  }

  /** The loader: both passes. */
  method LoadLibsvm(text: string) returns (result: Result<Dataset, LoadError>)
    ensures result == Load(text)
  {
    ghost var examples;
    var ok, rows, labels, width;
    ok, rows, labels, width, examples := ReadExamples(text);
    if !ok {
      return Failure(ValueError);
    }
    WidthIsNatural(examples);
    var matrix: seq<seq<Number>> := [];
    assert examples[..0] == [];
    for r := 0 to |rows|
      invariant Matrix(examples[..r], width) == Some(matrix)
    {
      var row := new Number[width](i => ZERO);
      assert row[..] == Zeros(width);
      var filled := FillInPlace(row, rows[r]);
      if !filled {
        MatrixFails(examples, width, r);
        return Failure(IndexError);
      }
      MatrixStep(examples, width, r, matrix, row[..]);
      matrix := matrix + [row[..]];
    }
    assert examples[..|examples|] == examples;
    result := Success(Dataset(labels, width, matrix));
  }

  // ---------- What one-based files mean ----------

  ghost predicate OneBased(features: seq<Feature>) {
    forall i | 0 <= i < |features| :: features[i].index >= 1
  }

  lemma {:induction false} PositionFound(d: seq<Feature>, index: int)
    ensures match PositionOf(d, index)
      case None => forall i | 0 <= i < |d| :: d[i].index != index
      case Some(k) => k < |d| && d[k].index == index && forall i | k < i < |d| :: d[i].index != index
  {
    if d != [] {
      PositionFound(d[..|d| - 1], index);
    }
  }

  lemma {:induction false} ReplaceKeepsOthers(d: seq<Feature>, k: nat, f: Feature, index: int)
    requires k < |d| && d[k].index == f.index && (forall i | k < i < |d| :: d[i].index != f.index)
    ensures ValueAt(d[k := f], index) == if index == f.index then f.value else ValueAt(d, index)
    decreases |d|
  {
    var n := |d| - 1;
    if k < n {
      assert d[k := f][..n] == d[..n][k := f];
      ReplaceKeepsOthers(d[..n], k, f, index);
    } else {
      assert d[k := f][..n] == d[..n];
    }
  }

  lemma PutSets(d: seq<Feature>, f: Feature, index: int)
    ensures ValueAt(Put(d, f), index) == if index == f.index then f.value else ValueAt(d, index)
  {
    PositionFound(d, f.index);
    match PositionOf(d, f.index)
    case None => assert (d + [f])[..|d|] == d;
    case Some(k) => ReplaceKeepsOthers(d, k, f, index);
  }

  lemma {:induction false} DictKeepsLast(features: seq<Feature>, index: int)
    ensures ValueAt(Dict(features), index) == ValueAt(features, index)
  {
    if features != [] {
      var n := |features| - 1;
      DictKeepsLast(features[..n], index);
      PutSets(Dict(features[..n]), features[n], index);
    }
  }

  lemma {:induction false} DictStaysIn(features: seq<Feature>, width: int)
    requires OneBased(features) && MaxIndex(features) <= width
    ensures forall i | 0 <= i < |Dict(features)| :: 1 <= Dict(features)[i].index <= width
  {
    if features != [] {
      var n := |features| - 1;
      DictStaysIn(features[..n], width);
      PositionFound(Dict(features[..n]), features[n].index);
    }
  }

  lemma {:induction false} FillRowValues(d: seq<Feature>, width: nat)
    requires forall i | 0 <= i < |d| :: 1 <= d[i].index <= width
    ensures var row := FillRow(d, Zeros(width));
      row.Some? && |row.value| == width && forall c | 0 <= c < width :: row.value[c] == ValueAt(d, c + 1)
  {
    if d != [] {
      FillRowValues(d[..|d| - 1], width);
    }
  }

  /** A row holds, for each index, the last value its line gives, else 0. */
  ghost predicate RowHolds(row: seq<Number>, features: seq<Feature>, width: nat) {
    |row| == width && forall c | 0 <= c < width :: row[c] == ValueAt(features, c + 1)
  }

  lemma RowValues(features: seq<Feature>, width: nat)
    requires OneBased(features) && MaxIndex(features) <= width
    ensures var row := FillRow(Dict(features), Zeros(width)); row.Some? && RowHolds(row.value, features, width)
  {
    DictStaysIn(features, width);
    FillRowValues(Dict(features), width);
    forall k | 1 <= k <= width
      ensures ValueAt(Dict(features), k) == ValueAt(features, k)
    {
      DictKeepsLast(features, k);
    }
  }

  ghost predicate MatrixHolds(matrix: seq<seq<Number>>, examples: seq<Example>, width: nat) {
    |matrix| == |examples| && forall r | 0 <= r < |examples| :: RowHolds(matrix[r], examples[r].features, width)
  }

  lemma OneMoreRow(matrix: seq<seq<Number>>, row: seq<Number>, examples: seq<Example>, width: nat)
    requires examples != [] && MatrixHolds(matrix, examples[..|examples| - 1], width)
    requires RowHolds(row, examples[|examples| - 1].features, width)
    ensures MatrixHolds(matrix + [row], examples, width)
  {
  }

  lemma {:induction false} MatrixValues(examples: seq<Example>, width: nat)
    requires forall r | 0 <= r < |examples| :: OneBased(examples[r].features) && MaxIndex(examples[r].features) <= width
    ensures var m := Matrix(examples, width); m.Some? && MatrixHolds(m.value, examples, width)
  {
    if examples != [] {
      var n := |examples| - 1;
      MatrixValues(examples[..n], width);
      RowValues(examples[n].features, width);
      var row := FillRow(Dict(examples[n].features), Zeros(width)).value;
      OneMoreRow(Matrix(examples[..n], width).value, row, examples, width);
    }
  }

  lemma {:induction false} WidthBounds(examples: seq<Example>, r: nat)
    requires r < |examples|
    ensures MaxIndex(examples[r].features) <= Width(examples)
    decreases |examples|
  {
    if r < |examples| - 1 {
      WidthBounds(examples[..|examples| - 1], r);
    }
  }

  ghost predicate Names(features: seq<Feature>, index: int) {
    exists i | 0 <= i < |features| :: features[i].index == index
  }

  ghost predicate Mentions(examples: seq<Example>, index: int) {
    exists r | 0 <= r < |examples| :: Names(examples[r].features, index)
  }

  lemma {:induction false} MaxIndexIsLargest(features: seq<Feature>)
    ensures forall i | 0 <= i < |features| :: features[i].index <= MaxIndex(features)
    ensures MaxIndex(features) == 0 || Names(features, MaxIndex(features))
    ensures MaxIndex(features) >= 0
  {
    if features != [] {
      var n := |features| - 1;
      MaxIndexIsLargest(features[..n]);
      if MaxIndex(features) == features[n].index {
        assert Names(features, MaxIndex(features));
      } else if MaxIndex(features) > 0 {
        var i :| 0 <= i < n && features[..n][i].index == MaxIndex(features);
        assert features[i].index == MaxIndex(features);
      }
    }
  }

  /** The width is the largest index in the file, or 0 when none is positive. */
  lemma {:induction false} WidthIsLargest(examples: seq<Example>)
    ensures forall index | Mentions(examples, index) :: index <= Width(examples)
    ensures Width(examples) == 0 || Mentions(examples, Width(examples))
    ensures Width(examples) >= 0
  {
    if examples != [] {
      var n := |examples| - 1;
      var features := examples[n].features;
      WidthIsLargest(examples[..n]);
      MaxIndexIsLargest(features);
      forall index | Mentions(examples, index)
        ensures index <= Width(examples)
      {
        var r :| 0 <= r < |examples| && Names(examples[r].features, index);
        if r < n {
          assert Names(examples[..n][r].features, index) && Mentions(examples[..n], index);
        } else {
          var i :| 0 <= i < |features| && features[i].index == index;
        }
      }
      if Width(examples) > 0 && Width(examples) != MaxIndex(features) {
        var r :| 0 <= r < n && Names(examples[..n][r].features, Width(examples));
        assert Names(examples[r].features, Width(examples));
      }
    }
  }

  lemma PutNames(d: seq<Feature>, f: Feature, index: int)
    ensures Names(Put(d, f), index) <==> Names(d, index) || index == f.index
  {
    PositionFound(d, f.index);
    var after := Put(d, f);
    match PositionOf(d, f.index) {
      case None =>
        assert after[|d|] == f && forall i | 0 <= i < |d| :: after[i] == d[i];
      case Some(k) =>
        assert after[k] == f && forall i | 0 <= i < |d| && i != k :: after[i] == d[i];
    }
    if i :| 0 <= i < |d| && d[i].index == index {
      assert after[i].index == index;
    }
  }

  /** A dictionary names the indices of its line, and no others. */
  lemma {:induction false} DictNames(features: seq<Feature>, index: int)
    ensures Names(Dict(features), index) <==> Names(features, index)
  {
    if features != [] {
      var n := |features| - 1;
      DictNames(features[..n], index);
      PutNames(Dict(features[..n]), features[n], index);
      assert Names(features, index) <==> Names(features[..n], index) || features[n].index == index;
    }
  }

  lemma {:induction false} FillSucceeds(d: seq<Feature>, row: seq<Number>)
    requires forall i | 0 <= i < |d| :: Slot(d[i].index, |row|).Some?
    ensures FillRow(d, row).Some? && |FillRow(d, row).value| == |row|
  {
    if d != [] {
      FillSucceeds(d[..|d| - 1], row);
    }
  }

  lemma {:induction false} MatrixSucceeds(examples: seq<Example>, width: int)
    requires forall r | 0 <= r < |examples| :: FillRow(Dict(examples[r].features), Zeros(width)).Some?
    ensures Matrix(examples, width).Some?
  {
    if examples != [] {
      MatrixSucceeds(examples[..|examples| - 1], width);
    }
  }

  /** Some index counts from the end past the beginning of a row. */
  ghost predicate Underruns(features: seq<Feature>, width: int) {
    exists i | 0 <= i < |features| :: features[i].index < 1 - width
  }

  lemma RowFailsIff(features: seq<Feature>, width: nat)
    requires MaxIndex(features) <= width
    ensures FillRow(Dict(features), Zeros(width)).None? <==> Underruns(features, width)
  {
    var d := Dict(features);
    MaxIndexIsLargest(features);
    if i :| 0 <= i < |features| && features[i].index < 1 - width {
      DictNames(features, features[i].index);
      var k :| 0 <= k < |d| && d[k].index == features[i].index;
      FillFails(d, Zeros(width), k);
    } else {
      forall k | 0 <= k < |d|
        ensures Slot(d[k].index, width).Some?
      {
        DictNames(features, d[k].index);
        var i :| 0 <= i < |features| && features[i].index == d[k].index;
      }
      FillSucceeds(d, Zeros(width));
    }
  }

  ghost predicate SomeMalformed(lines: seq<string>) {
    exists i | 0 <= i < |lines| :: ParseLine(lines[i]) == Malformed
  }

  /** A file is refused as a whole exactly when one of its lines is malformed. */
  lemma {:induction false} ParsingFailsIff(lines: seq<string>)
    ensures Examples(lines).None? <==> SomeMalformed(lines)
  {
    if i :| 0 <= i < |lines| && ParseLine(lines[i]) == Malformed {
      ExamplesFail(lines, i);
    } else if lines != [] {
      ParsingFailsIff(lines[..|lines| - 1]);
    }
  }

  /** A well-formed file fails to load exactly when some line has an index below 1 - width. */
  lemma LoadFailsIff(text: string, examples: seq<Example>)
    requires Examples(Lines(text)) == Some(examples)
    ensures Load(text).Failure? <==> exists r :: 0 <= r < |examples| && Underruns(examples[r].features, Width(examples))
    ensures Load(text).Failure? ==> Load(text).error == IndexError
  {
    var width := Width(examples);
    WidthIsNatural(examples);
    forall r | 0 <= r < |examples|
      ensures FillRow(Dict(examples[r].features), Zeros(width)).None? <==> Underruns(examples[r].features, width)
    {
      WidthBounds(examples, r);
      RowFailsIff(examples[r].features, width);
    }
    if r :| 0 <= r < |examples| && Underruns(examples[r].features, width) {
      MatrixFails(examples, width, r);
    } else {
      MatrixSucceeds(examples, width);
    }
  }

  /**
   A file whose indices start at 1 loads; its width is the largest index, and a cell is the last value
   given, else 0.
   */
  lemma OneBasedFilesLoad(text: string, examples: seq<Example>)
    requires Examples(Lines(text)) == Some(examples)
    requires forall r | 0 <= r < |examples| :: OneBased(examples[r].features)
    ensures Load(text).Success?
    ensures var d := Load(text).value;
      && d.labels == Labels(examples) && d.width == Width(examples) >= 0
      && (forall index | Mentions(examples, index) :: index <= d.width)
      && (d.width == 0 || Mentions(examples, d.width))
      && MatrixHolds(d.matrix, examples, d.width)
  {
    WidthIsLargest(examples);
    forall r | 0 <= r < |examples|
      ensures MaxIndex(examples[r].features) <= Width(examples)
    {
      WidthBounds(examples, r);
    }
    MatrixValues(examples, Width(examples));
  }

  // ---------- Any indices ----------

  /** X[r, index - 1] is cell c of a row: directly, or counting from the end. */
  predicate Lands(index: int, width: nat, c: int) {
    c == index - 1 || c == index - 1 + width
  }

  /** An index is written to the one cell it lands on, if there is one. */
  lemma SlotIs(index: int, width: nat, c: nat)
    ensures Slot(index, width) == Some(c) <==> c < width && Lands(index, width, c)
  {
  }

  /** The value of the last entry that lands on a cell, or 0. */
  function CellValue(d: seq<Feature>, width: nat, c: nat): Number {
    if d == [] then ZERO
    else if Lands(d[|d| - 1].index, width, c) then d[|d| - 1].value
    else CellValue(d[..|d| - 1], width, c)
  }

  lemma {:induction false} FillRowCells(d: seq<Feature>, width: nat)
    requires forall i | 0 <= i < |d| :: Slot(d[i].index, width).Some?
    ensures var row := FillRow(d, Zeros(width));
      row.Some? && |row.value| == width && forall c | 0 <= c < width :: row.value[c] == CellValue(d, width, c)
  {
    if d != [] {
      FillRowCells(d[..|d| - 1], width);
      forall c: nat | c < width
        ensures Slot(d[|d| - 1].index, width) == Some(c) <==> Lands(d[|d| - 1].index, width, c)
      {
        SlotIs(d[|d| - 1].index, width, c);
      }
    }
  }

  ghost predicate CellsHold(matrix: seq<seq<Number>>, examples: seq<Example>, width: nat) {
    |matrix| == |examples| && forall r | 0 <= r < |examples| ::
      |matrix[r]| == width &&
      forall c | 0 <= c < width :: matrix[r][c] == CellValue(Dict(examples[r].features), width, c)
  }

  lemma {:induction false} MatrixCells(examples: seq<Example>, width: nat)
    requires Matrix(examples, width).Some?
    ensures CellsHold(Matrix(examples, width).value, examples, width)
  {
    if examples != [] {
      var n := |examples| - 1;
      MatrixCells(examples[..n], width);
      FilledRow(Dict(examples[n].features), width);
      CellsStep(Matrix(examples[..n], width).value, FillRow(Dict(examples[n].features), Zeros(width)).value, examples,
                width);
    }
  }

  lemma CellsStep(before: seq<seq<Number>>, row: seq<Number>, examples: seq<Example>, width: nat)
    requires examples != [] && CellsHold(before, examples[..|examples| - 1], width) && |row| == width
    requires forall c | 0 <= c < width :: row[c] == CellValue(Dict(examples[|examples| - 1].features), width, c)
    ensures CellsHold(before + [row], examples, width)
  {
  }

  lemma FilledRow(d: seq<Feature>, width: nat)
    requires FillRow(d, Zeros(width)).Some?
    ensures var row := FillRow(d, Zeros(width)).value;
      |row| == width && forall c | 0 <= c < width :: row[c] == CellValue(d, width, c)
  {
    forall i | 0 <= i < |d|
      ensures Slot(d[i].index, width).Some?
    {
      if Slot(d[i].index, width).None? {
        FillFails(d, Zeros(width), i);
      }
    }
    FillRowCells(d, width);
  }

  /** Whatever its indices, a file that loads puts in each cell the value of the last entry that lands there. */
  lemma LoadedCellsAre(text: string)
    requires Load(text).Success?
    ensures var examples := Examples(Lines(text)).value; var d := Load(text).value;
      Width(examples) >= 0 && CellsHold(d.matrix, examples, Width(examples))
      && d.labels == Labels(examples) && d.width == Width(examples)
  {
    var examples := Examples(Lines(text)).value;
    WidthIsNatural(examples);
    MatrixCells(examples, Width(examples));
  }

  // ---------- Lines and tokens ----------

  lemma {:induction false} BlanksAreSkipped(blanks: string, s: string)
    requires forall i | 0 <= i < |blanks| :: IsSpace(blanks[i])
    ensures Words(blanks + s) == Words(s)
    decreases blanks
  {
    if blanks == [] {
      assert blanks + s == s;
    } else {
      assert (blanks + s)[0] == blanks[0] && (blanks + s)[1..] == blanks[1..] + s;
      BlanksAreSkipped(blanks[1..], s);
    }
  }

  /** A line is skipped exactly if it has nothing but white space, or its first other character is '#'. */
  lemma {:induction false} SkippedIff(line: string)
    ensures ParseLine(line) == Skipped <==>
      (forall i | 0 <= i < |line| :: IsSpace(line[i]))
      || exists k :: 0 <= k < |line| && line[k] == '#' && forall i | 0 <= i < k :: IsSpace(line[i])
    decreases line
  {
    if line != [] && IsSpace(line[0]) {
      SkippedIff(line[1..]);
      assert forall i | 0 < i < |line| :: line[i] == line[1..][i - 1];
      if k :| 0 <= k < |line[1..]| && line[1..][k] == '#' && forall i | 0 <= i < k :: IsSpace(line[1..][i]) {
        assert line[k + 1] == '#';
      }
      if k :| 0 <= k < |line| && line[k] == '#' && forall i | 0 <= i < k :: IsSpace(line[i]) {
        assert line[1..][k - 1] == '#';
      }
    } else if line != [] {
      var word := TakeUntil(line, IsSpace);
      assert Words(line)[0] == word && word[0] == line[0];
    }
  }

  /** Without a colon, or with a second one, a token is malformed. */
  lemma OneColonOnly(key: string, value: string)
    requires ':' !in key
    ensures ParseFeature(key).None?
    ensures ':' in value ==> ParseFeature(key + ":" + value).None?
  {
    assert forall i | 0 <= i < |key| :: !IsColon(key[i]);
    assert key + [] == key;
    TakeUntilStop(key, [], IsColon);
    ColonSplits(key, value);
  }

  /** With one colon, it is read exactly if an integer stands before it and a number behind. */
  lemma TokenIff(key: string, value: string)
    requires ':' !in key && ':' !in value
    ensures ParseFeature(key + ":" + value)
         == if ParseInt(key).Some? && ParseNumber(value).Some?
            then Some(Feature(ParseInt(key).value, ParseNumber(value).value)) else None
  {
    ColonSplits(key, value);
    TokenReads(key + ":" + value, key, value);
  }

  lemma ColonSplits(key: string, value: string)
    requires ':' !in key
    ensures TakeUntil(key + ":" + value, IsColon) == key && (key + ":" + value)[|key| + 1..] == value
  {
    assert forall i | 0 <= i < |key| :: !IsColon(key[i]);
    assert key + ":" + value == key + (":" + value);
    TakeUntilStop(key, ":" + value, IsColon);
  }

  lemma TokenReads(token: string, key: string, value: string)
    requires TakeUntil(token, IsColon) == key && |key| < |token| && token[|key| + 1..] == value && ':' !in value
    ensures ParseFeature(token)
         == if ParseInt(key).Some? && ParseNumber(value).Some?
            then Some(Feature(ParseInt(key).value, ParseNumber(value).value)) else None
  {
  }

  // ---------- Round trip ----------

  function Token(index: nat, value: int): string {
    Digits(index) + ":" + FormatFixed(value)
  }

  function Tokens(values: seq<int>): seq<string> {
    if values == [] then [] else Tokens(values[..|values| - 1]) + [Token(|values|, values[|values| - 1])]
  }

  function Spaced(words: seq<string>): string {
    if words == [] then [] else Spaced(words[..|words| - 1]) + " " + words[|words| - 1]
  }

  /** The features of a row after its label; an empty row still writes the space. */
  function Tail(values: seq<int>): string {
    if values == [] then " " else Spaced(Tokens(values))
  }

  function WriteRow(target: nat, values: seq<int>): string {
    Digits(target) + Tail(values)
  }

  function Write(labels: seq<nat>, matrix: seq<seq<int>>): string
    requires |labels| == |matrix|
  {
    if labels == [] then []
    else WriteRow(labels[0], matrix[0]) + "\n" + Write(labels[1..], matrix[1..])
  }

  ghost predicate Word(w: string) {
    w != [] && forall i | 0 <= i < |w| :: !IsSpace(w[i])
  }

  lemma NumberCharsAreVisible(s: string)
    requires forall i | 0 <= i < |s| :: NumberChar(s[i])
    ensures forall i | 0 <= i < |s| :: !IsSpace(s[i]) && !IsColon(s[i])
  {
  }

  lemma JoinedIsWord(key: string, value: string)
    requires forall i | 0 <= i < |key| :: !IsSpace(key[i])
    requires forall i | 0 <= i < |value| :: !IsSpace(value[i])
    ensures Word(key + ":" + value)
  {
  }

  lemma TokenIsWord(index: nat, value: int)
    ensures Word(Token(index, value))
    ensures ':' !in Digits(index)
    ensures ':' !in FormatFixed(value)
  {
    DigitsChars(index);
    FixedChars(value);
    NumberCharsAreVisible(Digits(index));
    NumberCharsAreVisible(FormatFixed(value));
    JoinedIsWord(Digits(index), FormatFixed(value));
  }

  lemma TokenParses(index: nat, value: int)
    ensures ParseFeature(Token(index, value)) == Some(Feature(index, Fixed(value)))
  {
    TokenIsWord(index, value);
    IntRoundTrip(index);
    FixedRoundTrip(value);
    TokenIff(Digits(index), FormatFixed(value));
  }

  lemma ParseFeaturesStep(tokens: seq<string>, token: string, fs: seq<Feature>, f: Feature)
    requires ParseFeatures(tokens) == Some(fs) && ParseFeature(token) == Some(f)
    ensures ParseFeatures(tokens + [token]) == Some(fs + [f])
  {
    assert (tokens + [token])[..|tokens|] == tokens;
  }

  lemma ExamplesLast(lines: seq<string>, n: nat, es: seq<Example>, e: Example)
    requires |lines| == n + 1
    requires Examples(lines[..n]) == Some(es) && ParseLine(lines[n]) == Parsed(e)
    ensures Examples(lines) == Some(es + [e])
  {
  }

  function FeaturesOf(values: seq<int>): seq<Feature> {
    seq(|values|, i requires 0 <= i < |values| => Feature(i + 1, Fixed(values[i])))
  }

  lemma {:induction false} TokensAreWords(values: seq<int>)
    ensures forall i | 0 <= i < |Tokens(values)| :: Word(Tokens(values)[i])
  {
    if values != [] {
      var n := |values| - 1;
      TokensAreWords(values[..n]);
      TokenIsWord(n + 1, values[n]);
    }
  }

  lemma FeaturesOfStep(values: seq<int>, n: nat)
    requires |values| == n + 1
    ensures FeaturesOf(values) == FeaturesOf(values[..n]) + [Feature(n + 1, Fixed(values[n]))]
  {
  }

  lemma {:induction false} TokensParse(values: seq<int>)
    ensures ParseFeatures(Tokens(values)) == Some(FeaturesOf(values))
  {
    if values != [] {
      var n := |values| - 1;
      var before, token := Tokens(values[..n]), Token(n + 1, values[n]);
      var fs, f := FeaturesOf(values[..n]), Feature(n + 1, Fixed(values[n]));
      assert ParseFeatures(before) == Some(fs) by { TokensParse(values[..n]); }
      assert ParseFeature(token) == Some(f) by { TokenParses(n + 1, values[n]); }
      ParseFeaturesStep(before, token, fs, f);
      FeaturesOfStep(values, n);
    } else {
      assert FeaturesOf(values) == [];
    }
  }

  lemma WordsStep(w: string, rest: string)
    requires Word(w) && (rest == [] || IsSpace(rest[0]))
    ensures Words(w + rest) == [w] + Words(rest)
  {
    TakeUntilStop(w, rest, IsSpace);
    assert (w + rest)[0] == w[0];
    assert (w + rest)[|w|..] == rest;
  }

  lemma {:induction false} SpacedSplits(first: string, words: seq<string>)
    requires forall i | 0 <= i < |words| :: Word(words[i])
    ensures Spaced([first] + words) == " " + first + Spaced(words)
  {
    if words == [] {
      assert [first] + words == [first];
      assert [first][..0] == [];
    } else {
      var n := |words| - 1;
      var all := [first] + words;
      assert all[..|all| - 1] == [first] + words[..n];
      SpacedSplits(first, words[..n]);
    }
  }

  lemma {:induction false} WordsOfSpaced(words: seq<string>)
    requires forall i | 0 <= i < |words| :: Word(words[i])
    ensures Words(Spaced(words)) == words
    ensures Spaced(words) == [] || Spaced(words)[0] == ' '
  {
    if words != [] {
      SpacedSplits(words[0], words[1..]);
      assert words == [words[0]] + words[1..];
      WordsOfSpaced(words[1..]);
      WordsStep(words[0], Spaced(words[1..]));
      var tail := words[0] + Spaced(words[1..]);
      assert Spaced(words) == " " + tail;
      assert (" " + tail)[1..] == tail;
    }
  }

  lemma {:induction false} SpacedHasNoNewline(words: seq<string>)
    requires forall i | 0 <= i < |words| :: Word(words[i])
    ensures forall i | 0 <= i < |Spaced(words)| :: !IsNewline(Spaced(words)[i])
  {
    if words != [] {
      var n := |words| - 1;
      SpacedHasNoNewline(words[..n]);
      assert forall i | 0 <= i < |words[n]| :: !IsSpace(words[n][i]);
    }
  }

  lemma TailSplits(values: seq<int>)
    ensures var tail := Tail(values);
      && Words(tail) == Tokens(values) && tail != [] && IsSpace(tail[0])
      && forall i | 0 <= i < |tail| :: !IsNewline(tail[i])
  {
    TokensAreWords(values);
    WordsOfSpaced(Tokens(values));
    SpacedHasNoNewline(Tokens(values));
    assert " "[1..] == [];
  }

  lemma LineParses(line: string, first: string, tokens: seq<string>, target: Number, features: seq<Feature>)
    requires Words(line) == [first] + tokens && first != [] && first[0] != '#'
    requires ParseNumber(first) == Some(target) && ParseFeatures(tokens) == Some(features)
    ensures ParseLine(line) == Parsed(Example(target, features))
  {
    var words := Words(line);
    assert words != [] && words[0] == first && words[1..] == tokens;
  }

  lemma LabelParses(target: nat)
    ensures Digits(target) != [] && Digits(target)[0] != '#'
    ensures ParseNumber(Digits(target)) == Some(Finite(target as real))
  {
    DigitsChars(target);
    IntRoundTrip(target);
    assert NumberChar(Digits(target)[0]);
  }

  lemma DigitsAreWord(n: nat)
    ensures Word(Digits(n)) && forall i | 0 <= i < |Digits(n)| :: !IsNewline(Digits(n)[i])
  {
    DigitsChars(n);
  }

  lemma RowIsOneLine(target: nat, values: seq<int>)
    ensures WriteRow(target, values) != []
    ensures forall i | 0 <= i < |WriteRow(target, values)| :: !IsNewline(WriteRow(target, values)[i])
  {
    DigitsAreWord(target);
    TailSplits(values);
  }

  lemma RowParses(target: nat, values: seq<int>)
    ensures ParseLine(WriteRow(target, values)) == Parsed(Example(Finite(target as real), FeaturesOf(values)))
  {
    assert Words(WriteRow(target, values)) == [Digits(target)] + Tokens(values) by {
      DigitsAreWord(target);
      TailSplits(values);
      WordsStep(Digits(target), Tail(values));
    }
    TokensParse(values);
    LabelParses(target);
    LineParses(WriteRow(target, values), Digits(target), Tokens(values), Finite(target as real), FeaturesOf(values));
  }

  function RowsOf(labels: seq<nat>, matrix: seq<seq<int>>): seq<string>
    requires |labels| == |matrix|
  {
    if labels == [] then [] else [WriteRow(labels[0], matrix[0])] + RowsOf(labels[1..], matrix[1..])
  }

  lemma LinesStep(row: string, rest: string)
    requires row != [] && forall i | 0 <= i < |row| :: !IsNewline(row[i])
    ensures Lines(row + "\n" + rest) == [row] + Lines(rest)
  {
    var text := row + "\n" + rest;
    assert text == row + ("\n" + rest);
    TakeUntilStop(row, "\n" + rest, IsNewline);
    assert text[|row| + 1..] == rest;
  }

  lemma {:induction false} LinesOfWritten(labels: seq<nat>, matrix: seq<seq<int>>)
    requires |labels| == |matrix|
    ensures Lines(Write(labels, matrix)) == RowsOf(labels, matrix)
  {
    if labels != [] {
      LinesOfWritten(labels[1..], matrix[1..]);
      RowIsOneLine(labels[0], matrix[0]);
      LinesStep(WriteRow(labels[0], matrix[0]), Write(labels[1..], matrix[1..]));
    }
  }

  lemma {:induction false} RowsOfAt(labels: seq<nat>, matrix: seq<seq<int>>)
    requires |labels| == |matrix|
    ensures |RowsOf(labels, matrix)| == |labels|
    ensures forall r | 0 <= r < |labels| :: RowsOf(labels, matrix)[r] == WriteRow(labels[r], matrix[r])
  {
    if labels != [] {
      RowsOfAt(labels[1..], matrix[1..]);
    }
  }

  function ExamplesOf(labels: seq<nat>, matrix: seq<seq<int>>): seq<Example>
    requires |labels| == |matrix|
  {
    seq(|labels|, r requires 0 <= r < |labels| => Example(Finite(labels[r] as real), FeaturesOf(matrix[r])))
  }

  lemma ExamplesOfStep(labels: seq<nat>, matrix: seq<seq<int>>, n: nat)
    requires |labels| == |matrix| == n + 1
    ensures ExamplesOf(labels, matrix)
         == ExamplesOf(labels[..n], matrix[..n]) + [Example(Finite(labels[n] as real), FeaturesOf(matrix[n]))]
  {
  }

  lemma {:induction false} ExamplesOfRows(labels: seq<nat>, matrix: seq<seq<int>>, lines: seq<string>)
    requires |labels| == |matrix| == |lines|
    requires forall r | 0 <= r < |lines| :: lines[r] == WriteRow(labels[r], matrix[r])
    ensures Examples(lines) == Some(ExamplesOf(labels, matrix))
  {
    if lines != [] {
      var n := |lines| - 1;
      RowParses(labels[n], matrix[n]);
      ExamplesOfRows(labels[..n], matrix[..n], lines[..n]);
      ExamplesOfStep(labels, matrix, n);
      var e := Example(Finite(labels[n] as real), FeaturesOf(matrix[n]));
      ExamplesLast(lines, n, ExamplesOf(labels[..n], matrix[..n]), e);
    } else {
      assert ExamplesOf(labels, matrix) == [];
    }
  }

  lemma {:induction false} FeaturesOfFacts(values: seq<int>)
    ensures OneBased(FeaturesOf(values)) && MaxIndex(FeaturesOf(values)) == |values|
    ensures forall c | 0 <= c < |values| :: ValueAt(FeaturesOf(values), c + 1) == Fixed(values[c])
  {
    if values != [] {
      var n := |values| - 1;
      FeaturesOfFacts(values[..n]);
      assert FeaturesOf(values)[..n] == FeaturesOf(values[..n]);
    }
  }

  lemma {:induction false} WidthOfUniform(examples: seq<Example>, d: int)
    requires forall r | 0 <= r < |examples| :: MaxIndex(examples[r].features) == d
    requires examples != [] && d >= 0
    ensures Width(examples) == d
  {
    if |examples| > 1 {
      WidthOfUniform(examples[..|examples| - 1], d);
    }
  }

  lemma ExamplesOfFacts(labels: seq<nat>, matrix: seq<seq<int>>, d: nat)
    requires |labels| == |matrix| > 0 && forall r | 0 <= r < |matrix| :: |matrix[r]| == d
    ensures var examples := ExamplesOf(labels, matrix);
      && Width(examples) == d
      && forall r | 0 <= r < |examples| :: OneBased(examples[r].features)
  {
    var examples := ExamplesOf(labels, matrix);
    forall r | 0 <= r < |examples|
      ensures OneBased(examples[r].features) && MaxIndex(examples[r].features) == d
    {
      FeaturesOfFacts(matrix[r]);
    }
    WidthOfUniform(examples, d);
  }

  /** The numbers a matrix of fixed-point values holds. */
  function Values(matrix: seq<seq<int>>): seq<seq<Number>> {
    seq(|matrix|, r requires 0 <= r < |matrix| =>
      seq(|matrix[r]|, c requires 0 <= c < |matrix[r]| => Fixed(matrix[r][c])))
  }

  lemma HeldMatrixIsWritten(loaded: seq<seq<Number>>, labels: seq<nat>, matrix: seq<seq<int>>, d: nat)
    requires |labels| == |matrix| && forall r | 0 <= r < |matrix| :: |matrix[r]| == d
    requires MatrixHolds(loaded, ExamplesOf(labels, matrix), d)
    ensures loaded == Values(matrix)
  {
    forall r | 0 <= r < |matrix|
      ensures loaded[r] == Values(matrix)[r]
    {
      FeaturesOfFacts(matrix[r]);
      assert RowHolds(loaded[r], ExamplesOf(labels, matrix)[r].features, d);
    }
  }

  lemma WrittenExamples(labels: seq<nat>, matrix: seq<seq<int>>)
    requires |labels| == |matrix|
    ensures Examples(Lines(Write(labels, matrix))) == Some(ExamplesOf(labels, matrix))
  {
    LinesOfWritten(labels, matrix);
    RowsOfAt(labels, matrix);
    ExamplesOfRows(labels, matrix, RowsOf(labels, matrix));
  }

  function Numbers(labels: seq<nat>): seq<Number> {
    seq(|labels|, r requires 0 <= r < |labels| => Finite(labels[r] as real))
  }

  lemma LabelsOfWritten(labels: seq<nat>, matrix: seq<seq<int>>)
    requires |labels| == |matrix|
    ensures Labels(ExamplesOf(labels, matrix)) == Numbers(labels)
  {
  }

  /** Reading what was written returns the same labels and the same n by d matrix. */
  lemma WriteThenLoad(labels: seq<nat>, matrix: seq<seq<int>>, d: nat)
    requires |labels| == |matrix| > 0 && forall r | 0 <= r < |matrix| :: |matrix[r]| == d
    ensures Load(Write(labels, matrix)) == Success(Dataset(Numbers(labels), d, Values(matrix)))
  {
    var text, examples := Write(labels, matrix), ExamplesOf(labels, matrix);
    WrittenExamples(labels, matrix);
    ExamplesOfFacts(labels, matrix, d);
    OneBasedFilesLoad(text, examples);
    var loaded := Load(text).value;
    assert loaded.matrix == Values(matrix) by { HeldMatrixIsWritten(loaded.matrix, labels, matrix, d); }
    assert loaded.labels == Numbers(labels) by { LabelsOfWritten(labels, matrix); }
  }
}
