/**
 * Indexing-time data cleaning: column renaming and projection, dropping
 * incomplete rows, the sampling rule, normalising the size strings, and one
 * document per row. A data frame is a list of column names and a list of
 * rows, each row its index label and one cell per column.
 */
module Embedding {
  import opened Common
  import opened Text
  import opened Documents

  // ---------------------------------------------------------------------
  // columns

  /** The source columns `clean_column_names` renames, and their new names. */
  const RenameDict: map<string, string> := map[
    "BrandName" := "Brand Name",
    "Sizes" := "Available Sizes",
    "SellPrice" := "Product Price",
    "Deatils" := "Product Details"]

  /** The columns kept for indexing, in the order they are kept. */
  const ValidColumns: seq<string> := ["Product Details", "Brand Name", "Available Sizes", "Product Price"]

  const SizesColumn: string := "Available Sizes"
  const PriceColumn: string := "Product Price"

  /** The renaming restricted to the columns the frame actually has. */
  function RenameFor(cols: seq<string>): (m: map<string, string>)
    ensures m.Keys == (set k | k in RenameDict && k in cols)
    ensures forall k :: k in m ==> m[k] == RenameDict[k]
  {
    map k | k in RenameDict && k in cols :: RenameDict[k]
  }

  /**
   * `clean_column_names`: every listed source column becomes its new name,
   * every other column keeps its name, and the number and order of columns
   * stay; restricting the renaming to present columns changes nothing.
   */
  function CleanColumnNames(cols: seq<string>): (r: seq<string>)
    ensures |r| == |cols|
    ensures forall i :: 0 <= i < |cols| && cols[i] in RenameDict ==> r[i] == RenameDict[cols[i]]
    ensures forall i :: 0 <= i < |cols| && cols[i] !in RenameDict ==> r[i] == cols[i]
  {
    var m := RenameFor(cols);
    seq(|cols|, i requires 0 <= i < |cols| => if cols[i] in m then m[cols[i]] else cols[i])
  }

  /** `a` is `b` with some elements left out, the rest in order. */
  predicate Subsequence(a: seq<string>, b: seq<string>)
    decreases |b|
  {
    |a| == 0 || (|b| > 0 && ((a[0] == b[0] && Subsequence(a[1..], b[1..])) || Subsequence(a, b[1..])))
  }

  /** `[n for n in names if n in cols]`. */
  function FilterPresent(names: seq<string>, cols: seq<string>): (r: seq<string>)
    ensures forall n :: n in r <==> n in names && n in cols
    ensures Subsequence(r, names)
    ensures NoDuplicates(names) ==> NoDuplicates(r)
  {
    if |names| == 0 then []
    else if names[0] in cols then [names[0]] + FilterPresent(names[1..], cols)
    else FilterPresent(names[1..], cols)
  }

  /** The comprehension naming the columns to keep: the valid columns the frame has, in the valid columns' order. */
  function SelectedNames(cols: seq<string>): (r: seq<string>)
    ensures forall n :: n in r <==> n in ValidColumns && n in cols
    ensures Subsequence(r, ValidColumns)
    ensures NoDuplicates(r)
  {
    FilterPresent(ValidColumns, cols)
  }

  /** The positions of the columns called `name`, left to right. */
  function Positions(cols: seq<string>, name: string): (r: seq<nat>)
    ensures forall k :: 0 <= k < |r| ==> r[k] < |cols| && cols[r[k]] == name
    ensures forall j :: 0 <= j < |cols| && cols[j] == name ==> j in r
    ensures name !in cols ==> r == []
    decreases |cols|
  {
    if |cols| == 0 then []
    else
      var n := |cols| - 1;
      var p := Positions(cols[..n], name);
      assert forall j :: 0 <= j < n ==> cols[..n][j] == cols[j];
      p + (if cols[n] == name then [n] else [])
  }

  /** `df[names]`: the positions of every column carrying one of `names`, grouped in the order of `names`. */
  function Selection(cols: seq<string>, names: seq<string>): (r: seq<nat>)
    ensures forall k :: 0 <= k < |r| ==> r[k] < |cols| && cols[r[k]] in names
    ensures forall j :: 0 <= j < |cols| && cols[j] in names ==> j in r
  {
    if |names| == 0 then []
    else
      var head := Positions(cols, names[0]);
      var rest := Selection(cols, names[1..]);
      assert forall j :: 0 <= j < |cols| && cols[j] in names ==> cols[j] == names[0] || cols[j] in names[1..];
      head + rest
  }

  /**
   * The projection of `load_and_preprocess_data`: the kept positions are
   * exactly those of columns whose name is a valid column.
   */
  function Projection(cols: seq<string>): (sel: seq<nat>)
    ensures forall k :: 0 <= k < |sel| ==> sel[k] < |cols| && cols[sel[k]] in ValidColumns
    ensures forall j :: 0 <= j < |cols| && cols[j] in ValidColumns ==> j in sel
  {
    Selection(cols, SelectedNames(cols))
  }

  function Pick<T>(s: seq<T>, sel: seq<nat>): (r: seq<T>)
    requires forall k :: 0 <= k < |sel| ==> sel[k] < |s|
    ensures |r| == |sel|
    ensures forall k :: 0 <= k < |sel| ==> r[k] == s[sel[k]]
  {
    seq(|sel|, k requires 0 <= k < |sel| => s[sel[k]])
  }

  lemma {:induction false} PositionsOfUnique(cols: seq<string>, name: string, j: nat)
    requires NoDuplicates(cols)
    requires j < |cols| && cols[j] == name
    ensures Positions(cols, name) == [j]
    decreases |cols|
  {
    var n := |cols| - 1;
    if j == n {
      assert forall k :: 0 <= k < n ==> cols[..n][k] != name;
      assert Positions(cols[..n], name) == [];
    } else {
      PositionsOfUnique(cols[..n], name, j);
    }
  }

  /** A position holding `name`, when `name` is a column. */
  lemma PositionOf(cols: seq<string>, name: string) returns (j: nat)
    requires name in cols
    ensures j < |cols| && cols[j] == name
  {
    j :| 0 <= j < |cols| && cols[j] == name;
  }

  /** With distinct columns the selection starts with the one position of the first name. */
  lemma SelectionCons(cols: seq<string>, names: seq<string>, j: nat)
    requires NoDuplicates(cols)
    requires |names| > 0 && j < |cols| && cols[j] == names[0]
    ensures Selection(cols, names) == [j] + Selection(cols, names[1..])
  {
    PositionsOfUnique(cols, names[0], j);
  }

  /** With distinct columns the selection of present names has one position per name, in order. */
  lemma {:induction false} SelectionOfDistinct(cols: seq<string>, names: seq<string>)
    requires NoDuplicates(cols)
    requires forall i :: 0 <= i < |names| ==> names[i] in cols
    ensures |Selection(cols, names)| == |names|
    ensures forall k :: 0 <= k < |names| ==> cols[Selection(cols, names)[k]] == names[k]
  {
    if |names| > 0 {
      var j := PositionOf(cols, names[0]);
      SelectionCons(cols, names, j);
      var tail := names[1..];
      SelectionOfDistinct(cols, tail);
      var rest := Selection(cols, tail);
      forall k | 1 <= k < |names| ensures cols[Selection(cols, names)[k]] == names[k] {
        assert Selection(cols, names)[k] == rest[k - 1];
        assert names[k] == tail[k - 1];
      }
    }
  }

  /** With distinct column names the projection keeps exactly the valid columns present, in the valid columns' order. */
  lemma ProjectionOfDistinct(cols: seq<string>)
    requires NoDuplicates(cols)
    ensures Pick(cols, Projection(cols)) == SelectedNames(cols)
  {
    var names := SelectedNames(cols);
    assert forall i :: 0 <= i < |names| ==> names[i] in names;
    SelectionOfDistinct(cols, names);
  }

  // ---------------------------------------------------------------------
  // rows

  /** One row of a frame: its index label and its cells. */
  datatype Row = Row(index: int, cells: seq<Cell>)

  predicate Complete(row: Row)
  {
    forall k :: 0 <= k < |row.cells| ==> !row.cells[k].Missing?
  }

  /** `dropna`: the complete rows, in order, with their labels. */
  function DropIncomplete(rows: seq<Row>): (r: seq<Row>)
    ensures |r| <= |rows|
    ensures forall i :: 0 <= i < |r| ==> Complete(r[i]) && r[i] in rows
    ensures forall i :: 0 <= i < |rows| && Complete(rows[i]) ==> rows[i] in r
  {
    if |rows| == 0 then []
    else if Complete(rows[0]) then [rows[0]] + DropIncomplete(rows[1..])
    else
      assert forall i :: 1 <= i < |rows| ==> rows[i] == rows[1..][i - 1];
      DropIncomplete(rows[1..])
  }

  /**
   * `dropna` keeps order and multiplicity: dropping from a concatenation is
   * dropping from each part, so the survivors are the complete rows in the
   * order the input lists them.
   */
  lemma {:induction false} DropIncompleteConcat(a: seq<Row>, b: seq<Row>)
    ensures DropIncomplete(a + b) == DropIncomplete(a) + DropIncomplete(b)
  {
    if |a| == 0 {
      assert a + b == b;
    } else {
      assert (a + b)[1..] == a[1..] + b;
      DropIncompleteConcat(a[1..], b);
    }
  }

  /** A complete row survives `dropna` on its own, an incomplete one does not. */
  lemma DropIncompleteSingle(row: Row)
    ensures DropIncomplete([row]) == if Complete(row) then [row] else []
  {
  }

  function Labels(rows: seq<Row>): (r: seq<int>)
    ensures |r| == |rows| && forall i :: 0 <= i < |rows| ==> r[i] == rows[i].index
  {
    seq(|rows|, i requires 0 <= i < |rows| => rows[i].index)
  }

  /** Every row keeps its label and has its cells restricted to the positions `sel`. */
  function ProjectRows(rows: seq<Row>, width: nat, sel: seq<nat>): (r: seq<Row>)
    requires forall k :: 0 <= k < |sel| ==> sel[k] < width
    requires forall i :: 0 <= i < |rows| ==> |rows[i].cells| == width
    ensures |r| == |rows|
    ensures forall i :: 0 <= i < |rows| ==> r[i] == Row(rows[i].index, Pick(rows[i].cells, sel))
  {
    seq(|rows|, i requires 0 <= i < |rows| => Row(rows[i].index, Pick(rows[i].cells, sel)))
  }

  /** `if n_samples and n_samples < len(df)`: sampling happens only for a non-zero count below the row count. */
  predicate SamplingApplies(nSamples: Option<int>, len: nat)
  {
    nSamples.Some? && nSamples.value != 0 && nSamples.value < len
  }

  /**
   * The number of rows left by the sampling step: `n_samples` when it is
   * non-zero and below the row count, otherwise all rows; `None` when pandas
   * refuses the request, which happens exactly for a negative count.
   */
  function SampleCount(nSamples: Option<int>, len: nat): (r: Option<nat>)
    ensures r.None? <==> nSamples.Some? && nSamples.value < 0
    ensures r.Some? ==> r.value <= len
    ensures SamplingApplies(nSamples, len) && nSamples.value > 0 ==> r == Some(nSamples.value)
    ensures !SamplingApplies(nSamples, len) ==> r == Some(len)
  {
    if SamplingApplies(nSamples, len) then
      if nSamples.value < 0 then None else Some(nSamples.value as nat)
    else Some(len)
  }

  // ---------------------------------------------------------------------
  // the mutable frame

  class Frame {
    var columns: seq<string>
    var rows: seq<Row>

    /** Every row has one cell per column. */
    ghost predicate Valid()
      reads this
    {
      forall i :: 0 <= i < |rows| ==> |rows[i].cells| == |columns|
    }

    constructor (columns: seq<string>, rows: seq<Row>)
      ensures this.columns == columns && this.rows == rows
    {
      this.columns := columns;
      this.rows := rows;
    }

    /** `df.dropna(inplace=True)`. */
    method DropNa()
      requires Valid()
      modifies this
      ensures Valid()
      ensures columns == old(columns) && rows == DropIncomplete(old(rows))
    {
      rows := DropIncomplete(rows);
    }

    /** `df[name] = df[name].apply(f)`. */
    method Apply(name: string, f: Cell -> Cell)
      requires Valid()
      modifies this
      ensures Valid()
      ensures columns == old(columns) && rows == MapColumn(old(rows), columns, name, f)
    {
      rows := MapColumn(rows, columns, name, f);
    }
  }

  /** `f` applied to the cells of every column called `name`, nothing else changed. */
  function MapColumn(rows: seq<Row>, cols: seq<string>, name: string, f: Cell -> Cell): (r: seq<Row>)
    requires forall i :: 0 <= i < |rows| ==> |rows[i].cells| == |cols|
    ensures |r| == |rows|
    ensures forall i :: 0 <= i < |rows| ==> r[i].index == rows[i].index && |r[i].cells| == |cols|
    ensures forall i, j :: 0 <= i < |rows| && 0 <= j < |cols| ==>
      r[i].cells[j] == if cols[j] == name then f(rows[i].cells[j]) else rows[i].cells[j]
  {
    seq(|rows|, i requires 0 <= i < |rows| =>
      Row(rows[i].index, seq(|cols|, j requires 0 <= j < |cols| =>
        if cols[j] == name then f(rows[i].cells[j]) else rows[i].cells[j])))
  }

  /** Applying to a column the frame does not have changes nothing. */
  lemma MapColumnAbsent(rows: seq<Row>, cols: seq<string>, name: string, f: Cell -> Cell)
    requires forall i :: 0 <= i < |rows| ==> |rows[i].cells| == |cols|
    requires name !in cols
    ensures MapColumn(rows, cols, name, f) == rows
  {
    var r := MapColumn(rows, cols, name, f);
    forall i | 0 <= i < |rows| ensures r[i] == rows[i] {
      assert r[i].cells == rows[i].cells;
    }
  }

  /**
   * `df.sample(n)`: `n` rows picked at distinct positions, in an order left
   * to the random generator.
   */
  method Sample(df: Frame, n: nat) returns (r: Frame)
    requires df.Valid() && n <= |df.rows|
    ensures r.Valid() && r.columns == df.columns && |r.rows| == n
    ensures forall k :: 0 <= k < n ==> r.rows[k] in df.rows
    ensures NoDuplicates(Labels(df.rows)) ==> NoDuplicates(Labels(r.rows))
  {
    ghost var first := seq(n, i requires 0 <= i < n => i as nat);
    assert |first| == n && NoDuplicates(first) && forall k :: 0 <= k < n ==> first[k] < |df.rows|;
    var pick: seq<nat> :| |pick| == n && NoDuplicates(pick) && forall k :: 0 <= k < n ==> pick[k] < |df.rows|;
    r := new Frame(df.columns, Pick(df.rows, pick));
    assert NoDuplicates(pick);
    if NoDuplicates(Labels(df.rows)) {
      forall i, j | 0 <= i < j < n ensures Labels(r.rows)[i] != Labels(r.rows)[j] {
        assert Labels(r.rows)[i] == Labels(df.rows)[pick[i]];
        assert Labels(r.rows)[j] == Labels(df.rows)[pick[j]];
        assert pick[i] != pick[j];
      }
    }
  }

  /**
   * `load_and_preprocess_data` after reading the raw frame: rename, project,
   * drop incomplete rows, sample. `None` when sampling is refused.
   */
  method LoadAndPreprocessData(raw: Frame, nSamples: Option<int>) returns (df: Option<Frame>)
    requires raw.Valid()
    ensures var cols := CleanColumnNames(raw.columns);
      var complete := DropIncomplete(ProjectRows(raw.rows, |cols|, Projection(cols)));
      && (df.None? <==> SampleCount(nSamples, |complete|).None?)
      && (df.Some? ==>
           && df.value.Valid()
           && df.value.columns == Pick(cols, Projection(cols))
           && |df.value.rows| == SampleCount(nSamples, |complete|).value
           && (forall k :: 0 <= k < |df.value.rows| ==> df.value.rows[k] in complete)
           && (!SamplingApplies(nSamples, |complete|) ==> df.value.rows == complete))
  {
    var cols := CleanColumnNames(raw.columns);
    var sel := Projection(cols);
    var projected := new Frame(Pick(cols, sel), ProjectRows(raw.rows, |cols|, sel));
    projected.DropNa();
    var count := SampleCount(nSamples, |projected.rows|);
    if count.None? {
      return None;
    }
    if SamplingApplies(nSamples, |projected.rows|) {
      var sampled := Sample(projected, count.value);
      return Some(sampled);
    }
    return Some(projected);
  }

  // ---------------------------------------------------------------------
  // sizes

  const SizeLabel: string := "Size:"

  /** Each piece trimmed, then lower-cased. */
  function Normalize(ps: seq<string>): (qs: seq<string>)
    ensures |qs| == |ps|
    ensures forall i :: 0 <= i < |ps| ==> qs[i] == Lower(Strip(ps[i]))
  {
    seq(|ps|, i requires 0 <= i < |ps| => Lower(Strip(ps[i])))
  }

  /** The normalised size pieces: one more than the commas of the input, none holding a comma. */
  function SizePieces(s: string): (ps: seq<string>)
    ensures |ps| == Count(s, ',') + 1
    ensures forall i :: 0 <= i < |ps| ==> ',' !in ps[i]
  {
    RemoveAllKeepsCount(s, SizeLabel, ',');
    var raw := Split(RemoveAll(s, SizeLabel), ',');
    NormalizeNoComma(raw);
    Normalize(raw)
  }

  /** `convert_sizes`: "" for a missing or non-string value, else the normalised pieces joined by ", ". */
  function ConvertSizes(v: Cell): (r: string)
    ensures !v.Str? ==> r == ""
    ensures v.Str? ==> Count(r, ',') == Count(v.text, ',')
  {
    match v
    case Str(s) =>
      var r := Join(", ", SizePieces(s));
      ConvertedCommas(s);
      r
    case _ => ""
  }

  lemma NormalizeNoComma(ps: seq<string>)
    requires forall i :: 0 <= i < |ps| ==> ',' !in ps[i]
    ensures forall i :: 0 <= i < |ps| ==> ',' !in Normalize(ps)[i]
  {
    forall i | 0 <= i < |ps| ensures ',' !in Normalize(ps)[i] {
      StripAvoids(ps[i], ',');
      LowerAvoidsComma(Strip(ps[i]));
    }
  }

  /** A normalised piece is stripped and lower-case already. */
  lemma NormalizedPieceStable(p: string)
    ensures Strip(Lower(Strip(p))) == Lower(Strip(p))
    ensures Lower(Lower(Strip(p))) == Lower(Strip(p))
    ensures Lower(Strip(" " + Lower(Strip(p)))) == Lower(Strip(p))
  {
    StripLower(Strip(p));
    StripIdempotent(p);
    LowerIdempotent(Strip(p));
    StripLeadingBlank(Lower(Strip(p)));
  }

  /** Splitting the converted string on commas gives the first piece and every later piece behind a blank. */
  lemma ConvertedSplit(s: string)
    ensures var ps := SizePieces(s); var parts := Split(Join(", ", ps), ',');
      && |parts| == |ps| && parts[0] == ps[0]
      && forall i :: 0 < i < |ps| ==> parts[i] == " " + ps[i]
  {
    assert ", " == [','] + " ";
    SplitJoinedParts(SizePieces(s), ',', " ");
  }

  lemma ConvertedCommas(s: string)
    ensures Count(Join(", ", SizePieces(s)), ',') == Count(s, ',')
  {
    ConvertedSplit(s);
  }

  /** Each normalised piece is stripped, lower-case and free of the letter of the size label. */
  lemma PieceStable(s: string, i: nat)
    requires i < |SizePieces(s)|
    ensures Strip(SizePieces(s)[i]) == SizePieces(s)[i]
    ensures Lower(SizePieces(s)[i]) == SizePieces(s)[i]
    ensures SizeLabel[0] !in SizePieces(s)[i]
  {
    var raw := Split(RemoveAll(s, SizeLabel), ',');
    NormalizedPieceStable(raw[i]);
    LowerAvoidsUpper(Strip(raw[i]), SizeLabel[0]);
  }

  /**
   * The converted string splits back on commas into exactly as many pieces as
   * the input had, and each piece, trimmed, is the normalised input piece.
   */
  lemma {:induction false} ConvertedPieces(s: string)
    ensures var parts := Split(Join(", ", SizePieces(s)), ',');
      && |parts| == Count(s, ',') + 1
      && forall i :: 0 <= i < |parts| ==> Strip(parts[i]) == SizePieces(s)[i]
  {
    ConvertedSplit(s);
    var parts := Split(Join(", ", SizePieces(s)), ',');
    forall i | 0 <= i < |parts| ensures Strip(parts[i]) == SizePieces(s)[i] {
      ConvertedPart(s, i);
    }
  }

  /** Piece `i` of the converted string, trimmed, is the normalised input piece `i`. */
  lemma ConvertedPart(s: string, i: nat)
    requires i < |SizePieces(s)|
    ensures i < |Split(Join(", ", SizePieces(s)), ',')|
    ensures Strip(Split(Join(", ", SizePieces(s)), ',')[i]) == SizePieces(s)[i]
  {
    ConvertedSplit(s);
    PieceStable(s, i);
    var parts := Split(Join(", ", SizePieces(s)), ',');
    BlankPrefixedPart(parts[i], SizePieces(s)[i], i > 0);
  }

  /** A stripped piece, behind one blank or none, trims back to itself. */
  lemma BlankPrefixedPart(part: string, p: string, blank: bool)
    requires part == if blank then " " + p else p
    requires Strip(p) == p
    ensures Strip(part) == p
  {
    if blank {
      StripLeadingBlank(p);
    }
  }

  /** The converted string of a string value, split back on commas and trimmed, is its normalised pieces. */
  lemma ConvertSizesPieces(s: string)
    ensures var parts := Split(ConvertSizes(Str(s)), ',');
      && |parts| == Count(s, ',') + 1
      && forall i :: 0 <= i < |parts| ==> Strip(parts[i]) == SizePieces(s)[i]
  {
    ConvertedPieces(s);
  }

  /** Normalising the converted string again gives the same pieces. */
  lemma {:induction false} PiecesIdempotent(s: string)
    ensures SizePieces(Join(", ", SizePieces(s))) == SizePieces(s)
  {
    var ps := SizePieces(s);
    var out := Join(", ", ps);
    ConvertedLacksLabel(s);
    SizePiecesWithoutLabel(out);
    ConvertedPieces(s);
    PiecesLowerCase(s);
    NormalizeFixed(Split(out, ','), ps);
  }

  /** The converted string holds no `S`, so a second conversion removes nothing. */
  lemma ConvertedLacksLabel(s: string)
    ensures SizeLabel[0] !in Join(", ", SizePieces(s))
  {
    var ps := SizePieces(s);
    forall i | 0 <= i < |ps| ensures SizeLabel[0] !in ps[i] {
      PieceStable(s, i);
    }
    JoinAvoids(", ", ps, SizeLabel[0]);
  }

  /** Every normalised piece is already lower-case. */
  lemma PiecesLowerCase(s: string)
    ensures forall i :: 0 <= i < |SizePieces(s)| ==> Lower(SizePieces(s)[i]) == SizePieces(s)[i]
  {
    var ps := SizePieces(s);
    forall i | 0 <= i < |ps| ensures Lower(ps[i]) == ps[i] {
      PieceStable(s, i);
    }
  }

  /** Without the size label's first letter, nothing is removed before splitting. */
  lemma SizePiecesWithoutLabel(s: string)
    requires SizeLabel[0] !in s
    ensures SizePieces(s) == Normalize(Split(s, ','))
  {
    RemoveAllAbsent(s, SizeLabel);
  }

  /** Pieces that trim to lower-case pieces normalise to them. */
  lemma NormalizeFixed(parts: seq<string>, ps: seq<string>)
    requires |parts| == |ps|
    requires forall i :: 0 <= i < |ps| ==> Strip(parts[i]) == ps[i] && Lower(ps[i]) == ps[i]
    ensures Normalize(parts) == ps
  {
    var again := Normalize(parts);
    assert forall i :: 0 <= i < |ps| ==> again[i] == ps[i];
  }

  /** `convert_sizes` drops a leading "Size:" label. */
  lemma ConvertSizesDropsLabel(s: string)
    ensures ConvertSizes(Str(SizeLabel + s)) == ConvertSizes(Str(s))
  {
    RemoveAllPrefix(SizeLabel, s);
  }

  /** `convert_sizes` is idempotent. */
  lemma ConvertSizesIdempotent(v: Cell)
    ensures ConvertSizes(Str(ConvertSizes(v))) == ConvertSizes(v)
  {
    if v.Str? {
      PiecesIdempotent(v.text);
    } else {
      assert Split(RemoveAll("", SizeLabel), ',') == [""];
    }
  }

  // ---------------------------------------------------------------------
  // documents

  /** Position `j` holds the rightmost occurrence of its column name. */
  predicate LastAt(cols: seq<string>, j: int)
    requires 0 <= j < |cols|
  {
    forall k :: j < k < |cols| ==> cols[k] != cols[j]
  }

  /** `row.to_dict()`: one entry per column name. */
  function RowDict(cols: seq<string>, cells: seq<Cell>): (m: map<string, Cell>)
    requires |cells| == |cols|
    ensures m.Keys == set c | c in cols
    decreases |cols|
  {
    if |cols| == 0 then map[]
    else
      var n := |cols| - 1;
      assert cols == cols[..n] + [cols[n]];
      assert (set c | c in cols) == (set c | c in cols[..n]) + {cols[n]};
      RowDict(cols[..n], cells[..n])[cols[n] := cells[n]]
  }

  /** For a repeated column name the rightmost cell wins. */
  lemma {:induction false} RowDictAt(cols: seq<string>, cells: seq<Cell>, j: int)
    requires |cells| == |cols| && 0 <= j < |cols| && LastAt(cols, j)
    ensures RowDict(cols, cells)[cols[j]] == cells[j]
    decreases |cols|
  {
    var n := |cols| - 1;
    if j < n {
      assert cols[..n][j] == cols[j] && cells[..n][j] == cells[j];
      assert cols[j] != cols[n];
      assert forall k :: j < k < n ==> cols[..n][k] == cols[k];
      RowDictAt(cols[..n], cells[..n], j);
    }
  }

  /**
   * The list comprehension of `generate_documents`: one document per row,
   * in row order, whose metadata is the row as a dictionary, whose id is
   * the row's label and whose text is the serialised metadata.
   */
  function ToDocuments(cols: seq<string>, rows: seq<Row>, dumps: map<string, Cell> -> string): (docs: seq<Document>)
    requires forall i :: 0 <= i < |rows| ==> |rows[i].cells| == |cols|
    ensures |docs| == |rows|
    ensures forall i :: 0 <= i < |rows| ==>
      (docs[i].id == rows[i].index
       && docs[i].metadata.Keys == (set c | c in cols)
       && docs[i].pageContent == dumps(docs[i].metadata))
  {
    seq(|rows|, i requires 0 <= i < |rows| => RowDocument(cols, rows[i], dumps))
  }

  /** The document of one row. */
  function RowDocument(cols: seq<string>, row: Row, dumps: map<string, Cell> -> string): (d: Document)
    requires |row.cells| == |cols|
    ensures d.id == row.index && d.metadata.Keys == (set c | c in cols) && d.pageContent == dumps(d.metadata)
  {
    var meta := RowDict(cols, row.cells);
    Document(dumps(meta), meta, row.index)
  }

  /** The document of row `i` holds, under a column name, the row's rightmost cell of that name. */
  lemma DocumentCell(cols: seq<string>, rows: seq<Row>, dumps: map<string, Cell> -> string, i: int, j: int)
    requires forall r :: 0 <= r < |rows| ==> |rows[r].cells| == |cols|
    requires 0 <= i < |rows| && 0 <= j < |cols| && LastAt(cols, j)
    ensures ToDocuments(cols, rows, dumps)[i].metadata[cols[j]] == rows[i].cells[j]
  {
    RowDictAt(cols, rows[i].cells, j);
  }

  function SizesCell(c: Cell): Cell
  {
    Str(ConvertSizes(c))
  }

  /**
   * Saving without the index and reading back: the same cells, row by row,
   * labelled afresh with the positions 0, 1, 2, ...
   */
  function ReadProcessed(rows: seq<Row>): (r: seq<Row>)
    ensures |r| == |rows|
    ensures forall i :: 0 <= i < |rows| ==> r[i].index == i && r[i].cells == rows[i].cells
  {
    seq(|rows|, i requires 0 <= i < |rows| => Row(i, rows[i].cells))
  }

  /** The cells of a frame after `generate_documents`' two column conversions. */
  function Converted(rows: seq<Row>, cols: seq<string>, convertPrice: Cell -> Cell): (r: seq<Row>)
    requires forall i :: 0 <= i < |rows| ==> |rows[i].cells| == |cols|
    ensures forall i :: 0 <= i < |r| ==> |r[i].cells| == |cols|
  {
    MapColumn(MapColumn(rows, cols, SizesColumn, SizesCell), cols, PriceColumn, convertPrice)
  }

  /**
   * `generate_documents()` (the default, non-`CSVLoader` branch) on the frame
   * `saved` that `load_and_preprocess_data` wrote: read it back, convert the
   * sizes column (when present) with `convert_sizes` and the price column
   * (when present) with the price converter, each in place, then build one
   * document per row. The saved frame itself is not touched.
   */
  method GenerateDocuments(saved: Frame, convertPrice: Cell -> Cell, dumps: map<string, Cell> -> string)
    returns (docs: seq<Document>)
    requires saved.Valid()
    ensures docs == ToDocuments(saved.columns, Converted(ReadProcessed(saved.rows), saved.columns, convertPrice), dumps)
  {
    var df := new Frame(saved.columns, ReadProcessed(saved.rows));
    if SizesColumn in df.columns {
      df.Apply(SizesColumn, SizesCell);
    } else {
      MapColumnAbsent(df.rows, df.columns, SizesColumn, SizesCell);
    }
    if PriceColumn in df.columns {
      df.Apply(PriceColumn, convertPrice);
    } else {
      MapColumnAbsent(df.rows, df.columns, PriceColumn, convertPrice);
    }
    docs := ToDocuments(df.columns, df.rows, dumps);
  }

  /**
   * The generated documents are numbered by position: the ids are 0, 1, 2,
   * ... and so distinct, whatever labels the sampled rows had before saving.
   */
  lemma DocumentIdsArePositions(saved: seq<Row>, cols: seq<string>, convertPrice: Cell -> Cell,
                                dumps: map<string, Cell> -> string)
    requires forall i :: 0 <= i < |saved| ==> |saved[i].cells| == |cols|
    ensures var docs := ToDocuments(cols, Converted(ReadProcessed(saved), cols, convertPrice), dumps);
      |docs| == |saved| && forall i :: 0 <= i < |docs| ==> docs[i].id == i
  {
  }

  /**
   * With distinct column names, every document `generate_documents` makes
   * stores its sizes as the one string `convert_sizes` made of the saved
   * row's cell; the price conversion, on another column, leaves it alone.
   */
  lemma SizesStoredAsOneString(cols: seq<string>, saved: seq<Row>, convertPrice: Cell -> Cell,
                               dumps: map<string, Cell> -> string, i: nat, j: nat)
    requires forall r :: 0 <= r < |saved| ==> |saved[r].cells| == |cols|
    requires NoDuplicates(cols)
    requires i < |saved| && j < |cols| && cols[j] == SizesColumn
    ensures var docs := ToDocuments(cols, Converted(ReadProcessed(saved), cols, convertPrice), dumps);
      docs[i].metadata[SizesColumn] == Str(ConvertSizes(saved[i].cells[j]))
  {
    var read := ReadProcessed(saved);
    var sized := MapColumn(read, cols, SizesColumn, SizesCell);
    assert sized[i].cells[j] == Str(ConvertSizes(saved[i].cells[j]));
    assert cols[j] != PriceColumn;
    assert Converted(read, cols, convertPrice)[i].cells[j] == sized[i].cells[j];
    assert LastAt(cols, j);
    DocumentCell(cols, Converted(read, cols, convertPrice), dumps, i, j);
  }
}
