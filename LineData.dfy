/** The `LineData` container of vald/extraction.py. The source keeps parallel,
    equal-length columns; here each row is one record, so equal length holds by
    construction. A row carries, besides the physical columns, its provenance:
    the index of the source list it came from, its nine ranks, whether it may be
    merged, whether it comes from a replacement list, and its forbid byte. */
module LineData {
  import opened Wrappers
  import opened Masks

  type Byte = b: int | 0 <= b < 256

  /** ASCII ' ' (an allowed transition) and 'A' (autoionising). */
  const Space: Byte := 32
  const Auto: Byte := 65

  /** Offset of the forbid byte in a row's stride of the string data, and the
      stride the source needs before it reads it. */
  const ForbidOffset: nat := 190
  const MinStride: nat := 191

  /** The nine ranks: wavelength, loggf, E_lower, E_upper, Landé, radiative,
      Stark, van der Waals, term. */
  type Ranks = r: seq<int> | |r| == 9 witness [3, 3, 3, 3, 3, 3, 3, 3, 3]

  const DefaultRanks: Ranks := [3, 3, 3, 3, 3, 3, 3, 3, 3]

  datatype Line = Line(
    wavelength: real, species: int, loggf: real, eLower: real, eUpper: real,
    jLower: real, jUpper: real, landeLower: real, landeUpper: real,
    gammaRad: real, gammaStark: real, gammaVdw: real,
    source: int, ranks: Ranks, mergeable: bool, isReplacement: bool, forbid: Byte)

  /** A `LineData`; `LineData.empty()` is `[]`. */
  type Lines = seq<Line>

  /** What the reader's `query_range` returns: a line count, one column per
      physical quantity and the raw string data (empty when absent). */
  datatype QueryResult = QueryResult(
    nlines: int, wavelength: seq<real>, species: seq<int>, loggf: seq<real>,
    eLower: seq<real>, eUpper: seq<real>, jLower: seq<real>, jUpper: seq<real>,
    landeLower: seq<real>, landeUpper: seq<real>, gammaRad: seq<real>,
    gammaStark: seq<real>, gammaVdw: seq<real>, stringData: seq<Byte>)
  {
    /** The reader's contract: one entry per line in every column. */
    predicate Valid()
    {
      nlines >= 0 && |wavelength| == nlines && |species| == nlines && |loggf| == nlines
      && |eLower| == nlines && |eUpper| == nlines && |jLower| == nlines && |jUpper| == nlines
      && |landeLower| == nlines && |landeUpper| == nlines && |gammaRad| == nlines
      && |gammaStark| == nlines && |gammaVdw| == nlines
    }
  }

  /** Python's `a // b` on non-negative operands, by repeated subtraction. */
  function Quotient(a: nat, b: nat): (r: nat)
    requires b > 0
    decreases a
  {
    if a < b then 0 else 1 + Quotient(a - b, b)
  }

  /** `Quotient` is floor division: `b * r <= a < b * (r + 1)`. */
  lemma {:induction false} QuotientIsFloorDivision(a: nat, b: nat)
    requires b > 0
    ensures b * Quotient(a, b) <= a < b * (Quotient(a, b) + 1)
    decreases a
  {
    if a >= b {
      QuotientIsFloorDivision(a - b, b);
      assert b * Quotient(a, b) == b + b * Quotient(a - b, b);
    }
  }

  /** The offset of line `i`'s forbid byte for a given stride, `i * stride + 190`,
      accumulated one stride at a time. */
  function ForbidIndex(i: nat, stride: nat): nat
  {
    if i == 0 then ForbidOffset else ForbidIndex(i - 1, stride) + stride
  }

  lemma {:induction false} ForbidIndexValue(i: nat, stride: nat)
    ensures ForbidIndex(i, stride) == i * stride + ForbidOffset
  {
    if i > 0 {
      ForbidIndexValue(i - 1, stride);
      assert i * stride == (i - 1) * stride + stride;
    }
  }

  lemma {:induction false} ForbidIndexMonotone(i: nat, j: nat, stride: nat)
    requires i <= j
    ensures ForbidIndex(i, stride) <= ForbidIndex(j, stride)
    decreases j
  {
    if i < j {
      ForbidIndexMonotone(i, j - 1, stride);
    }
  }

  /** The stride of one row in the string data, when the source reads forbid
      bytes from it, or 0 when every flag stays ' ': the data must be non-empty,
      hold at least one byte per line, and `len // nlines` must be at least 191.
      Every line's forbid byte then lies inside the data. */
  function ForbidStride(q: QueryResult): (stride: nat)
    requires q.Valid() && q.nlines > 0
    ensures stride == 0 || (stride >= MinStride && ForbidIndex(q.nlines - 1, stride) < |q.stringData|)
  {
    var sd := q.stringData;
    if |sd| > 0 && |sd| >= q.nlines && Quotient(|sd|, q.nlines) >= MinStride then
      StrideFits(|sd|, q.nlines);
      Quotient(|sd|, q.nlines)
    else 0
  }

  lemma StrideFits(len: nat, n: nat)
    requires n > 0 && Quotient(len, n) >= MinStride
    ensures ForbidIndex(n - 1, Quotient(len, n)) < len
  {
    var stride := Quotient(len, n);
    QuotientIsFloorDivision(len, n);
    ForbidIndexValue(n - 1, stride);
    assert (n - 1) * stride + stride == n * stride;
  }

  /** The row of line `i` of a query result. */
  function RowOf(q: QueryResult, i: nat, source: int, ranks: Ranks, mergeable: bool,
                 isReplacement: bool, forbid: Byte): Line
    requires q.Valid() && i < q.nlines
  {
    Line(q.wavelength[i], q.species[i], q.loggf[i], q.eLower[i], q.eUpper[i],
         q.jLower[i], q.jUpper[i], q.landeLower[i], q.landeUpper[i],
         q.gammaRad[i], q.gammaStark[i], q.gammaVdw[i],
         source, ranks, mergeable, isReplacement, forbid)
  }

  /** The forbid byte of line `i`: the byte at offset 190 of its own stride of
      the string data when that data holds at least one byte per line and the
      stride is at least 191 bytes; otherwise ' '. */
  function ForbidByte(q: QueryResult, i: nat): Byte
    requires q.Valid() && i < q.nlines
  {
    var stride := ForbidStride(q);
    if stride == 0 then Space
    else
      ForbidIndexMonotone(i, q.nlines - 1, stride);
      q.stringData[ForbidIndex(i, stride)]
  }

  /** The rows `from_query_result` builds. */
  function QueryRows(q: QueryResult, source: int, ranks: Ranks, mergeable: bool, isReplacement: bool): (r: Lines)
    requires q.Valid()
    ensures |r| == q.nlines
    ensures forall x :: x in r ==>
      x.source == source && x.ranks == ranks && x.mergeable == mergeable && x.isReplacement == isReplacement
  {
    seq(q.nlines, i requires 0 <= i < q.nlines => RowOf(q, i, source, ranks, mergeable, isReplacement, ForbidByte(q, i)))
  }

  /** `LineData.from_query_result`: one row per line, every row tagged with the
      same source, ranks (all 3 when none are given) and flags, and carrying
      the forbid byte of its own stride of the string data, or ' ' when the
      string data is too short to have one. */
  method FromQueryResult(q: QueryResult, source: int, ranks: Option<Ranks>, mergeable: bool,
                         isReplacement: bool) returns (r: Lines)
    requires q.Valid()
    ensures r == QueryRows(q, source, if ranks.Some? then ranks.value else DefaultRanks, mergeable, isReplacement)
  {
    if q.nlines == 0 {
      return [];
    }
    var n := q.nlines;
    var rk := if ranks.Some? then ranks.value else DefaultRanks;
    var forbid := new Byte[n](_ => Space);
    var stride := ForbidStride(q);
    if stride != 0 {
      var i := 0;
      while i < n
        invariant 0 <= i <= n
        invariant forall j :: 0 <= j < i ==> forbid[j] == ForbidByte(q, j)
      {
        ForbidIndexValue(i, stride);
        ForbidIndexMonotone(i, n - 1, stride);
        forbid[i] := q.stringData[i * stride + ForbidOffset];
        i := i + 1;
      }
    }
    assert forall j :: 0 <= j < n ==> forbid[j] == ForbidByte(q, j);
    r := seq(n, i requires 0 <= i < n reads forbid => RowOf(q, i, source, rk, mergeable, isReplacement, forbid[i]));
  }

  /** Row order is kept by every mask filter. */
  predicate SortedByWavelength(rows: Lines)
  {
    forall a, b :: 0 <= a < b < |rows| ==> rows[a].wavelength <= rows[b].wavelength
  }

  /** `_apply_mask` (every column indexed by the same boolean mask): the rows
      at the mask's true positions, once each and in their original order;
      hence exactly the masked rows, and sorted input stays sorted. */
  function ApplyMask(rows: Lines, mask: seq<bool>): (r: Lines)
    requires |mask| == |rows|
    ensures Selects(r, rows, mask)
    ensures |r| <= |rows|
    ensures forall x :: x in r ==> exists j :: 0 <= j < |rows| && mask[j] && rows[j] == x
    ensures forall j :: 0 <= j < |rows| && mask[j] ==> rows[j] in r
    ensures SortedByWavelength(rows) ==> SortedByWavelength(r)
  {
    var r := Select(rows, mask);
    SelectionSorted(rows, mask, r);
    r
  }

  /** A selection of sorted rows is sorted. */
  lemma SelectionSorted(rows: Lines, mask: seq<bool>, r: Lines)
    requires |mask| == |rows| && Selects(r, rows, mask)
    ensures SortedByWavelength(rows) ==> SortedByWavelength(r)
  {
    var idx := TruePositions(mask);
    if SortedByWavelength(rows) {
      forall a, b | 0 <= a < b < |r| ensures r[a].wavelength <= r[b].wavelength {
        assert idx[a] < idx[b];
      }
    }
  }

  /** The mask of `filter_by_species`. */
  function SpeciesMask(rows: Lines, codes: seq<int>): (m: seq<bool>)
    ensures |m| == |rows| && forall j :: 0 <= j < |rows| ==> m[j] == (rows[j].species in codes)
  {
    seq(|rows|, j requires 0 <= j < |rows| => rows[j].species in codes)
  }

  /** The mask of `filter_by_wavelength`. */
  function WavelengthMask(rows: Lines, lo: real, hi: real): (m: seq<bool>)
    ensures |m| == |rows| && forall j :: 0 <= j < |rows| ==> m[j] == (lo <= rows[j].wavelength <= hi)
  {
    seq(|rows|, j requires 0 <= j < |rows| => lo <= rows[j].wavelength <= hi)
  }

  /** `filter_by_species`: an empty code list returns the rows unchanged;
      otherwise the rows whose species is one of the codes, once each and in
      their original order. */
  function FilterBySpecies(rows: Lines, codes: seq<int>): (r: Lines)
    ensures codes == [] ==> r == rows
    ensures codes != [] ==> Selects(r, rows, SpeciesMask(rows, codes))
    ensures codes != [] ==> forall x :: x in r ==> x in rows && x.species in codes
    ensures forall j :: 0 <= j < |rows| && rows[j].species in codes ==> rows[j] in r
    ensures SortedByWavelength(rows) ==> SortedByWavelength(r)
  {
    if codes == [] then rows
    else ApplyMask(rows, SpeciesMask(rows, codes))
  }

  /** `filter_by_wavelength`: the rows with `lo <= wavelength <= hi`, once each
      and in their original order. */
  function FilterByWavelength(rows: Lines, lo: real, hi: real): (r: Lines)
    ensures Selects(r, rows, WavelengthMask(rows, lo, hi))
    ensures forall x :: x in r ==> x in rows && lo <= x.wavelength <= hi
    ensures forall j :: 0 <= j < |rows| && lo <= rows[j].wavelength <= hi ==> rows[j] in r
    ensures SortedByWavelength(rows) ==> SortedByWavelength(r)
  {
    ApplyMask(rows, WavelengthMask(rows, lo, hi))
  }

  /** A mask that keeps the first `m` rows keeps exactly that prefix. */
  lemma ApplyMaskPrefix(rows: Lines, mask: seq<bool>, m: nat)
    requires |mask| == |rows| && m <= |rows|
    requires forall j :: 0 <= j < |rows| ==> mask[j] == (j < m)
    ensures ApplyMask(rows, mask) == rows[..m]
  {
    var r := Range(m);
    forall j | 0 <= j < |mask| && mask[j] ensures j in r {
      assert r[j] == j;
    }
    TruePositionsUnique(mask, r);
  }

  /** The cut `extract_lines` applies: rows beyond the first `maxLines` are
      dropped (all of them when `maxLines` is negative). */
  function Truncate(rows: Lines, maxLines: int): (r: Lines)
    ensures |rows| <= maxLines ==> r == rows
    ensures |rows| > maxLines ==> r == rows[..if maxLines < 0 then 0 else maxLines]
  {
    if |rows| > maxLines then
      var m: nat := if maxLines < 0 then 0 else maxLines;
      var mask := seq(|rows|, j requires 0 <= j < |rows| => j < maxLines);
      ApplyMaskPrefix(rows, mask, m);
      ApplyMask(rows, mask)
    else rows
  }

  /** The cut keeps only rows it was given, and at most `maxLines` of them. */
  lemma TruncateKeeps(rows: Lines, maxLines: int)
    ensures |Truncate(rows, maxLines)| <= if maxLines < 0 then 0 else maxLines
    ensures forall x :: x in Truncate(rows, maxLines) ==> x in rows
  {
  }
}
