/** The multi-source merge of vald/extraction.py: the tolerance window, the
    equivalence test, the rank-based resolution of one pair, and the sweep
    `_merge_lines_full`. The sweep is specified by the recursive functions
    `Scan` (the inner `while k < n` loop for one outer row) and `Sweep` (the
    outer loop); `MergeLinesFull` runs it over arrays and is proved to compute
    exactly what they define. */
module Merge {
  import opened Wrappers
  import opened LineData
  import opened Masks

  const DefaultWlWindowRef: real := 0.05
  const DefaultWlRef: real := 5000.0
  const RelEnergyTolerance: real := 0.001
  /** Fe I, the one species exempt from the J test. */
  const FeI: int := 326
  /** Species codes from here on denote molecules, which have no forbid gate. */
  const FirstMolecule: int := 10000
  /** "Unknown" sentinels of the Landé factor and of the damping constants. */
  const LandeUnknown: real := 99.0
  const GammaUnknown: real := 0.0

  function Abs(x: real): real { if x < 0.0 then -x else x }
  function Max(a: real, b: real): real { if a >= b then a else b }
  function Min(a: real, b: real): real { if a <= b then a else b }

  // ---------------------------------------------------------------------------
  // The tolerance window

  /** `_compute_wl_window`: `ref * wl / wlRef` clamped to `[0.01 ref, 100 ref]`. */
  function ComputeWlWindow(wl: real, ref: real, wlRef: real): (r: real)
    requires wlRef != 0.0
    ensures ref >= 0.0 ==> ref * 0.01 <= r <= ref * 100.0
    ensures ref >= 0.0 ==>
      (ref * 0.01 <= ref * wl / wlRef <= ref * 100.0 ==> r == ref * wl / wlRef)
      && (ref * wl / wlRef < ref * 0.01 ==> r == ref * 0.01)
      && (ref * wl / wlRef > ref * 100.0 ==> r == ref * 100.0)
    ensures ref < 0.0 ==> r == ref * 100.0
  {
    Min(Max(ref * wl / wlRef, ref * 0.01), ref * 100.0)
  }

  /** At the reference wavelength the window is the reference window itself. */
  lemma {:induction false} WindowAtReference(ref: real, wlRef: real)
    requires wlRef != 0.0 && ref >= 0.0
    ensures ComputeWlWindow(wlRef, ref, wlRef) == ref
  {
    assert ref * wlRef / wlRef == ref;
  }

  /** For positive references the window never shrinks as the wavelength grows. */
  lemma {:induction false} WindowMonotone(wl1: real, wl2: real, ref: real, wlRef: real)
    requires wlRef > 0.0 && ref >= 0.0 && wl1 <= wl2
    ensures ComputeWlWindow(wl1, ref, wlRef) <= ComputeWlWindow(wl2, ref, wlRef)
  {
    MulMonotone(wl1, wl2, ref);
    assert ref * wl1 <= ref * wl2 && wlRef > 0.0;
    DivMonotone(ref * wl1, ref * wl2, wlRef);
  }

  lemma MulMonotone(a: real, b: real, c: real)
    requires a <= b && c >= 0.0
    ensures c * a <= c * b
  {
    assert c * b - c * a == c * (b - a);
  }

  lemma DivMonotone(a: real, b: real, c: real)
    requires a <= b && c > 0.0
    ensures a / c <= b / c
  {
    assert b / c - a / c == (b - a) / c;
  }

  /** The four window values the test suite checks (5000, 10000, 10 and 10^6 Å). */
  lemma WindowExamples()
    ensures ComputeWlWindow(5000.0, 0.05, 5000.0) == 0.05
    ensures ComputeWlWindow(10000.0, 0.05, 5000.0) == 0.1
    ensures ComputeWlWindow(10.0, 0.05, 5000.0) == 0.0005
    ensures ComputeWlWindow(1000000.0, 0.05, 5000.0) == 5.0
  {
  }

  // ---------------------------------------------------------------------------
  // Equivalence of two lines

  /** `_lines_are_equivalent`: same species, different source lists, within the
      window, the same J pair unless the species is Fe I, and, when the first
      line's upper energy is positive, the second within 0.1 % of it. */
  function LinesAreEquivalent(
    wlI: real, speciesI: int, jLowI: real, jHighI: real, eHighI: real, sourceI: int,
    wlK: real, speciesK: int, jLowK: real, jHighK: real, eHighK: real, sourceK: int,
    window: real): (r: bool)
    ensures r <==>
      speciesI == speciesK && sourceI != sourceK && Abs(wlK - wlI) <= window
      && (speciesI == FeI || (jLowI == jLowK && jHighI == jHighK))
      && (eHighI > 0.0 ==> Abs(eHighK - eHighI) <= RelEnergyTolerance * eHighI)
  {
    if speciesI != speciesK then false
    else if sourceI == sourceK then false
    else if Abs(wlK - wlI) > window then false
    else if speciesI != FeI && (jLowI != jLowK || jHighI != jHighK) then false
    else if eHighI > 0.0 && Abs(eHighK - eHighI) > RelEnergyTolerance * eHighI then false
    else true
  }

  /** The seven cases of the test suite. */
  lemma EquivalenceExamples()
    ensures LinesAreEquivalent(5000.0, 326, 0.5, 1.5, 2.5, 0, 5000.01, 326, 0.5, 1.5, 2.5, 1, 0.05)
    ensures !LinesAreEquivalent(5000.0, 326, 0.5, 1.5, 2.5, 0, 5000.01, 327, 0.5, 1.5, 2.5, 1, 0.05)
    ensures !LinesAreEquivalent(5000.0, 326, 0.5, 1.5, 2.5, 0, 5000.01, 326, 0.5, 1.5, 2.5, 0, 0.05)
    ensures !LinesAreEquivalent(5000.0, 191, 0.5, 1.5, 2.5, 0, 5000.01, 191, 1.5, 1.5, 2.5, 1, 0.05)
    ensures LinesAreEquivalent(5000.0, 326, 0.5, 1.5, 2.5, 0, 5000.01, 326, 1.5, 2.5, 2.5, 1, 0.05)
    ensures !LinesAreEquivalent(5000.0, 326, 0.5, 1.5, 2.5, 0, 5000.10, 326, 0.5, 1.5, 2.5, 1, 0.05)
    ensures !LinesAreEquivalent(5000.0, 326, 0.5, 1.5, 2.5, 0, 5000.01, 326, 0.5, 1.5, 3.0, 1, 0.05)
  {
  }

  /** The energy test is relative to the first line only, so the relation is not
      symmetric: a first line with upper energy 0 ignores the second's. */
  lemma EquivalenceNotSymmetric()
    ensures LinesAreEquivalent(5000.0, 191, 0.5, 1.5, 0.0, 0, 5000.0, 191, 0.5, 1.5, 5.0, 1, 0.05)
    ensures !LinesAreEquivalent(5000.0, 191, 0.5, 1.5, 5.0, 1, 5000.0, 191, 0.5, 1.5, 0.0, 0, 0.05)
  {
  }

  /** The equivalence test applied to two rows. */
  predicate RowsEquivalent(a: Line, b: Line, window: real)
  {
    LinesAreEquivalent(a.wavelength, a.species, a.jLower, a.jUpper, a.eUpper, a.source,
                       b.wavelength, b.species, b.jLower, b.jUpper, b.eUpper, b.source, window)
  }

  /** The forbid gate for atoms: equal flags, or exactly one 'A' and one ' '. */
  predicate ForbidCompatible(fi: Byte, fk: Byte)
  {
    fi == fk || (fi == Auto && fk == Space) || (fi == Space && fk == Auto)
  }

  // ---------------------------------------------------------------------------
  // Resolution of one merged pair

  /** Whether a merge copies the secondary's Landé pair (rank 4) or gamma
      (rank 5..7): on a strictly higher rank, or when the primary holds the
      sentinel and the secondary does not. */
  predicate TakesSentinelField(rankP: int, rankS: int, valueP: real, valueS: real, unknown: real)
  {
    rankS > rankP || (valueP == unknown && valueS != unknown)
  }

  /** The fields a merge never writes: identity, J, position, flags, the
      wavelength and term ranks. */
  predicate SameIdentity(a: Line, b: Line)
  {
    a.wavelength == b.wavelength && a.species == b.species && a.jLower == b.jLower
    && a.jUpper == b.jUpper && a.source == b.source && a.mergeable == b.mergeable
    && a.isReplacement == b.isReplacement && a.forbid == b.forbid
    && a.ranks[0] == b.ranks[0] && a.ranks[8] == b.ranks[8]
  }

  /** `_merge_parameters`: the primary row after the secondary is merged into it.
      loggf and the two energies are taken from the secondary, with its rank,
      only on a strictly higher rank, so their rank becomes the larger of the
      two. The Landé pair (sentinel 99 on the lower factor) and each gamma
      (sentinel 0) are also taken when the primary holds the sentinel and the
      secondary does not, with the secondary's rank even when it is lower.
      Nothing else changes. */
  function MergeParameters(p: Line, s: Line): (r: Line)
    ensures SameIdentity(r, p)
    ensures r.loggf == (if s.ranks[1] > p.ranks[1] then s.loggf else p.loggf)
    ensures r.eLower == (if s.ranks[2] > p.ranks[2] then s.eLower else p.eLower)
    ensures r.eUpper == (if s.ranks[3] > p.ranks[3] then s.eUpper else p.eUpper)
    ensures forall n :: 1 <= n <= 3 ==> r.ranks[n] == if s.ranks[n] > p.ranks[n] then s.ranks[n] else p.ranks[n]
  {
    var loggf := Strict(p.loggf, s.loggf, p.ranks[1], s.ranks[1]);
    var eLower := Strict(p.eLower, s.eLower, p.ranks[2], s.ranks[2]);
    var eUpper := Strict(p.eUpper, s.eUpper, p.ranks[3], s.ranks[3]);
    var lande := TakesSentinelField(p.ranks[4], s.ranks[4], p.landeLower, s.landeLower, LandeUnknown);
    var rad := Sentinel(p.gammaRad, s.gammaRad, p.ranks[5], s.ranks[5], GammaUnknown);
    var stark := Sentinel(p.gammaStark, s.gammaStark, p.ranks[6], s.ranks[6], GammaUnknown);
    var vdw := Sentinel(p.gammaVdw, s.gammaVdw, p.ranks[7], s.ranks[7], GammaUnknown);
    var rk: Ranks := [p.ranks[0], loggf.1, eLower.1, eUpper.1,
                      if lande then s.ranks[4] else p.ranks[4], rad.1, stark.1, vdw.1, p.ranks[8]];
    p.(loggf := loggf.0, eLower := eLower.0, eUpper := eUpper.0,
       landeLower := if lande then s.landeLower else p.landeLower,
       landeUpper := if lande then s.landeUpper else p.landeUpper,
       gammaRad := rad.0, gammaStark := stark.0, gammaVdw := vdw.0, ranks := rk)
  }

  /** A field resolved by rank alone: the secondary's value and rank on a
      strictly higher rank. */
  function Strict(vP: real, vS: real, rP: int, rS: int): (real, int)
  {
    if rS > rP then (vS, rS) else (vP, rP)
  }

  /** A field with an "unknown" sentinel. */
  function Sentinel(vP: real, vS: real, rP: int, rS: int, unknown: real): (real, int)
  {
    if rS > rP then (vS, rS)
    else if vP == unknown && vS != unknown then (vS, rS)
    else (vP, rP)
  }

  /** The Landé pair and the three gammas of a merge: each comes from the
      secondary, with its rank, on a strictly higher rank or when the
      primary holds the sentinel and the secondary does not. */
  lemma MergeParametersSentinels(p: Line, s: Line)
    ensures var r := MergeParameters(p, s);
            && (TakesSentinelField(p.ranks[4], s.ranks[4], p.landeLower, s.landeLower, LandeUnknown)
                ==> r.landeLower == s.landeLower && r.landeUpper == s.landeUpper && r.ranks[4] == s.ranks[4])
            && (!TakesSentinelField(p.ranks[4], s.ranks[4], p.landeLower, s.landeLower, LandeUnknown)
                ==> r.landeLower == p.landeLower && r.landeUpper == p.landeUpper && r.ranks[4] == p.ranks[4])
    ensures var r := MergeParameters(p, s);
            var rad := TakesSentinelField(p.ranks[5], s.ranks[5], p.gammaRad, s.gammaRad, GammaUnknown);
            r.gammaRad == (if rad then s.gammaRad else p.gammaRad) && r.ranks[5] == (if rad then s.ranks[5] else p.ranks[5])
    ensures var r := MergeParameters(p, s);
            var stark := TakesSentinelField(p.ranks[6], s.ranks[6], p.gammaStark, s.gammaStark, GammaUnknown);
            r.gammaStark == (if stark then s.gammaStark else p.gammaStark) && r.ranks[6] == (if stark then s.ranks[6] else p.ranks[6])
    ensures var r := MergeParameters(p, s);
            var vdw := TakesSentinelField(p.ranks[7], s.ranks[7], p.gammaVdw, s.gammaVdw, GammaUnknown);
            r.gammaVdw == (if vdw then s.gammaVdw else p.gammaVdw) && r.ranks[7] == (if vdw then s.ranks[7] else p.ranks[7])
  {
  }

  /** Merging the same secondary twice changes nothing the first merge did not. */
  lemma {:induction false} MergeParametersIdempotent(p: Line, s: Line)
    ensures MergeParameters(MergeParameters(p, s), s) == MergeParameters(p, s)
  {
    var once := MergeParameters(p, s);
    var twice := MergeParameters(once, s);
    assert twice.ranks == once.ranks by {
      forall n | 0 <= n < 9 ensures twice.ranks[n] == once.ranks[n] {
      }
    }
  }

  /** With equal energy ranks on both rows the energies are never overwritten. */
  lemma MergeKeepsEnergiesOnEqualRanks(p: Line, s: Line)
    requires p.ranks[2] == s.ranks[2] && p.ranks[3] == s.ranks[3]
    ensures MergeParameters(p, s).eLower == p.eLower && MergeParameters(p, s).eUpper == p.eUpper
  {
  }

  // ---------------------------------------------------------------------------
  // The sweep, as a specification

  /** The merge settings: the replacement window of each source list (by its
      position among the enabled lists), the default window, the reference
      wavelength. */
  datatype MergeConfig = MergeConfig(windows: seq<real>, wlWindowRef: real, wlRef: real)

  /** `replacement_windows.get(source, wl_window_ref)`. */
  function SourceWindow(cfg: MergeConfig, source: int): real
  {
    if 0 <= source < |cfg.windows| then cfg.windows[source] else cfg.wlWindowRef
  }

  /** The window for candidate `b` against outer row `a`: the two sources'
      windows are combined first, then scaled at `a`'s wavelength. */
  function PairWindow(cfg: MergeConfig, a: Line, b: Line): real
    requires cfg.wlRef != 0.0
  {
    ComputeWlWindow(a.wavelength, Max(SourceWindow(cfg, a.source), SourceWindow(cfg, b.source)), cfg.wlRef)
  }

  /** The sweep's state: the (sorted) rows and the `used` marks. */
  datatype State = State(rows: Lines, used: seq<bool>)
  {
    predicate Wf() { |rows| == |used| }
  }

  /** Merge row `s` into row `p` and mark `s` consumed. */
  function Absorb(st: State, p: nat, s: nat): (r: State)
    requires st.Wf() && p < |st.rows| && s < |st.rows|
    ensures r.Wf() && |r.rows| == |st.rows|
  {
    State(st.rows[p := MergeParameters(st.rows[p], st.rows[s])], st.used[s := true])
  }

  /** The inner loop for outer row `i`, from candidate `k` on. */
  function Scan(cfg: MergeConfig, st: State, i: nat, k: nat): (r: State)
    requires cfg.wlRef != 0.0 && st.Wf() && i < k <= |st.rows|
    ensures r.Wf() && |r.rows| == |st.rows|
    decreases |st.rows| - k
  {
    if k == |st.rows| then st
    else
      var a, b := st.rows[i], st.rows[k];
      var window := PairWindow(cfg, a, b);
      if b.wavelength - a.wavelength > window then st
      else if st.used[k] || !b.mergeable then Scan(cfg, st, i, k + 1)
      else if a.species < FirstMolecule && !ForbidCompatible(a.forbid, b.forbid) then Scan(cfg, st, i, k + 1)
      else if !RowsEquivalent(a, b, window) then Scan(cfg, st, i, k + 1)
      else if a.ranks[0] >= b.ranks[0] then Scan(cfg, Absorb(st, i, k), i, k + 1)
      else Absorb(st, k, i)
  }

  /** The outer loop, from row `i` on. */
  function Sweep(cfg: MergeConfig, st: State, i: nat): (r: State)
    requires cfg.wlRef != 0.0 && st.Wf() && i <= |st.rows|
    ensures r.Wf() && |r.rows| == |st.rows|
    decreases |st.rows| - i
  {
    if i == |st.rows| then st
    else if st.used[i] || !st.rows[i].mergeable then Sweep(cfg, st, i + 1)
    else Sweep(cfg, Scan(cfg, st, i, i + 1), i + 1)
  }

  function Fresh(rows: Lines): (st: State)
    ensures st.Wf() && st.rows == rows && forall j :: 0 <= j < |rows| ==> !st.used[j]
  {
    State(rows, seq(|rows|, _ => false))
  }

  /** The keep mask `~used & ~is_replacement_list`. */
  function KeepMask(st: State): (m: seq<bool>)
    requires st.Wf()
    ensures |m| == |st.rows|
    ensures forall j :: 0 <= j < |st.rows| ==> m[j] == (!st.used[j] && !st.rows[j].isReplacement)
  {
    seq(|st.rows|, j requires 0 <= j < |st.rows| => !st.used[j] && !st.rows[j].isReplacement)
  }

  /** The rows kept: those neither consumed nor from a replacement list, once
      each and in their order. */
  function Keep(st: State): (r: Lines)
    requires st.Wf()
    ensures Selects(r, st.rows, KeepMask(st))
    ensures forall x :: x in r ==> exists j :: 0 <= j < |st.rows| && !st.used[j] && !st.rows[j].isReplacement && st.rows[j] == x
    ensures forall j :: 0 <= j < |st.rows| && !st.used[j] && !st.rows[j].isReplacement ==> st.rows[j] in r
    ensures |r| <= |st.rows|
    ensures SortedByWavelength(st.rows) ==> SortedByWavelength(r)
  {
    ApplyMask(st.rows, KeepMask(st))
  }

  /** The merge of rows already sorted by wavelength. */
  function MergeSorted(cfg: MergeConfig, rows: Lines): Lines
    requires cfg.wlRef != 0.0
  {
    Keep(Sweep(cfg, Fresh(rows), 0))
  }

  // ---------------------------------------------------------------------------
  // What the sweep preserves

  /** Row `p` absorbed row `j`: both mergeable, the same species, different
      source lists, the same J pair unless the species is Fe I, compatible
      forbid flags for an atom, `p` at least as well ranked in wavelength, and
      the two within the window of their pair (the earlier row being the outer
      one). The energy test is not carried over: a later merge may rewrite the
      energies it read. */
  predicate Absorber(cfg: MergeConfig, rows: Lines, p: int, j: int)
    requires cfg.wlRef != 0.0
  {
    0 <= p < |rows| && 0 <= j < |rows| && p != j
    && rows[p].mergeable && rows[j].mergeable
    && rows[p].species == rows[j].species && rows[p].source != rows[j].source
    && (rows[p].species == FeI || (rows[p].jLower == rows[j].jLower && rows[p].jUpper == rows[j].jUpper))
    && (rows[p].species < FirstMolecule ==> ForbidCompatible(rows[p].forbid, rows[j].forbid))
    && rows[p].ranks[0] >= rows[j].ranks[0]
    && var lo, hi := if p < j then p else j, if p < j then j else p;
       Abs(rows[p].wavelength - rows[j].wavelength) <= PairWindow(cfg, rows[lo], rows[hi])
  }

  /** Every row has the same two energy ranks. */
  predicate EnergyRanksUniform(rows: Lines)
  {
    forall a, b :: 0 <= a < |rows| && 0 <= b < |rows| ==>
      rows[a].ranks[2] == rows[b].ranks[2] && rows[a].ranks[3] == rows[b].ranks[3]
  }

  /** Ranks of loggf and of the energies never decrease. */
  predicate RanksKept(a: Line, b: Line)
  {
    b.ranks[1] >= a.ranks[1] && b.ranks[2] >= a.ranks[2] && b.ranks[3] >= a.ranks[3]
  }

  predicate EnergiesKept(a: Line, b: Line)
  {
    b.eLower == a.eLower && b.eUpper == a.eUpper && b.ranks[2] == a.ranks[2] && b.ranks[3] == a.ranks[3]
  }

  /** What becomes of row `j` between a sweep state and a later one: its
      identity is kept and its ranks never drop; a consumed row stays consumed;
      a standalone row is never touched; with uniform energy ranks its energies
      are kept; and a row consumed in between has an absorber. */
  ghost predicate RowPreserved(cfg: MergeConfig, a: State, b: State, j: int)
    requires cfg.wlRef != 0.0 && a.Wf() && b.Wf() && |b.rows| == |a.rows| && 0 <= j < |a.rows|
  {
    SameIdentity(b.rows[j], a.rows[j]) && RanksKept(a.rows[j], b.rows[j])
    && (a.used[j] ==> b.used[j])
    && (!a.rows[j].mergeable ==> b.rows[j] == a.rows[j] && b.used[j] == a.used[j])
    && (EnergyRanksUniform(a.rows) ==> EnergiesKept(a.rows[j], b.rows[j]))
    && (b.used[j] && !a.used[j] ==> exists p :: Absorber(cfg, b.rows, p, j))
  }

  /** The relation between a sweep state and every later one. */
  ghost predicate Preserved(cfg: MergeConfig, a: State, b: State)
    requires cfg.wlRef != 0.0
  {
    a.Wf() && b.Wf() && |b.rows| == |a.rows|
    && forall j :: 0 <= j < |a.rows| ==> RowPreserved(cfg, a, b, j)
  }

  lemma {:induction false} PreservedRefl(cfg: MergeConfig, a: State)
    requires cfg.wlRef != 0.0 && a.Wf()
    ensures Preserved(cfg, a, a)
  {
  }

  /** A preserved state keeps every row's identity. */
  lemma {:induction false} PreservedIdentities(cfg: MergeConfig, a: State, b: State)
    requires cfg.wlRef != 0.0 && Preserved(cfg, a, b)
    ensures forall x :: 0 <= x < |a.rows| ==> SameIdentity(b.rows[x], a.rows[x])
  {
    forall x | 0 <= x < |a.rows| ensures SameIdentity(b.rows[x], a.rows[x]) {
      assert RowPreserved(cfg, a, b, x);
    }
  }

  /** `Absorber` mentions only fields a merge never writes. */
  lemma {:induction false} AbsorberStable(cfg: MergeConfig, b: Lines, c: Lines, p: int, j: int)
    requires cfg.wlRef != 0.0 && |b| == |c| && Absorber(cfg, b, p, j)
    requires forall x :: 0 <= x < |b| ==> SameIdentity(c[x], b[x])
    ensures Absorber(cfg, c, p, j)
  {
    var lo, hi := if p < j then p else j, if p < j then j else p;
    assert SameIdentity(c[lo], b[lo]) && SameIdentity(c[hi], b[hi]);
    assert PairWindow(cfg, c[lo], c[hi]) == PairWindow(cfg, b[lo], b[hi]);
  }

  lemma {:induction false} PreservedTrans(cfg: MergeConfig, a: State, b: State, c: State)
    requires cfg.wlRef != 0.0 && Preserved(cfg, a, b) && Preserved(cfg, b, c)
    ensures Preserved(cfg, a, c)
  {
    if EnergyRanksUniform(a.rows) {
      assert EnergyRanksUniform(b.rows) by {
        forall x, y | 0 <= x < |b.rows| && 0 <= y < |b.rows|
          ensures b.rows[x].ranks[2] == b.rows[y].ranks[2] && b.rows[x].ranks[3] == b.rows[y].ranks[3]
        {
          assert RowPreserved(cfg, a, b, x) && RowPreserved(cfg, a, b, y);
        }
      }
    }
    PreservedIdentities(cfg, b, c);
    forall j | 0 <= j < |a.rows| ensures RowPreserved(cfg, a, c, j) {
      assert RowPreserved(cfg, a, b, j) && RowPreserved(cfg, b, c, j);
      if c.used[j] && !a.used[j] && b.used[j] {
        var p :| Absorber(cfg, b.rows, p, j);
        AbsorberStable(cfg, b.rows, c.rows, p, j);
      }
    }
  }

  /** One merge step preserves everything: `s` is absorbed by `p`. */
  lemma {:induction false} AbsorbPreserved(cfg: MergeConfig, st: State, p: nat, s: nat)
    requires cfg.wlRef != 0.0 && st.Wf() && p < |st.rows| && s < |st.rows|
    requires Absorber(cfg, st.rows, p, s)
    ensures Preserved(cfg, st, Absorb(st, p, s))
  {
    var r := Absorb(st, p, s);
    forall x | 0 <= x < |st.rows| ensures SameIdentity(r.rows[x], st.rows[x]) {
    }
    AbsorberStable(cfg, st.rows, r.rows, p, s);
    if EnergyRanksUniform(st.rows) {
      assert st.rows[p].ranks[2] == st.rows[s].ranks[2] && st.rows[p].ranks[3] == st.rows[s].ranks[3];
    }
    forall x | 0 <= x < |st.rows| ensures RowPreserved(cfg, st, r, x) {
    }
  }

  /** The conditions under which `Scan` merges make the pair an absorber pair. */
  lemma {:induction false} MergedPairIsAbsorber(cfg: MergeConfig, st: State, i: nat, k: nat, p: nat, s: nat)
    requires cfg.wlRef != 0.0 && st.Wf() && i < k < |st.rows|
    requires st.rows[i].mergeable && st.rows[k].mergeable
    requires st.rows[i].species < FirstMolecule ==> ForbidCompatible(st.rows[i].forbid, st.rows[k].forbid)
    requires RowsEquivalent(st.rows[i], st.rows[k], PairWindow(cfg, st.rows[i], st.rows[k]))
    requires (p == i && s == k && st.rows[i].ranks[0] >= st.rows[k].ranks[0])
          || (p == k && s == i && st.rows[i].ranks[0] < st.rows[k].ranks[0])
    ensures Absorber(cfg, st.rows, p, s)
  {
  }

  lemma {:induction false} ScanPreserved(cfg: MergeConfig, st: State, i: nat, k: nat)
    requires cfg.wlRef != 0.0 && st.Wf() && i < k <= |st.rows| && st.rows[i].mergeable
    ensures Preserved(cfg, st, Scan(cfg, st, i, k))
    decreases |st.rows| - k
  {
    var r := Scan(cfg, st, i, k);
    if k == |st.rows| {
      assert r == st;
      PreservedRefl(cfg, st);
    } else {
      var a, b := st.rows[i], st.rows[k];
      var window := PairWindow(cfg, a, b);
      if b.wavelength - a.wavelength > window {
        assert r == st;
        PreservedRefl(cfg, st);
      } else if st.used[k] || !b.mergeable
             || (a.species < FirstMolecule && !ForbidCompatible(a.forbid, b.forbid))
             || !RowsEquivalent(a, b, window) {
        assert r == Scan(cfg, st, i, k + 1);
        ScanPreserved(cfg, st, i, k + 1);
      } else if a.ranks[0] >= b.ranks[0] {
        var st' := Absorb(st, i, k);
        assert r == Scan(cfg, st', i, k + 1);
        MergedPairIsAbsorber(cfg, st, i, k, i, k);
        AbsorbPreserved(cfg, st, i, k);
        ScanPreserved(cfg, st', i, k + 1);
        PreservedTrans(cfg, st, st', r);
      } else {
        assert r == Absorb(st, k, i);
        MergedPairIsAbsorber(cfg, st, i, k, k, i);
        AbsorbPreserved(cfg, st, k, i);
      }
    }
  }

  lemma {:induction false} SweepPreserved(cfg: MergeConfig, st: State, i: nat)
    requires cfg.wlRef != 0.0 && st.Wf() && i <= |st.rows|
    ensures Preserved(cfg, st, Sweep(cfg, st, i))
    decreases |st.rows| - i
  {
    if i == |st.rows| {
      PreservedRefl(cfg, st);
    } else if st.used[i] || !st.rows[i].mergeable {
      SweepPreserved(cfg, st, i + 1);
    } else {
      var st' := Scan(cfg, st, i, i + 1);
      ScanPreserved(cfg, st, i, i + 1);
      SweepPreserved(cfg, st', i + 1);
      PreservedTrans(cfg, st, st', Sweep(cfg, st', i + 1));
    }
  }

  /** What the whole sweep guarantees, row by row, for any input order:
      a merge writes only the resolved fields of a primary; standalone rows are
      never consumed or modified; every consumed row was absorbed by a
      mergeable row of the same species from another source list, with the
      same J pair unless the species is Fe I and, for an atom, a compatible
      forbid flag, at least as well ranked in wavelength and within the pair's
      window; and when every
      row carries the same energy ranks (as `extract_lines` gives them) no energy
      is overwritten. */
  lemma SweepGuarantees(cfg: MergeConfig, rows: Lines)
    requires cfg.wlRef != 0.0
    ensures |Sweep(cfg, Fresh(rows), 0).rows| == |rows|
    ensures forall j :: 0 <= j < |rows| ==>
      SameIdentity(Sweep(cfg, Fresh(rows), 0).rows[j], rows[j]) && RanksKept(rows[j], Sweep(cfg, Fresh(rows), 0).rows[j])
    ensures forall j :: 0 <= j < |rows| && !rows[j].mergeable ==>
      Sweep(cfg, Fresh(rows), 0).rows[j] == rows[j] && !Sweep(cfg, Fresh(rows), 0).used[j]
    ensures forall j :: 0 <= j < |rows| && Sweep(cfg, Fresh(rows), 0).used[j] ==>
      exists p :: Absorber(cfg, Sweep(cfg, Fresh(rows), 0).rows, p, j)
    ensures EnergyRanksUniform(rows) ==>
      forall j :: 0 <= j < |rows| ==> EnergiesKept(rows[j], Sweep(cfg, Fresh(rows), 0).rows[j])
  {
    var st := Fresh(rows);
    var fin := Sweep(cfg, st, 0);
    SweepPreserved(cfg, st, 0);
    forall j | 0 <= j < |rows|
      ensures SameIdentity(fin.rows[j], rows[j]) && RanksKept(rows[j], fin.rows[j])
      ensures !rows[j].mergeable ==> fin.rows[j] == rows[j] && !fin.used[j]
      ensures fin.used[j] ==> exists p :: Absorber(cfg, fin.rows, p, j)
      ensures EnergyRanksUniform(rows) ==> EnergiesKept(rows[j], fin.rows[j])
    {
      assert RowPreserved(cfg, st, fin, j);
    }
  }

  /** The output of a merge: at most as many rows as the input; each is a row of
      the final sweep state that is neither consumed nor from a replacement
      list, and every such row is output; it is sorted when the input is; and a
      standalone row that is not from a replacement list is output unchanged. */
  lemma MergeSortedOutput(cfg: MergeConfig, rows: Lines)
    requires cfg.wlRef != 0.0
    ensures |MergeSorted(cfg, rows)| <= |rows|
    ensures SortedByWavelength(rows) ==> SortedByWavelength(MergeSorted(cfg, rows))
    ensures forall j :: 0 <= j < |rows| && !rows[j].mergeable && !rows[j].isReplacement ==> rows[j] in MergeSorted(cfg, rows)
    ensures forall x :: x in MergeSorted(cfg, rows) ==> !x.isReplacement
    ensures forall x :: x in MergeSorted(cfg, rows) ==> exists y :: y in rows && SameIdentity(x, y)
  {
    var fin := Sweep(cfg, Fresh(rows), 0);
    SweepGuarantees(cfg, rows);
    if SortedByWavelength(rows) {
      assert SortedByWavelength(fin.rows) by {
        forall a, b | 0 <= a < b < |fin.rows| ensures fin.rows[a].wavelength <= fin.rows[b].wavelength {
          assert SameIdentity(fin.rows[a], rows[a]) && SameIdentity(fin.rows[b], rows[b]);
        }
      }
    }
  }

  // ---------------------------------------------------------------------------
  // Concatenation and the wavelength sort

  /** Where list `a` starts in the concatenation: the total length of the
      lists before it. `Offset(lists, |lists|)` is the total length. */
  function Offset(lists: seq<Lines>, a: nat): nat
    requires a <= |lists|
  {
    if a == 0 then 0 else Offset(lists, a - 1) + |lists[a - 1]|
  }

  /** Row `k` of list `a` is at `Offset(lists, a) + k` in `r`. */
  predicate PlacedAt(r: Lines, lists: seq<Lines>, a: nat, k: nat)
    requires a < |lists| && k < |lists[a]|
  {
    Offset(lists, a) + k < |r| && r[Offset(lists, a) + k] == lists[a][k]
  }

  /** `np.concatenate` of the lists' columns, in list order: as long as all
      lists together, with row `k` of list `a` at `Offset(lists, a) + k`; so a
      row is in it exactly when it is in one of the lists. */
  function Concat(lists: seq<Lines>): (r: Lines)
    ensures |r| == Offset(lists, |lists|)
    ensures forall a, k :: 0 <= a < |lists| && 0 <= k < |lists[a]| ==> PlacedAt(r, lists, a, k)
    ensures forall a, x :: 0 <= a < |lists| && x in lists[a] ==> x in r
    ensures forall x :: x in r ==> exists a :: 0 <= a < |lists| && x in lists[a]
  {
    ConcatFirst(lists, |lists|)
  }

  /** The concatenation of the first `m` lists. */
  function ConcatFirst(lists: seq<Lines>, m: nat): (r: Lines)
    requires m <= |lists|
    ensures |r| == Offset(lists, m)
    ensures forall a, k :: 0 <= a < m && 0 <= k < |lists[a]| ==> PlacedAt(r, lists, a, k)
    ensures forall a, x :: 0 <= a < m && x in lists[a] ==> x in r
    ensures forall x :: x in r ==> exists a :: 0 <= a < m && x in lists[a]
    decreases m
  {
    if m == 0 then []
    else
      var init := ConcatFirst(lists, m - 1);
      var r := init + lists[m - 1];
      ConcatStep(lists, m, init, r);
      r
  }

  /** The facts of `ConcatFirst` for the first `m - 1` lists extend to the
      first `m`. */
  lemma ConcatStep(lists: seq<Lines>, m: nat, init: Lines, r: Lines)
    requires 1 <= m <= |lists| && r == init + lists[m - 1]
    requires |init| == Offset(lists, m - 1)
    requires forall a, k :: 0 <= a < m - 1 && 0 <= k < |lists[a]| ==> PlacedAt(init, lists, a, k)
    requires forall x :: x in init ==> exists a :: 0 <= a < m - 1 && x in lists[a]
    ensures forall a, k :: 0 <= a < m && 0 <= k < |lists[a]| ==> PlacedAt(r, lists, a, k)
    ensures forall a, x :: 0 <= a < m && x in lists[a] ==> x in r
    ensures forall x :: x in r ==> exists a :: 0 <= a < m && x in lists[a]
  {
    forall a, k | 0 <= a < m && 0 <= k < |lists[a]| ensures PlacedAt(r, lists, a, k) {
      if a == m - 1 {
        assert r[|init| + k] == lists[m - 1][k];
      } else {
        assert PlacedAt(init, lists, a, k);
      }
    }
    forall a, x | 0 <= a < m && x in lists[a] ensures x in r {
      var k :| 0 <= k < |lists[a]| && lists[a][k] == x;
      assert PlacedAt(r, lists, a, k);
    }
  }

  function Wavelengths(rows: Lines): (r: seq<real>)
    ensures |r| == |rows| && forall j :: 0 <= j < |rows| ==> r[j] == rows[j].wavelength
  {
    seq(|rows|, j requires 0 <= j < |rows| => rows[j].wavelength)
  }

  /** `order` is what an argsort may return for `keys`: a permutation of the
      indices under which the keys ascend. Nothing is said about the relative
      order of equal keys, since `np.argsort` does not keep it. */
  predicate IsArgSort(order: seq<nat>, keys: seq<real>)
  {
    |order| == |keys|
    && (forall a :: 0 <= a < |order| ==> order[a] < |keys|)
    && (forall a, b :: 0 <= a < b < |order| ==> order[a] != order[b])
    && (forall j :: 0 <= j < |keys| ==> j in order)
    && (forall a, b :: 0 <= a < b < |order| ==> keys[order[a]] <= keys[order[b]])
  }

  /** The rows taken in the order of an index sequence (`column[sort_idx]`). */
  function Permute(rows: Lines, order: seq<nat>): (r: Lines)
    requires forall a :: 0 <= a < |order| ==> order[a] < |rows|
    ensures |r| == |order| && forall a :: 0 <= a < |order| ==> r[a] == rows[order[a]]
  {
    seq(|order|, a requires 0 <= a < |order| => rows[order[a]])
  }

  /** `order` lists every index below `n` exactly once. */
  predicate IsIndexPermutation(order: seq<nat>, n: nat)
  {
    |order| == n
    && (forall a :: 0 <= a < |order| ==> order[a] < n)
    && (forall a, b :: 0 <= a < b < |order| ==> order[a] != order[b])
    && (forall j :: 0 <= j < n ==> j in order)
  }

  /** Removing the position of the largest index from a permutation of the
      indices below `n + 1` leaves a permutation of those below `n`. */
  lemma RemoveLast(order: seq<nat>, n: nat, p: nat)
    requires IsIndexPermutation(order, n + 1) && p < |order| && order[p] == n
    ensures IsIndexPermutation(order[..p] + order[p + 1..], n)
  {
    var o := order[..p] + order[p + 1..];
    assert forall a :: 0 <= a < p ==> o[a] == order[a];
    assert forall a :: p <= a < n ==> o[a] == order[a + 1];
    forall a | 0 <= a < n ensures o[a] < n {
      if a < p { assert order[a] != order[p]; } else { assert order[a + 1] != order[p]; }
    }
    forall a, b | 0 <= a < b < n ensures o[a] != o[b] {
      var a1 := if a < p then a else a + 1;
      var b1 := if b < p then b else b + 1;
      assert o[a] == order[a1] && o[b] == order[b1] && a1 < b1;
    }
    forall j | 0 <= j < n ensures j in o {
      assert j in order;
      var q :| 0 <= q < |order| && order[q] == j;
      if q < p { assert o[q] == j; } else { assert q != p && o[q - 1] == j; }
    }
  }

  /** The elements taken in the order of an index sequence. */
  function Pick<T>(s: seq<T>, order: seq<nat>): (r: seq<T>)
    requires forall a :: 0 <= a < |order| ==> order[a] < |s|
    ensures |r| == |order| && forall a :: 0 <= a < |order| ==> r[a] == s[order[a]]
  {
    seq(|order|, a requires 0 <= a < |order| => s[order[a]])
  }

  /** Taking the elements in the order of an index permutation keeps each as
      often as it occurs. */
  lemma {:induction false} PickPermutes<T>(s: seq<T>, order: seq<nat>)
    requires IsIndexPermutation(order, |s|)
    ensures multiset(Pick(s, order)) == multiset(s)
    decreases |s|
  {
    if s != [] {
      var n := |s| - 1;
      assert n in order;
      var p :| 0 <= p < |order| && order[p] == n;
      var o := order[..p] + order[p + 1..];
      RemoveLast(order, n, p);
      PickPermutes(s[..n], o);
      PickSplit(s, order, p);
      MultisetInsert(Pick(s, order), Pick(s[..n], o), s[n], p);
      MultisetLast(s);
    }
  }

  lemma MultisetInsert<T>(all: seq<T>, q: seq<T>, x: T, p: nat)
    requires p <= |q| && all == q[..p] + [x] + q[p..]
    ensures multiset(all) == multiset(q) + multiset{x}
  {
    assert q == q[..p] + q[p..];
  }

  lemma MultisetLast<T>(s: seq<T>)
    requires s != []
    ensures multiset(s) == multiset(s[..|s| - 1]) + multiset{s[|s| - 1]}
  {
    assert s == s[..|s| - 1] + [s[|s| - 1]];
  }

  /** The picked sequence, with the last element taken out from where it was
      picked, is the pick of the other elements. */
  lemma PickSplit<T>(s: seq<T>, order: seq<nat>, p: nat)
    requires s != [] && IsIndexPermutation(order, |s|) && p < |order| && order[p] == |s| - 1
    requires IsIndexPermutation(order[..p] + order[p + 1..], |s| - 1)
    ensures Pick(s, order) == Pick(s[..|s| - 1], order[..p] + order[p + 1..])[..p] + [s[|s| - 1]]
                              + Pick(s[..|s| - 1], order[..p] + order[p + 1..])[p..]
  {
    var n := |s| - 1;
    var o := order[..p] + order[p + 1..];
    var q := Pick(s[..n], o);
    var all := Pick(s, order);
    var t := q[..p] + [s[n]] + q[p..];
    assert |all| == |t|;
    forall a | 0 <= a < |all| ensures all[a] == t[a] {
      if a < p {
        assert o[a] == order[a] && t[a] == q[a];
      } else if a > p {
        assert o[a - 1] == order[a] && t[a] == q[a - 1];
      }
    }
  }

  /** An argsort of the wavelengths puts the rows in ascending order, and keeps
      every row as often as it occurs: the same multiset, hence the same rows. */
  lemma {:induction false} ArgSortPermutes(rows: Lines, order: seq<nat>)
    requires IsArgSort(order, Wavelengths(rows))
    ensures |Permute(rows, order)| == |rows|
    ensures SortedByWavelength(Permute(rows, order))
    ensures multiset(Permute(rows, order)) == multiset(rows)
    ensures forall x :: x in Permute(rows, order) <==> x in rows
  {
    var p := Permute(rows, order);
    assert p == Pick(rows, order);
    PickPermutes(rows, order);
    forall a, b | 0 <= a < b < |p| ensures p[a].wavelength <= p[b].wavelength {
      assert Wavelengths(rows)[order[a]] <= Wavelengths(rows)[order[b]];
    }
    forall x | x in rows ensures x in p {
      var j :| 0 <= j < |rows| && rows[j] == x;
      assert j in order;
      var a :| 0 <= a < |order| && order[a] == j;
      assert p[a] == x;
    }
  }

  /** The prefix `order` of an argsort of `keys[..j]`, with `j` inserted before
      the first entry whose key exceeds `keys[j]`, is an argsort of `keys[..j+1]`. */
  lemma InsertKeepsArgSort(keys: seq<real>, order: seq<nat>, j: nat, p: nat)
    requires j < |keys| && |order| == j && p <= j
    requires forall a :: 0 <= a < j ==> order[a] < j
    requires forall a, b :: 0 <= a < b < j ==> order[a] != order[b]
    requires forall x :: 0 <= x < j ==> x in order
    requires forall a, b :: 0 <= a < b < j ==> keys[order[a]] <= keys[order[b]]
    requires forall a :: 0 <= a < p ==> keys[order[a]] <= keys[j]
    requires p < j ==> keys[j] < keys[order[p]]
    ensures var next := order[..p] + [j] + order[p..];
      |next| == j + 1
      && (forall a :: 0 <= a < j + 1 ==> next[a] < j + 1)
      && (forall a, b :: 0 <= a < b < j + 1 ==> next[a] != next[b])
      && (forall x :: 0 <= x < j + 1 ==> x in next)
      && (forall a, b :: 0 <= a < b < j + 1 ==> keys[next[a]] <= keys[next[b]])
  {
    InsertKeepsIndices(order, j, p);
    InsertKeepsSorted(keys, order, j, p);
  }

  /** Inserting `j` into an arrangement of `0..j` gives one of `0..j+1`. */
  lemma InsertKeepsIndices(order: seq<nat>, j: nat, p: nat)
    requires |order| == j && p <= j
    requires forall a :: 0 <= a < j ==> order[a] < j
    requires forall a, b :: 0 <= a < b < j ==> order[a] != order[b]
    requires forall x :: 0 <= x < j ==> x in order
    ensures var next := order[..p] + [j] + order[p..];
      |next| == j + 1
      && (forall a :: 0 <= a < j + 1 ==> next[a] < j + 1)
      && (forall a, b :: 0 <= a < b < j + 1 ==> next[a] != next[b])
      && (forall x :: 0 <= x < j + 1 ==> x in next)
  {
    var next := order[..p] + [j] + order[p..];
    assert forall a :: 0 <= a < p ==> next[a] == order[a];
    assert next[p] == j;
    assert forall a :: p < a <= j ==> next[a] == order[a - 1];
    forall x | 0 <= x < j + 1 ensures x in next {
      if x == j {
        assert next[p] == x;
      } else {
        assert x in order;
        var a :| 0 <= a < |order| && order[a] == x;
        if a < p { assert next[a] == x; } else { assert next[a + 1] == x; }
      }
    }
  }

  /** Inserting `j` at `p`, after the keys not above its own and before
      the first larger one, keeps the keys in order. */
  lemma InsertKeepsSorted(keys: seq<real>, order: seq<nat>, j: nat, p: nat)
    requires j < |keys| && |order| == j && p <= j
    requires forall a :: 0 <= a < j ==> order[a] < j
    requires forall a, b :: 0 <= a < b < j ==> keys[order[a]] <= keys[order[b]]
    requires forall a :: 0 <= a < p ==> keys[order[a]] <= keys[j]
    requires p < j ==> keys[j] < keys[order[p]]
    ensures var next := order[..p] + [j] + order[p..];
      forall a, b :: 0 <= a < b < j + 1 ==> keys[next[a]] <= keys[next[b]]
  {
    var next := order[..p] + [j] + order[p..];
    assert forall a :: 0 <= a < p ==> next[a] == order[a];
    assert next[p] == j;
    assert forall a :: p < a <= j ==> next[a] == order[a - 1];
    forall a, b | 0 <= a < b < j + 1 ensures keys[next[a]] <= keys[next[b]] {
      if b == p {
        assert keys[next[a]] <= keys[j];
      } else if a == p {
        assert keys[j] < keys[order[p]];
        assert p == b - 1 || keys[order[p]] <= keys[order[b - 1]];
      }
    }
  }

  /** An argsort by insertion: each index goes after every earlier index whose
      key is not larger. Only `IsArgSort` is promised. */
  method ArgSort(keys: seq<real>) returns (order: seq<nat>)
    ensures IsArgSort(order, keys)
  {
    order := [];
    var j := 0;
    while j < |keys|
      invariant 0 <= j <= |keys| && |order| == j
      invariant forall a :: 0 <= a < j ==> order[a] < j
      invariant forall a, b :: 0 <= a < b < j ==> order[a] != order[b]
      invariant forall x :: 0 <= x < j ==> x in order
      invariant forall a, b :: 0 <= a < b < j ==> keys[order[a]] <= keys[order[b]]
    {
      var p := 0;
      while p < j && keys[order[p]] <= keys[j]
        invariant 0 <= p <= j
        invariant forall a :: 0 <= a < p ==> keys[order[a]] <= keys[j]
      {
        p := p + 1;
      }
      var next := order[..p] + [j] + order[p..];
      InsertKeepsArgSort(keys, order, j, p);
      order := next;
      j := j + 1;
    }
  }

  // ---------------------------------------------------------------------------
  // The sweep over arrays

  /** The inner `while k < n` loop of `_merge_lines_full` for outer row `i`,
      in place on the row and `used` arrays: it leaves them as `Scan` says. */
  method ScanRow(cfg: MergeConfig, rows: array<Line>, used: array<bool>, i: nat)
    requires cfg.wlRef != 0.0 && rows.Length == used.Length && i < rows.Length
    modifies rows, used
    ensures State(rows[..], used[..]) == Scan(cfg, old(State(rows[..], used[..])), i, i + 1)
  {
    ghost var goal := Scan(cfg, State(rows[..], used[..]), i, i + 1);
    var n := rows.Length;
    var wlI, speciesI, sourceI := rows[i].wavelength, rows[i].species, rows[i].source;
    var windowI := SourceWindow(cfg, sourceI);
    var k := i + 1;
    while k < n
      invariant i < k <= n
      invariant rows[i].wavelength == wlI && rows[i].species == speciesI && rows[i].source == sourceI
      invariant Scan(cfg, State(rows[..], used[..]), i, k) == goal
    {
      var window := ComputeWlWindow(wlI, Max(windowI, SourceWindow(cfg, rows[k].source)), cfg.wlRef);
      if rows[k].wavelength - wlI > window {
        break;
      }
      if used[k] || !rows[k].mergeable {
        k := k + 1;
        continue;
      }
      if speciesI < FirstMolecule && !ForbidCompatible(rows[i].forbid, rows[k].forbid) {
        k := k + 1;
        continue;
      }
      if LinesAreEquivalent(wlI, speciesI, rows[i].jLower, rows[i].jUpper, rows[i].eUpper, sourceI,
                            rows[k].wavelength, rows[k].species, rows[k].jLower, rows[k].jUpper,
                            rows[k].eUpper, rows[k].source, window) {
        if rows[i].ranks[0] >= rows[k].ranks[0] {
          rows[i] := MergeParameters(rows[i], rows[k]);
          used[k] := true;
        } else {
          rows[k] := MergeParameters(rows[k], rows[i]);
          used[i] := true;
          break;
        }
      }
      k := k + 1;
    }
  }

  /** `_merge_lines_full`. No list gives no rows and a single list is returned
      as it is. Otherwise the concatenated rows are put in wavelength order by
      an argsort (`order`), swept in place over two arrays, the rows and the
      `used` marks, and the kept rows are returned: exactly what `MergeSorted`
      defines for the sorted rows. The result is sorted, no longer than the
      input, and holds every input row that is standalone and not from a
      replacement list. */
  method MergeLinesFull(lists: seq<Lines>, cfg: MergeConfig) returns (r: Lines, ghost order: seq<nat>)
    requires cfg.wlRef != 0.0
    ensures |lists| == 0 ==> r == []
    ensures |lists| == 1 ==> r == lists[0]
    ensures |lists| >= 2 ==>
      IsArgSort(order, Wavelengths(Concat(lists)))
      && r == MergeSorted(cfg, Permute(Concat(lists), order))
    ensures |lists| >= 2 ==>
      SortedByWavelength(r) && |r| <= |Concat(lists)|
      && forall x :: x in Concat(lists) && !x.mergeable && !x.isReplacement ==> x in r
  {
    if |lists| == 0 {
      return [], [];
    }
    if |lists| == 1 {
      return lists[0], [];
    }
    var all := Concat(lists);
    var n := |all|;
    var idx := ArgSort(Wavelengths(all));
    order := idx;
    var sorted := Permute(all, idx);
    var rows := new Line[n](j requires 0 <= j < n => sorted[j]);
    var used := new bool[n](_ => false);
    assert State(rows[..], used[..]) == Fresh(sorted);
    ghost var fin := Sweep(cfg, Fresh(sorted), 0);

    var i := 0;
    while i < n
      invariant 0 <= i <= n
      invariant Sweep(cfg, State(rows[..], used[..]), i) == fin
    {
      if !used[i] && rows[i].mergeable {
        ScanRow(cfg, rows, used, i);
      }
      i := i + 1;
    }
    r := Keep(State(rows[..], used[..]));
    ArgSortPermutes(all, idx);
    MergeSortedOutput(cfg, sorted);
  }

  /** `_merge_lines_simple`: a single list is returned as it is; several are
      concatenated and put in wavelength order, every row kept as often as it
      occurs; no list at all is the error `np.concatenate` raises. */
  method MergeLinesSimple(lists: seq<Lines>) returns (r: Result<Lines, string>, ghost order: seq<nat>)
    ensures |lists| == 0 ==> r.Failure?
    ensures |lists| == 1 ==> r == Success(lists[0])
    ensures |lists| >= 2 ==>
      r.Success? && IsArgSort(order, Wavelengths(Concat(lists)))
      && r.value == Permute(Concat(lists), order)
    ensures |lists| >= 2 ==>
      |r.value| == |Concat(lists)| && SortedByWavelength(r.value)
      && multiset(r.value) == multiset(Concat(lists))
      && forall x :: x in r.value <==> x in Concat(lists)
  {
    if |lists| == 1 {
      return Success(lists[0]), [];
    }
    if |lists| == 0 {
      return Failure("need at least one array to concatenate"), [];
    }
    var all := Concat(lists);
    var idx := ArgSort(Wavelengths(all));
    order := idx;
    ArgSortPermutes(all, idx);
    r := Success(Permute(all, idx));
  }
}
