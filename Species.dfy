/** The species table of vald/species.py: display names, the molecule test,
    and look-ups by index and by name. The table is the species file's rows
    that parse, in file order; the loader keeps the last row of each index,
    in the place where that index first occurs. */
module Species {
  import opened Wrappers
  import opened Text
  import opened Masks

  datatype Species = Species(index: int, name: string, charge: nat, mass: real, ionizationEnergy: real)

  type Table = seq<Species>

  const Roman: seq<string> := ["I", "II", "III", "IV", "V", "VI", "VII", "VIII", "IX", "X"]

  /** The ionisation-stage part of a display name. */
  function IonStage(charge: nat): (r: string)
    ensures charge < 10 ==> r == Roman[charge]
    ensures charge >= 10 ==> IsDigitString(r) && DigitsValue(r) == charge + 1
  {
    if charge == 0 then "I"
    else if charge < |Roman| then Roman[charge]
    else NatToString(charge + 1)
  }

  /** "Fe I", "Ca II", ..., "X 12": the name, one space and the ionisation stage. */
  function DisplayName(s: Species): (r: string)
    ensures |r| > |s.name| + 1 && r[..|s.name|] == s.name && r[|s.name|] == ' '
    ensures r[|s.name| + 1..] == IonStage(s.charge)
  {
    s.name + " " + IonStage(s.charge)
  }

  /** Molecules are the names longer than two characters or holding a digit. */
  predicate IsMolecule(s: Species)
  {
    |s.name| > 2 || exists i :: 0 <= i < |s.name| && IsDigit(s.name[i])
  }

  /** Different charges never share a display name. */
  lemma {:induction false} IonStageInjective(a: nat, b: nat)
    requires IonStage(a) == IonStage(b)
    ensures a == b
  {
    if a >= 10 && b >= 10 {
      assert a + 1 == b + 1;
    }
  }

  /** A digit-free name of at most two letters is an atom, so "CO" is one. */
  lemma ShortDigitFreeNamesAreAtoms(s: Species)
    requires |s.name| <= 2 && forall i :: 0 <= i < |s.name| ==> !IsDigit(s.name[i])
    ensures !IsMolecule(s)
  {
  }

  /** `_load_species_dict` assigns `species_dict[index] = species` row by row,
      so a later row of the same index replaces the earlier one.
      `get_species`: the last row with the given index, `None` when there is none. */
  function GetSpecies(table: Table, index: int): (r: Option<Species>)
    ensures r.None? ==> forall j :: 0 <= j < |table| ==> table[j].index != index
    ensures forall j :: 0 <= j < |table| && table[j].index == index ==> r.Some?
    ensures r.Some? ==> r.value in table && r.value.index == index
    decreases |table|
  {
    if table == [] then None
    else
      var n := |table| - 1;
      if table[n].index == index then Some(table[n])
      else
        var r := GetSpecies(table[..n], index);
        assert forall j :: 0 <= j < n ==> table[..n][j] == table[j];
        r
  }

  /** Row `j` holds `index` and no later row does. */
  predicate LastRowOf(table: Table, index: int, j: int)
  {
    0 <= j < |table| && table[j].index == index
    && forall j' :: j < j' < |table| ==> table[j'].index != index
  }

  /** A later row of the same index replaces an earlier one: the entry found
      is the last row of its index. */
  lemma {:induction false} GetSpeciesIsLast(table: Table, index: int)
    requires GetSpecies(table, index).Some?
    ensures exists j :: LastRowOf(table, index, j) && table[j] == GetSpecies(table, index).value
    decreases |table|
  {
    var n := |table| - 1;
    if table[n].index == index {
      assert LastRowOf(table, index, n);
    } else {
      var init := table[..n];
      GetSpeciesIsLast(init, index);
      var j :| LastRowOf(init, index, j) && init[j] == GetSpecies(init, index).value;
      forall j' | j < j' < |table| ensures table[j'].index != index {
        if j' < n {
          assert init[j'] == table[j'];
        }
      }
      assert init[j] == table[j];
      assert LastRowOf(table, index, j);
    }
  }

  /** `get_species_name`: the display name, or "Unknown(<index>)". */
  function GetSpeciesName(table: Table, index: int): (r: string)
    ensures GetSpecies(table, index).None? ==> r == "Unknown(" + IntToString(index) + ")"
    ensures GetSpecies(table, index).Some? ==> r == DisplayName(GetSpecies(table, index).value)
  {
    match GetSpecies(table, index)
    case Some(s) => DisplayName(s)
    case None => "Unknown(" + IntToString(index) + ")"
  }

  /** `get_all_species`: the dictionary the loader builds, one assignment per
      row. A Dafny map is a value, so the copy the source makes is what any
      caller sees. */
  function AllSpecies(table: Table): (r: map<int, Species>)
    ensures forall index :: index in r <==> GetSpecies(table, index).Some?
    ensures forall index :: index in r ==> r[index] == GetSpecies(table, index).value
    decreases |table|
  {
    if table == [] then map[]
    else
      var n := |table| - 1;
      AllSpecies(table[..n])[table[n].index := table[n]]
  }

  /** Some row before row `j` has index `c`. */
  predicate IndexBefore(table: Table, c: int, j: nat)
    requires j <= |table|
  {
    exists i :: 0 <= i < j && table[i].index == c
  }

  /** Row `j` is the first row with its index, where the dictionary gets that key. */
  predicate FirstOfIndex(table: Table, j: nat)
    requires j < |table|
  {
    forall j' :: 0 <= j' < j ==> table[j'].index != table[j].index
  }

  function FirstRowMask(table: Table): (m: seq<bool>)
    ensures |m| == |table| && forall j :: 0 <= j < |table| ==> m[j] == FirstOfIndex(table, j)
  {
    seq(|table|, j requires 0 <= j < |table| => FirstOfIndex(table, j))
  }

  /** `species_dict.values()`: one entry per index, in the order in which the
      indices first occur, each the last row with its index. */
  function DictValues(table: Table): (v: seq<Species>)
    ensures forall k :: 0 <= k < |v| ==> GetSpecies(table, v[k].index) == Some(v[k])
    ensures forall a, b :: 0 <= a < b < |v| ==> v[a].index != v[b].index
    ensures forall j :: 0 <= j < |table| ==> GetSpecies(table, table[j].index).value in v
  {
    var p := TruePositions(FirstRowMask(table));
    var v := seq(|p|, k requires 0 <= k < |p| => GetSpecies(table, table[p[k]].index).value);
    ValuesAreEntries(table, p, v);
    AllValuesDistinct(table, p, v);
    AllRowsValued(table, p, v);
    v
  }

  /** The dictionary's values are in the order in which their indices first
      occur: every row with a later value's index comes after some row with
      an earlier value's index. */
  lemma DictValuesOrdered(table: Table)
    ensures forall a, b, j ::
              0 <= a < b < |DictValues(table)| && 0 <= j < |table| && table[j].index == DictValues(table)[b].index
              ==> IndexBefore(table, DictValues(table)[a].index, j)
  {
    var p := TruePositions(FirstRowMask(table));
    AllValuesOrdered(table, p, DictValues(table));
  }

  lemma ValuesAreEntries(table: Table, p: seq<nat>, v: seq<Species>)
    requires p == TruePositions(FirstRowMask(table))
    requires |v| == |p| && forall k :: 0 <= k < |p| ==> v[k] == GetSpecies(table, table[p[k]].index).value
    ensures forall k :: 0 <= k < |v| ==> GetSpecies(table, v[k].index) == Some(v[k])
  {
    forall k | 0 <= k < |v| ensures GetSpecies(table, v[k].index) == Some(v[k]) {
      ValueIsEntry(table, p[k], v[k]);
    }
  }

  lemma ValueIsEntry(table: Table, j: nat, x: Species)
    requires j < |table| && x == GetSpecies(table, table[j].index).value
    ensures GetSpecies(table, x.index) == Some(x)
  {
  }

  lemma AllValuesDistinct(table: Table, p: seq<nat>, v: seq<Species>)
    requires p == TruePositions(FirstRowMask(table))
    requires |v| == |p| && forall k :: 0 <= k < |p| ==> v[k] == GetSpecies(table, table[p[k]].index).value
    ensures forall a, b :: 0 <= a < b < |v| ==> v[a].index != v[b].index
  {
    forall a, b | 0 <= a < b < |v| ensures v[a].index != v[b].index {
      ValuesDistinct(table, p, v, a, b);
    }
  }

  lemma AllRowsValued(table: Table, p: seq<nat>, v: seq<Species>)
    requires p == TruePositions(FirstRowMask(table))
    requires |v| == |p| && forall k :: 0 <= k < |p| ==> v[k] == GetSpecies(table, table[p[k]].index).value
    ensures forall j :: 0 <= j < |table| ==> GetSpecies(table, table[j].index).value in v
  {
    forall j | 0 <= j < |table| ensures GetSpecies(table, table[j].index).value in v {
      ValueOfRow(table, p, v, j);
    }
  }

  lemma AllValuesOrdered(table: Table, p: seq<nat>, v: seq<Species>)
    requires p == TruePositions(FirstRowMask(table))
    requires |v| == |p| && forall k :: 0 <= k < |p| ==> v[k] == GetSpecies(table, table[p[k]].index).value
    ensures forall a, b, j :: 0 <= a < b < |v| && 0 <= j < |table| && table[j].index == v[b].index ==>
              IndexBefore(table, v[a].index, j)
  {
    forall a, b, j | 0 <= a < b < |v| && 0 <= j < |table| && table[j].index == v[b].index
      ensures IndexBefore(table, v[a].index, j)
    {
      ValuesOrdered(table, p, v, a, b, j);
    }
  }

  lemma ValuesDistinct(table: Table, p: seq<nat>, v: seq<Species>, a: nat, b: nat)
    requires p == TruePositions(FirstRowMask(table))
    requires |v| == |p| && forall k :: 0 <= k < |p| ==> v[k] == GetSpecies(table, table[p[k]].index).value
    requires a < b < |v|
    ensures v[a].index != v[b].index
  {
    assert p[a] < p[b] && FirstOfIndex(table, p[b]);
    assert table[p[a]].index != table[p[b]].index;
  }

  lemma ValueOfRow(table: Table, p: seq<nat>, v: seq<Species>, j: nat)
    requires p == TruePositions(FirstRowMask(table))
    requires |v| == |p| && forall k :: 0 <= k < |p| ==> v[k] == GetSpecies(table, table[p[k]].index).value
    requires j < |table|
    ensures GetSpecies(table, table[j].index).value in v
  {
    var f := First(table, j);
    assert FirstRowMask(table)[f];
    assert f in p;
    var k :| 0 <= k < |p| && p[k] == f;
    assert v[k] == GetSpecies(table, table[j].index).value;
  }

  lemma ValuesOrdered(table: Table, p: seq<nat>, v: seq<Species>, a: nat, b: nat, j: nat)
    requires p == TruePositions(FirstRowMask(table))
    requires |v| == |p| && forall k :: 0 <= k < |p| ==> v[k] == GetSpecies(table, table[p[k]].index).value
    requires a < b < |v| && j < |table| && table[j].index == v[b].index
    ensures IndexBefore(table, v[a].index, j)
  {
    assert FirstOfIndex(table, p[b]) && table[p[b]].index == v[b].index;
    assert p[b] <= j;
    assert p[a] < p[b] && table[p[a]].index == v[a].index;
  }

  /** The first row with the index of row `j`. */
  function First(table: Table, j: nat): (f: nat)
    requires j < |table|
    ensures f <= j && table[f].index == table[j].index && FirstOfIndex(table, f)
    decreases j
  {
    if FirstOfIndex(table, j) then j
    else
      var i :| 0 <= i < j && table[i].index == table[j].index;
      First(table, i)
  }

  predicate NameMatches(s: Species, name: string, charge: Option<int>)
  {
    Lower(s.name) == Lower(name) && (charge.None? || s.charge == charge.value)
  }

  function MatchMask(v: seq<Species>, name: string, charge: Option<int>): (m: seq<bool>)
    ensures |m| == |v| && forall k :: 0 <= k < |v| ==> m[k] == NameMatches(v[k], name, charge)
  {
    seq(|v|, k requires 0 <= k < |v| => NameMatches(v[k], name, charge))
  }

  /** `find_species_by_name`: the dictionary's values, in its order, whose name
      equals `name` ignoring case and, when a charge is given, whose charge
      equals it: so at most one entry per index, and an index is represented
      exactly when the entry `get_species` gives for it matches. */
  function FindSpeciesByName(table: Table, name: string, charge: Option<int>): (r: seq<Species>)
    ensures Selects(r, DictValues(table), MatchMask(DictValues(table), name, charge))
    ensures forall a, b :: 0 <= a < b < |r| ==> r[a].index != r[b].index
    ensures forall s :: s in r ==> GetSpecies(table, s.index) == Some(s) && NameMatches(s, name, charge)
    ensures forall index :: GetSpecies(table, index).Some? && NameMatches(GetSpecies(table, index).value, name, charge)
              ==> GetSpecies(table, index).value in r
  {
    var v := DictValues(table);
    var r := Select(v, MatchMask(v, name, charge));
    FindFacts(table, v, name, charge, r);
    r
  }

  lemma FindFacts(table: Table, v: seq<Species>, name: string, charge: Option<int>, r: seq<Species>)
    requires v == DictValues(table) && Selects(r, v, MatchMask(v, name, charge))
    ensures forall a, b :: 0 <= a < b < |r| ==> r[a].index != r[b].index
    ensures forall s :: s in r ==> GetSpecies(table, s.index) == Some(s) && NameMatches(s, name, charge)
    ensures forall index :: GetSpecies(table, index).Some? && NameMatches(GetSpecies(table, index).value, name, charge)
              ==> GetSpecies(table, index).value in r
  {
    var m := MatchMask(v, name, charge);
    var p := TruePositions(m);
    SelectionMembers(v, m, r);
    forall a, b | 0 <= a < b < |r| ensures r[a].index != r[b].index {
      assert p[a] < p[b] && r[a] == v[p[a]] && r[b] == v[p[b]];
    }
    forall index | GetSpecies(table, index).Some? && NameMatches(GetSpecies(table, index).value, name, charge)
      ensures GetSpecies(table, index).value in r
    {
      var j :| 0 <= j < |table| && table[j] == GetSpecies(table, index).value;
      assert table[j].index == index;
      var x := GetSpecies(table, index).value;
      assert x in v;
      var k :| 0 <= k < |v| && v[k] == x;
      assert m[k];
    }
  }
}
