/**
 * The two kinds of table row the dashboard reads and the two ways it
 * queries them: a filtered column sum (`get_tenant_recoveries` and the
 * inline `str.contains(...).sum()` expressions) and an exact-name lookup of
 * the first matching row (`get_council_value`).
 */
module Tables {
  import opened Wrappers
  import opened Text

  /** The numeric columns of a utility sheet: "CONSUMPTION" and "COST". */
  datatype UtilityColumn = Consumption | Cost

  /**
   * One row of an "Elec Excel", "Water Excel" or "Effluent Excel" sheet.
   * `tenantName` is None where the "TENANT'S NAME" cell is empty or not text.
   */
  datatype UtilityRow = UtilityRow(tenantName: Option<string>, consumption: real, cost: real) {

    function Get(col: UtilityColumn): real {
      match col
      case Consumption => consumption
      case Cost => cost
    }

    /** `str.contains(marker, na=False)` on the tenant name: an empty cell never matches. */
    predicate NameContains(marker: string) {
      tenantName.Some? && Contains(tenantName.value, marker)
    }
  }

  /** The numeric columns of the "other info" sheet: "Value" (kWh or kL) and "Rand". */
  datatype OtherColumn = Value | Rand

  /** One row of the month's "other info" sheet: a named council, solar or meter figure. */
  datatype OtherRow = OtherRow(variable: string, value: real, rand: real) {

    function Get(col: OtherColumn): real {
      match col
      case Value => value
      case Rand => rand
    }
  }

  /** The sum of `val` over the rows that `keep` selects: pandas' `df.loc[mask, col].sum()`. */
  function FilterSum<T>(rows: seq<T>, keep: T -> bool, val: T -> real): (s: real)
    ensures (forall i :: 0 <= i < |rows| ==> !keep(rows[i])) ==> s == 0.0
    ensures (forall i :: 0 <= i < |rows| && keep(rows[i]) ==> val(rows[i]) >= 0.0) ==> s >= 0.0
  {
    if rows == [] then 0.0
    else (if keep(rows[0]) then val(rows[0]) else 0.0) + FilterSum(rows[1..], keep, val)
  }

  /** A filtered sum splits over a concatenation of tables. */
  lemma {:induction false} FilterSumAppend<T>(a: seq<T>, b: seq<T>, keep: T -> bool, val: T -> real)
    ensures FilterSum(a + b, keep, val) == FilterSum(a, keep, val) + FilterSum(b, keep, val)
  {
    if a == [] {
      assert a + b == b;
    } else {
      assert (a + b)[0] == a[0] && (a + b)[1..] == a[1..] + b;
      FilterSumAppend(a[1..], b, keep, val);
    }
  }

  /**
   * Inserting one row anywhere adds its value when it is selected and
   * changes nothing when it is not.
   */
  lemma FilterSumInsert<T>(a: seq<T>, row: T, b: seq<T>, keep: T -> bool, val: T -> real)
    ensures FilterSum(a + [row] + b, keep, val)
         == FilterSum(a + b, keep, val) + (if keep(row) then val(row) else 0.0)
  {
    FilterSumAppend(a + [row], b, keep, val);
    FilterSumAppend(a, [row], keep, val);
    FilterSumAppend(a, b, keep, val);
  }

  /** The order of the rows does not matter: a filtered sum depends only on the multiset of rows. */
  lemma {:induction false} FilterSumPermutation<T>(a: seq<T>, b: seq<T>, keep: T -> bool, val: T -> real)
    requires multiset(a) == multiset(b)
    ensures FilterSum(a, keep, val) == FilterSum(b, keep, val)
    decreases |a|
  {
    if a != [] {
      var row := a[0];
      assert row in multiset(b);
      var j :| 0 <= j < |b| && b[j] == row;
      var rest := b[..j] + b[j + 1..];
      assert b == b[..j] + [row] + b[j + 1..];
      assert a == [row] + a[1..];
      assert multiset(a) == multiset{row} + multiset(a[1..]);
      assert multiset(b) == multiset(b[..j]) + multiset{row} + multiset(b[j + 1..]);
      assert multiset(rest) == multiset(b[..j]) + multiset(b[j + 1..]);
      assert multiset{row} + multiset(a[1..]) == multiset{row} + multiset(rest);
      assert multiset(a[1..]) == (multiset{row} + multiset(a[1..])) - multiset{row};
      assert multiset(rest) == (multiset{row} + multiset(rest)) - multiset{row};
      FilterSumPermutation(a[1..], rest, keep, val);
      FilterSumInsert(b[..j], row, b[j + 1..], keep, val);
    }
  }

  /** The sum of a utility column over the rows whose tenant name contains `marker`. */
  function MarkedSum(table: seq<UtilityRow>, marker: string, col: UtilityColumn): (s: real)
    ensures (forall i :: 0 <= i < |table| ==> !table[i].NameContains(marker)) ==> s == 0.0
  {
    FilterSum(table, (r: UtilityRow) => r.NameContains(marker), (r: UtilityRow) => r.Get(col))
  }

  /** `MarkedSum` counts a row exactly when its tenant name is present and contains the marker. */
  lemma MarkedSumInsert(a: seq<UtilityRow>, row: UtilityRow, b: seq<UtilityRow>, marker: string, col: UtilityColumn)
    ensures MarkedSum(a + [row] + b, marker, col)
         == MarkedSum(a + b, marker, col)
          + (if row.tenantName.Some? && Contains(row.tenantName.value, marker) then row.Get(col) else 0.0)
  {
    FilterSumInsert(a, row, b, (r: UtilityRow) => r.NameContains(marker), (r: UtilityRow) => r.Get(col));
  }

  /** `get_tenant_recoveries`: the column summed over the rows whose tenant name contains "TOTAL". */
  function TenantRecoveries(table: seq<UtilityRow>, col: UtilityColumn): (s: real)
    ensures (forall i :: 0 <= i < |table| ==> !table[i].NameContains("TOTAL")) ==> s == 0.0
  {
    MarkedSum(table, "TOTAL", col)
  }

  /** Tenant recoveries do not depend on the order of the sheet's rows. */
  lemma TenantRecoveriesPermutation(a: seq<UtilityRow>, b: seq<UtilityRow>, col: UtilityColumn)
    requires multiset(a) == multiset(b)
    ensures TenantRecoveries(a, col) == TenantRecoveries(b, col)
  {
    FilterSumPermutation(a, b, (r: UtilityRow) => r.NameContains("TOTAL"), (r: UtilityRow) => r.Get(col));
  }

  /** The sum of an "other info" column over the rows whose variable name contains `pattern`. */
  function VariableSum(other: seq<OtherRow>, pattern: string, col: OtherColumn): (s: real)
    ensures (forall i :: 0 <= i < |other| ==> !Contains(other[i].variable, pattern)) ==> s == 0.0
  {
    FilterSum(other, (r: OtherRow) => Contains(r.variable, pattern), (r: OtherRow) => r.Get(col))
  }

  /** `VariableSum` counts a row exactly when its variable name contains the pattern. */
  lemma VariableSumInsert(a: seq<OtherRow>, row: OtherRow, b: seq<OtherRow>, pattern: string, col: OtherColumn)
    ensures VariableSum(a + [row] + b, pattern, col)
         == VariableSum(a + b, pattern, col) + (if Contains(row.variable, pattern) then row.Get(col) else 0.0)
  {
    FilterSumInsert(a, row, b, (r: OtherRow) => Contains(r.variable, pattern), (r: OtherRow) => r.Get(col));
  }

  /** The sum of a column over the rows whose variable name is exactly `name`. */
  function ExactSum(other: seq<OtherRow>, name: string, col: OtherColumn): real {
    FilterSum(other, (r: OtherRow) => r.variable == name, (r: OtherRow) => r.Get(col))
  }

  /** Some row of the sheet carries exactly this variable name. */
  predicate Defines(other: seq<OtherRow>, name: string) {
    exists i :: 0 <= i < |other| && other[i].variable == name
  }

  /** A sheet defines a name when its first row does or the rest of it does. */
  lemma DefinesCons(other: seq<OtherRow>, name: string)
    requires other != []
    ensures Defines(other, name) <==> other[0].variable == name || Defines(other[1..], name)
  {
    if Defines(other[1..], name) {
      var i :| 0 <= i < |other[1..]| && other[1..][i].variable == name;
      assert other[i + 1].variable == name;
    }
    if Defines(other, name) && other[0].variable != name {
      var i :| 0 <= i < |other| && other[i].variable == name;
      assert other[1..][i - 1].variable == name;
    }
  }

  /** Row `i` is the first row whose variable name is exactly `name`. */
  ghost predicate FirstMatch(other: seq<OtherRow>, name: string, i: int) {
    && 0 <= i < |other|
    && other[i].variable == name
    && forall j :: 0 <= j < i ==> other[j].variable != name
  }

  /**
   * `get_council_value`: the column of the first row whose variable name
   * equals `name` exactly; None where `.values[0]` would raise because no
   * row matches (there is no zero default).
   */
  function CouncilValue(other: seq<OtherRow>, name: string, col: OtherColumn := Rand): (r: Option<real>)
    ensures r.None? <==> !Defines(other, name)
  {
    if other == [] then None
    else
      DefinesCons(other, name);
      if other[0].variable == name then Some(other[0].Get(col))
      else CouncilValue(other[1..], name, col)
  }

  /** A lookup reads exactly the first row whose variable name matches. */
  lemma {:induction false} CouncilValueAt(other: seq<OtherRow>, name: string, col: OtherColumn, i: int)
    requires FirstMatch(other, name, i)
    ensures CouncilValue(other, name, col) == Some(other[i].Get(col))
  {
    if i > 0 {
      assert FirstMatch(other[1..], name, i - 1) by {
        forall j | 0 <= j < i - 1 ensures other[1..][j].variable != name {
          assert other[1..][j] == other[j + 1];
        }
      }
      CouncilValueAt(other[1..], name, col, i - 1);
    }
  }

  /** A sheet that defines a name has a first row carrying it. */
  lemma {:induction false} FirstMatchExists(other: seq<OtherRow>, name: string)
    requires Defines(other, name)
    ensures exists i :: FirstMatch(other, name, i)
  {
    DefinesCons(other, name);
    if other[0].variable == name {
      assert FirstMatch(other, name, 0);
    } else {
      FirstMatchExists(other[1..], name);
      var i :| FirstMatch(other[1..], name, i);
      assert FirstMatch(other, name, i + 1) by {
        forall j | 0 <= j < i + 1 ensures other[j].variable != name {
          if j > 0 { assert other[j] == other[1..][j - 1]; }
        }
      }
    }
  }

  /** Every column a lookup returns comes from the first matching row. */
  lemma CouncilValueReadsFirst(other: seq<OtherRow>, name: string)
    ensures Defines(other, name) ==> exists i :: FirstMatch(other, name, i)
    ensures forall i, col :: FirstMatch(other, name, i) ==> CouncilValue(other, name, col) == Some(other[i].Get(col))
  {
    if Defines(other, name) {
      FirstMatchExists(other, name);
    }
    forall i, col | FirstMatch(other, name, i)
      ensures CouncilValue(other, name, col) == Some(other[i].Get(col))
    {
      CouncilValueAt(other, name, col, i);
    }
  }

  /**
   * Lookup over two concatenated sheets: the first sheet wins whenever it
   * defines the name, and rows after a match are never consulted.
   */
  lemma {:induction false} CouncilValueAppend(a: seq<OtherRow>, b: seq<OtherRow>, name: string, col: OtherColumn)
    ensures CouncilValue(a + b, name, col)
         == if Defines(a, name) then CouncilValue(a, name, col) else CouncilValue(b, name, col)
  {
    if a == [] {
      assert a + b == b;
    } else {
      DefinesCons(a, name);
      assert (a + b)[0] == a[0] && (a + b)[1..] == a[1..] + b;
      if a[0].variable != name {
        CouncilValueAppend(a[1..], b, name, col);
      }
    }
  }

  /** A row with another variable name never changes a lookup, wherever it is inserted. */
  lemma CouncilValueSkipsRow(a: seq<OtherRow>, row: OtherRow, b: seq<OtherRow>, name: string, col: OtherColumn)
    requires row.variable != name
    ensures CouncilValue(a + [row] + b, name, col) == CouncilValue(a + b, name, col)
  {
    CouncilValueAppend(a + [row], b, name, col);
    CouncilValueAppend(a, [row], name, col);
    CouncilValueAppend(a, b, name, col);
    assert Defines(a + [row], name) == Defines(a, name) by {
      if Defines(a + [row], name) {
        var i :| 0 <= i < |a + [row]| && (a + [row])[i].variable == name;
        assert i < |a| && a[i] == (a + [row])[i];
      }
      if Defines(a, name) {
        var i :| 0 <= i < |a| && a[i].variable == name;
        assert (a + [row])[i] == a[i];
      }
    }
    assert !Defines([row], name);
  }

  /** The name occurs on at most one row. */
  ghost predicate UniqueName(other: seq<OtherRow>, name: string) {
    forall i, j :: 0 <= i < j < |other| && other[i].variable == name ==> other[j].variable != name
  }

  /**
   * Where a variable name is unique, the first-match lookup and the sum over
   * all exactly-matching rows agree; they differ only on duplicated names.
   */
  lemma {:induction false} CouncilValueUniqueIsSum(other: seq<OtherRow>, name: string, col: OtherColumn)
    requires UniqueName(other, name)
    ensures CouncilValue(other, name, col)
         == if Defines(other, name) then Some(ExactSum(other, name, col)) else None
  {
    if other != [] {
      var tail := other[1..];
      assert UniqueName(tail, name) by {
        forall i, j | 0 <= i < j < |tail| && tail[i].variable == name
          ensures tail[j].variable != name
        {
          assert other[i + 1] == tail[i] && other[j + 1] == tail[j];
        }
      }
      CouncilValueUniqueIsSum(tail, name, col);
      assert other == [other[0]] + tail;
      FilterSumAppend([other[0]], tail, (r: OtherRow) => r.variable == name, (r: OtherRow) => r.Get(col));
      if other[0].variable == name {
        assert forall k :: 0 <= k < |tail| ==> tail[k].variable != name by {
          forall k | 0 <= k < |tail| ensures tail[k].variable != name {
            assert other[k + 1] == tail[k];
          }
        }
      }
      DefinesCons(other, name);
    }
  }
}
