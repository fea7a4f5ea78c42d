/**
 * The header row of the field-group list table in the admin: the plugin adds
 * a "GraphQL Type", a "GraphQL Interfaces" and a "GraphQL Locations" column,
 * right after ACF's location column when there is one and at the end
 * otherwise (`Settings::wpgraphql_admin_table_column_headers`).
 */
module AdminColumns {
  import opened Wrappers
  import opened PhpValue
  import opened PhpArray

  const LocationColumn: Key := StrKey("acf-location")
  const TypeColumn: Key := StrKey("acf-wpgraphql-type")
  const InterfacesColumn: Key := StrKey("acf-wpgraphql-interfaces")
  const LocationsColumn: Key := StrKey("acf-wpgraphql-locations")

  const TypeLabel: Value := Str("GraphQL Type")
  const InterfacesLabel: Value := Str("GraphQL Interfaces")
  const LocationsLabel: Value := Str("GraphQL Locations")

  /** The three GraphQL columns with their labels, in the order they are added. */
  function GraphqlColumns(): Entries {
    [(TypeColumn, TypeLabel), (InterfacesColumn, InterfacesLabel), (LocationsColumn, LocationsLabel)]
  }

  predicate IsGraphqlColumn(k: Key) {
    k == TypeColumn || k == InterfacesColumn || k == LocationsColumn
  }

  predicate NoGraphqlColumns(cols: Entries) {
    forall i | 0 <= i < |cols| :: !IsGraphqlColumn(cols[i].0)
  }

  /** The three assignments of the GraphQL column labels. */
  function AddGraphqlColumns(columns: Entries): Entries {
    Put(Put(Put(columns, TypeColumn, TypeLabel), InterfacesColumn, InterfacesLabel), LocationsColumn, LocationsLabel)
  }

  /** One pass of the loop body on the state (columns built so far, whether the GraphQL ones are in). */
  function Step(state: (Entries, bool), column: (Key, Value)): (Entries, bool) {
    var columns := Put(state.0, column.0, column.1);
    if column.0 == LocationColumn then (AddGraphqlColumns(columns), true) else (columns, state.1)
  }

  /** The loop's state after the input columns `cols`. */
  function LoopState(cols: Entries): (Entries, bool) {
    if cols == [] then ([], false) else Step(LoopState(cols[..|cols| - 1]), cols[|cols| - 1])
  }

  /** The header row the filter returns for the input header row `cols`. */
  function ColumnHeaders(cols: Entries): Entries {
    var (columns, added) := LoopState(cols);
    if added then columns else AddGraphqlColumns(columns)
  }

  /**
   * The header row the filter is meant to produce: the input row with the
   * three GraphQL columns spliced in right after `acf-location`, or appended
   * when there is no such column.
   */
  function Spliced(cols: Entries): Entries {
    match KeyIndex(cols, LocationColumn)
    case Some(i) => cols[..i + 1] + GraphqlColumns() + cols[i + 1..]
    case None => cols + GraphqlColumns()
  }

  /** `Spliced` before the final append: what the loop alone has built. */
  function SplicedPrefix(cols: Entries): Entries {
    InsertAfter(cols, LocationColumn, GraphqlColumns())
  }

  /** The filter callback: copy the columns in order, inserting the GraphQL ones. */
  method AdminTableColumnHeaders(cols: Entries) returns (columns: Entries)
    ensures columns == ColumnHeaders(cols)
    ensures UniqueKeys(cols) && NoGraphqlColumns(cols) ==> columns == Spliced(cols)
  {
    columns := [];
    var isAdded := false;
    for i := 0 to |cols|
      invariant (columns, isAdded) == LoopState(cols[..i])
    {
      assert cols[..i + 1][..i] == cols[..i];
      var (name, value) := cols[i];
      columns := Put(columns, name, value);
      if name == LocationColumn {
        columns := Put(columns, TypeColumn, TypeLabel);
        columns := Put(columns, InterfacesColumn, InterfacesLabel);
        columns := Put(columns, LocationsColumn, LocationsLabel);
        isAdded := true;
      }
    }
    assert cols[..|cols|] == cols;
    if !isAdded {
      columns := Put(columns, TypeColumn, TypeLabel);
      columns := Put(columns, InterfacesColumn, InterfacesLabel);
      columns := Put(columns, LocationsColumn, LocationsLabel);
    }
    if UniqueKeys(cols) && NoGraphqlColumns(cols) {
      ColumnHeadersSpliced(cols);
    }
  }

  /** With no GraphQL column among them, the three labels are appended at the end of the columns. */
  lemma AddGraphqlColumnsAppends(columns: Entries)
    requires NoGraphqlColumns(columns)
    ensures AddGraphqlColumns(columns) == columns + GraphqlColumns()
  {
    var c1 := columns + [(TypeColumn, TypeLabel)];
    var c2 := c1 + [(InterfacesColumn, InterfacesLabel)];
    forall i | 0 <= i < |columns| ensures !IsGraphqlColumn(columns[i].0) {
    }
    PutFreshKey(columns, TypeColumn, TypeLabel);
    forall i | 0 <= i < |c1| ensures c1[i].0 != InterfacesColumn {
      if i < |columns| { assert c1[i] == columns[i]; }
    }
    PutFreshKey(c1, InterfacesColumn, InterfacesLabel);
    forall i | 0 <= i < |c2| ensures c2[i].0 != LocationsColumn {
      if i < |columns| { assert c2[i] == columns[i]; }
    }
    PutFreshKey(c2, LocationsColumn, LocationsLabel);
  }

  lemma SplicedPrefixKeyFree(p: Entries, k: Key)
    requires !IsGraphqlColumn(k) && k !in Keys(p)
    ensures k !in Keys(SplicedPrefix(p))
  {
    var sp := SplicedPrefix(p);
    forall j | 0 <= j < |sp| ensures sp[j].0 != k {
      assert sp[j] in p || sp[j] in GraphqlColumns();
    }
  }

  /** A column other than `acf-location` extends the spliced row at its end. */
  lemma SplicedPrefixSnoc(p: Entries, last: (Key, Value))
    requires last.0 != LocationColumn
    ensures SplicedPrefix(p + [last]) == SplicedPrefix(p) + [last]
  {
    InsertAfterSnoc(p, LocationColumn, GraphqlColumns(), last);
  }

  /** The `acf-location` column, the first time it is seen, is followed by the three GraphQL columns. */
  lemma SplicedPrefixLocation(p: Entries, last: (Key, Value))
    requires last.0 == LocationColumn && LocationColumn !in Keys(p)
    ensures SplicedPrefix(p + [last]) == p + [last] + GraphqlColumns()
  {
    var cols := p + [last];
    KeyIndexAppend(p, last, LocationColumn);
    assert cols[..|p| + 1] == cols && cols[|p| + 1..] == [];
  }

  /** One loop pass on a fresh, non-GraphQL column extends the spliced row by that column. */
  lemma StepSpliced(p: Entries, last: (Key, Value))
    requires NoGraphqlColumns(p) && last.0 !in Keys(p) && !IsGraphqlColumn(last.0)
    ensures Step((SplicedPrefix(p), LocationColumn in Keys(p)), last) ==
      (SplicedPrefix(p + [last]), LocationColumn in Keys(p + [last]))
  {
    var sp := SplicedPrefix(p);
    var cols := p + [last];
    KeysConcat(p, [last]);
    assert Keys(cols) == Keys(p) + [last.0];
    SplicedPrefixKeyFree(p, last.0);
    assert Put(sp, last.0, last.1) == sp + [last];
    if last.0 == LocationColumn {
      assert sp == p;
      assert NoGraphqlColumns(cols) by {
        forall i | 0 <= i < |cols| ensures !IsGraphqlColumn(cols[i].0) {
          if i < |p| { assert cols[i] == p[i]; }
        }
      }
      SplicedPrefixLocation(p, last);
      AddGraphqlColumnsAppends(cols);
    } else {
      SplicedPrefixSnoc(p, last);
    }
  }

  lemma {:induction false} LoopStateSpliced(cols: Entries)
    requires UniqueKeys(cols) && NoGraphqlColumns(cols)
    ensures LoopState(cols) == (SplicedPrefix(cols), LocationColumn in Keys(cols))
  {
    if cols != [] {
      var p := cols[..|cols| - 1];
      var last := cols[|cols| - 1];
      assert cols == p + [last];
      assert UniqueKeys(p) && NoGraphqlColumns(p);
      LoopStateSpliced(p);
      assert last.0 !in Keys(p) by {
        forall j | 0 <= j < |p| ensures p[j].0 != last.0 {
          assert p[j] == cols[j];
        }
      }
      StepSpliced(p, last);
      assert LoopState(cols) == Step(LoopState(p), last);
    }
  }

  /** When no GraphQL column is there yet, the filter returns exactly the spliced header row. */
  lemma ColumnHeadersSpliced(cols: Entries)
    requires UniqueKeys(cols) && NoGraphqlColumns(cols)
    ensures ColumnHeaders(cols) == Spliced(cols)
  {
    LoopStateSpliced(cols);
    if LocationColumn !in Keys(cols) {
      AddGraphqlColumnsAppends(cols);
    }
  }

  lemma AddGraphqlColumnsGet(columns: Entries, k: Key)
    ensures Get(AddGraphqlColumns(columns), k) ==
      if k == TypeColumn then Some(TypeLabel)
      else if k == InterfacesColumn then Some(InterfacesLabel)
      else if k == LocationsColumn then Some(LocationsLabel)
      else Get(columns, k)
  {
    var c1 := Put(columns, TypeColumn, TypeLabel);
    var c2 := Put(c1, InterfacesColumn, InterfacesLabel);
    PutGet(columns, TypeColumn, TypeLabel, k);
    PutGet(c1, InterfacesColumn, InterfacesLabel, k);
    PutGet(c2, LocationsColumn, LocationsLabel, k);
  }

  lemma AddGraphqlColumnsUnique(columns: Entries)
    requires UniqueKeys(columns)
    ensures UniqueKeys(AddGraphqlColumns(columns))
  {
    var c1 := Put(columns, TypeColumn, TypeLabel);
    var c2 := Put(c1, InterfacesColumn, InterfacesLabel);
    PutUnique(columns, TypeColumn, TypeLabel);
    PutUnique(c1, InterfacesColumn, InterfacesLabel);
    PutUnique(c2, LocationsColumn, LocationsLabel);
  }

  /** What the loop keeps true of its state after the columns `cols`, GraphQL columns among them or not. */
  ghost predicate Keeps(cols: Entries, state: (Entries, bool)) {
    && UniqueKeys(state.0)
    && (state.1 <==> LocationColumn in Keys(cols))
    && (forall k | !IsGraphqlColumn(k) :: Get(state.0, k) == Get(cols, k))
    && (state.1 ==> forall k | IsGraphqlColumn(k) :: Get(state.0, k).Some?)
  }

  lemma StepKeeps(p: Entries, state: (Entries, bool), column: (Key, Value))
    requires column.0 !in Keys(p) && Keeps(p, state)
    ensures Keeps(p + [column], Step(state, column))
  {
    var cols := p + [column];
    KeysConcat(p, [column]);
    assert Keys(cols)[|p|] == column.0;
    var c := state.0;
    var c' := Put(c, column.0, column.1);
    PutUnique(c, column.0, column.1);
    forall k ensures Get(c', k) == if k == column.0 then Some(column.1) else Get(c, k) {
      PutGet(c, column.0, column.1, k);
    }
    forall k | !IsGraphqlColumn(k) ensures Get(c', k) == Get(cols, k) {
      GetAppend(p, column, k);
    }
    if column.0 == LocationColumn {
      AddGraphqlColumnsUnique(c');
      forall k {
        AddGraphqlColumnsGet(c', k);
      }
    }
  }

  lemma {:induction false} LoopStateKeeps(cols: Entries)
    requires UniqueKeys(cols)
    ensures Keeps(cols, LoopState(cols))
  {
    if cols != [] {
      var p := cols[..|cols| - 1];
      var last := cols[|cols| - 1];
      assert cols == p + [last];
      assert UniqueKeys(p);
      assert last.0 !in Keys(p) by {
        forall j | 0 <= j < |p| ensures p[j].0 != last.0 {
          assert p[j] == cols[j];
        }
      }
      LoopStateKeeps(p);
      StepKeeps(p, LoopState(p), last);
    }
  }

  /**
   * For every header row, GraphQL columns already in it or not: the result
   * is a proper PHP array, every other input column keeps its label, and the
   * three GraphQL columns are present.
   */
  lemma ColumnHeadersKeepsColumns(cols: Entries)
    requires UniqueKeys(cols)
    ensures UniqueKeys(ColumnHeaders(cols))
    ensures forall k | !IsGraphqlColumn(k) :: Get(ColumnHeaders(cols), k) == Get(cols, k)
    ensures forall k | IsGraphqlColumn(k) :: k in Keys(ColumnHeaders(cols))
  {
    LoopStateKeeps(cols);
    var state := LoopState(cols);
    var r := ColumnHeaders(cols);
    if state.1 {
      assert r == state.0;
    } else {
      assert r == AddGraphqlColumns(state.0);
      AddGraphqlColumnsUnique(state.0);
      forall k | !IsGraphqlColumn(k) ensures Get(r, k) == Get(cols, k) {
        AddGraphqlColumnsGet(state.0, k);
      }
      forall k | IsGraphqlColumn(k) ensures k in Keys(r) {
        AddGraphqlColumnsGet(state.0, k);
      }
    }
  }

  /** Without an `acf-location` column the three GraphQL columns end up with the GraphQL labels. */
  lemma ColumnHeadersLabelsAtEnd(cols: Entries)
    requires UniqueKeys(cols) && LocationColumn !in Keys(cols)
    ensures Get(ColumnHeaders(cols), TypeColumn) == Some(TypeLabel)
    ensures Get(ColumnHeaders(cols), InterfacesColumn) == Some(InterfacesLabel)
    ensures Get(ColumnHeaders(cols), LocationsColumn) == Some(LocationsLabel)
  {
    LoopStateKeeps(cols);
    var state := LoopState(cols);
    AddGraphqlColumnsGet(state.0, TypeColumn);
    AddGraphqlColumnsGet(state.0, InterfacesColumn);
    AddGraphqlColumnsGet(state.0, LocationsColumn);
  }

  /**
   * The GraphQL columns are added once only, never both after `acf-location`
   * and again at the end: a header row without them gains exactly three
   * columns.
   */
  lemma ColumnHeadersAddsThree(cols: Entries)
    requires UniqueKeys(cols) && NoGraphqlColumns(cols)
    ensures |ColumnHeaders(cols)| == |cols| + 3
  {
    ColumnHeadersSpliced(cols);
  }
}
