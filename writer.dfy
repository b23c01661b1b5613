/**
 * The two ways the import writes a table: `bulk_create` of a list of new
 * rows, and the `_bulk_create_*` pattern that keeps only the candidates
 * whose id is not stored yet and bulk-creates those.
 */
module Writer {
  import opened Wrappers
  import opened PyJson
  import opened Schema
  import opened Validation

  predicate FreshKeys<R>(table: map<int, R>, rows: seq<R>, key: R -> int, w: Width)
  {
    forall i | 0 <= i < |rows| :: key(rows[i]) !in table && Fits(key(rows[i]), w)
  }

  predicate DistinctKeys<R>(rows: seq<R>, key: R -> int)
  {
    forall i, j | 0 <= i < j < |rows| :: key(rows[i]) != key(rows[j])
  }

  /**
   * `bulk_create(rows)`: every row is inserted, or the statement fails,
   * as it does on a primary key that is already stored, repeated in the
   * batch, or outside the column's range.
   */
  function InsertRows<R>(table: map<int, R>, rows: seq<R>, key: R -> int, w: Width): (r: Result<map<int, R>, PyError>)
    decreases |rows|
    ensures r.Err? ==> r.error == DatabaseError
  {
    if rows == [] then Ok(table)
    else
      var t :- InsertRows(table, rows[..|rows| - 1], key, w);
      var row := rows[|rows| - 1];
      if key(row) in t || !Fits(key(row), w) then Err(DatabaseError) else Ok(t[key(row) := row])
  }

  /** The keys of a list of rows. */
  function KeySet<R>(rows: seq<R>, key: R -> int): (ks: set<int>)
    ensures forall i | 0 <= i < |rows| :: key(rows[i]) in ks
    ensures forall k | k in ks :: exists i | 0 <= i < |rows| :: key(rows[i]) == k
  {
    set i | 0 <= i < |rows| :: key(rows[i])
  }

  /** Splitting off the last row of the key conditions. */
  lemma {:induction false} KeysLast<R>(table: map<int, R>, rows: seq<R>, key: R -> int, w: Width)
    requires rows != []
    ensures var p, row := rows[..|rows| - 1], rows[|rows| - 1];
      (FreshKeys(table, rows, key, w) && DistinctKeys(rows, key)) <==>
      (FreshKeys(table, p, key, w) && DistinctKeys(p, key)
       && key(row) !in table && Fits(key(row), w) && key(row) !in KeySet(p, key))
    ensures KeySet(rows, key) == KeySet(rows[..|rows| - 1], key) + {key(rows[|rows| - 1])}
  {
    var p, row := rows[..|rows| - 1], rows[|rows| - 1];
    assert forall i | 0 <= i < |p| :: p[i] == rows[i];
    var ks, ks' := KeySet(p, key), KeySet(rows, key);
    forall x | x in ks' ensures x in ks + {key(row)} {
      var i :| 0 <= i < |rows| && key(rows[i]) == x;
      if i < |p| { assert p[i] == rows[i]; }
    }
  }

  /** The insert succeeds exactly when every key is new, fits its column and occurs once; it adds exactly those keys. */
  lemma {:induction false} InsertRowsOk<R>(table: map<int, R>, rows: seq<R>, key: R -> int, w: Width)
    ensures InsertRows(table, rows, key, w).Ok? <==> FreshKeys(table, rows, key, w) && DistinctKeys(rows, key)
    ensures InsertRows(table, rows, key, w).Ok? ==>
      InsertRows(table, rows, key, w).value.Keys == table.Keys + KeySet(rows, key)
    decreases |rows|
  {
    if rows != [] {
      var p := rows[..|rows| - 1];
      InsertRowsOk(table, p, key, w);
      KeysLast(table, rows, key, w);
    }
  }

  /** A successful insert keeps every stored row, stores every given row and grows the table by their number. */
  lemma {:induction false} InsertRowsContents<R>(table: map<int, R>, rows: seq<R>, key: R -> int, w: Width)
    requires InsertRows(table, rows, key, w).Ok?
    ensures SubMap(table, InsertRows(table, rows, key, w).value)
    ensures forall i | 0 <= i < |rows| ::
      key(rows[i]) in InsertRows(table, rows, key, w).value && InsertRows(table, rows, key, w).value[key(rows[i])] == rows[i]
    ensures |InsertRows(table, rows, key, w).value| == |table| + |rows|
    decreases |rows|
  {
    if rows != [] {
      var p := rows[..|rows| - 1];
      InsertRowsContents(table, p, key, w);
      var t := InsertRows(table, p, key, w).value;
      var r := InsertRows(table, rows, key, w).value;
      assert r == t[key(rows[|rows| - 1]) := rows[|rows| - 1]];
      forall i | 0 <= i < |rows| ensures key(rows[i]) in r && r[key(rows[i])] == rows[i] {
        if i < |p| { assert rows[i] == p[i]; }
      }
    }
  }

  /** Inserting a list in consecutive batches is inserting it at once. */
  lemma {:induction false} InsertRowsSplit<R>(table: map<int, R>, a: seq<R>, b: seq<R>, key: R -> int, w: Width)
    ensures InsertRows(table, a + b, key, w) ==
      (match InsertRows(table, a, key, w)
       case Err(e) => Err(e)
       case Ok(t) => InsertRows(t, b, key, w))
    decreases |b|
  {
    if b == [] {
      assert a + b == a;
    } else {
      var b' := b[..|b| - 1];
      assert (a + b)[..|a + b| - 1] == a + b';
      assert (a + b)[|a + b| - 1] == b[|b| - 1];
      InsertRowsSplit(table, a, b', key, w);
    }
  }

  /** A key the insert added belongs to one of the rows, fits its column and holds that row. */
  lemma {:induction false} InsertRowsNew<R>(table: map<int, R>, rows: seq<R>, key: R -> int, w: Width)
    requires InsertRows(table, rows, key, w).Ok?
    ensures forall k | k in InsertRows(table, rows, key, w).value && k !in table ::
      exists i | 0 <= i < |rows| :: key(rows[i]) == k && InsertRows(table, rows, key, w).value[k] == rows[i] && Fits(k, w)
  {
    InsertRowsOk(table, rows, key, w);
    InsertRowsContents(table, rows, key, w);
  }

  /** The candidates of one level whose id is not stored yet. */
  function Fresh<R, S>(table: map<int, R>, cands: map<int, S>): (f: map<int, S>)
    ensures f.Keys == cands.Keys - table.Keys
    ensures forall k | k in f :: f[k] == cands[k]
  {
    map k | k in cands && k !in table :: cands[k]
  }

  /**
   * A `_bulk_create_*` helper on a level whose candidates are complete rows:
   * exactly the candidates whose id is not stored are inserted, and rows
   * already stored are left as they are.
   */
  function CreateMissing<R>(table: map<int, R>, cands: map<int, R>, w: Width): (r: Result<map<int, R>, PyError>)
    ensures r.Ok? <==> forall k | k in cands && k !in table :: Fits(k, w)
    ensures r.Err? ==> r.error == DatabaseError
    ensures r.Ok? ==> r.value.Keys == table.Keys + cands.Keys
    ensures r.Ok? ==> SubMap(table, r.value)
    ensures r.Ok? ==> forall k | k in cands && k !in table :: r.value[k] == cands[k]
  {
    var f := Fresh(table, cands);
    if exists k | k in f :: !Fits(k, w) then Err(DatabaseError) else Ok(table + f)
  }

  /** A table whose keys are those of two disjoint tables has as many rows as both. */
  lemma {:induction false} DisjointSize<R>(a: map<int, R>, b: map<int, R>, c: map<int, R>)
    requires c.Keys == a.Keys + b.Keys && a.Keys !! b.Keys
    ensures |c| == |a| + |b|
  {
    assert |c.Keys| == |a.Keys| + |b.Keys|;
  }

  /** Empty input changes nothing. */
  lemma {:induction false} CreateMissingEmpty<R>(table: map<int, R>, w: Width)
    ensures CreateMissing(table, map[], w) == Ok(table)
  {
    assert table + Fresh(table, map[]) == table;
  }

  /** Running a helper a second time on the same input inserts nothing. */
  lemma {:induction false} CreateMissingIdempotent<R>(table: map<int, R>, cands: map<int, R>, w: Width)
    requires CreateMissing(table, cands, w).Ok?
    ensures CreateMissing(CreateMissing(table, cands, w).value, cands, w) == CreateMissing(table, cands, w)
  {
    var t := CreateMissing(table, cands, w).value;
    assert Fresh(t, cands) == map[];
    assert t + Fresh(t, cands) == t;
  }

  /** A stored immediate region from its fragment: NOT NULL rejects an unknown intermediate region. */
  function Complete(f: ImediataFragment): RegiaoImediata
    requires f.regiaoIntermediariaId.Some?
  {
    RegiaoImediata(f.id, f.nome, f.regiaoIntermediariaId.value)
  }

  function Completed(f: map<int, ImediataFragment>): (c: map<int, RegiaoImediata>)
    requires forall k | k in f :: f[k].regiaoIntermediariaId.Some?
    ensures c.Keys == f.Keys
    ensures forall k | k in c :: c[k] == Complete(f[k])
  {
    map k | k in f :: Complete(f[k])
  }

  predicate Insertable(f: ImediataFragment, k: int)
  {
    f.regiaoIntermediariaId.Some? && Fits(k, Int32)
  }

  /** `_bulk_create_regioes_imediatas`: a new fragment without an intermediate region fails the insert. */
  function CreateMissingImediatas(table: map<int, RegiaoImediata>, cands: map<int, ImediataFragment>): (r: Result<map<int, RegiaoImediata>, PyError>)
    ensures r.Ok? <==> forall k | k in cands && k !in table :: Insertable(cands[k], k)
    ensures r.Err? ==> r.error == DatabaseError
    ensures r.Ok? ==> r.value.Keys == table.Keys + cands.Keys
    ensures r.Ok? ==> SubMap(table, r.value)
    ensures r.Ok? ==> forall k | k in cands && k !in table ::
      r.value[k] == RegiaoImediata(cands[k].id, cands[k].nome, cands[k].regiaoIntermediariaId.value)
  {
    var f := Fresh(table, cands);
    if exists k | k in f :: !Insertable(f[k], k) then Err(DatabaseError)
    else Ok(table + Completed(f))
  }

  lemma {:induction false} CreateMissingImediatasIdempotent(table: map<int, RegiaoImediata>, cands: map<int, ImediataFragment>)
    requires CreateMissingImediatas(table, cands).Ok?
    ensures CreateMissingImediatas(CreateMissingImediatas(table, cands).value, cands) == CreateMissingImediatas(table, cands)
  {
    var t := CreateMissingImediatas(table, cands).value;
    assert Fresh(t, cands) == map[];
    var f := Fresh(t, cands);
    assert f == map[];
    assert Completed(f) == map[];
    assert t + Completed(f) == t;
  }
}
