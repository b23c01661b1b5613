/**
 * `EstadoImportService.import_estados`: one transaction that gathers the
 * regions named by the state records (the last record naming a region
 * wins), creates the regions not stored yet, then creates the states not
 * stored yet, each referencing the region its record names.
 */
module EstadoImport {
  import opened Wrappers
  import opened PyJson
  import opened Schema
  import opened Writer

  /** The JSON types the API gives a state record and its nested region. */
  predicate EstadoTyped(e: Json)
  {
    LeafTypes(e) && LeafTypes(At(e, "regiao"))
  }

  /** `estado['regiao']` and its `['id']`. */
  function RegiaoOf(e: Json): (r: Result<(int, Json), PyError>)
    requires EstadoTyped(e)
    ensures r.Ok? ==> r.value.1 == At(e, "regiao") && Index(r.value.1, "id") == Ok(JInt(r.value.0))
  {
    var r :- Index(e, "regiao");
    var id :- Index(r, "id");
    Ok((id.n, r))
  }

  /** The record names a region: `estado['regiao']['id']` does not raise. */
  predicate NamesRegiao(e: Json)
  {
    Index(e, "regiao").Ok? && Index(Index(e, "regiao").value, "id").Ok?
  }

  /** `regioes_data`: every region record keyed by its id, a later one overwriting an earlier one. */
  function Gather(raw: seq<Json>): (r: Result<map<int, Json>, PyError>)
    requires forall i | 0 <= i < |raw| :: EstadoTyped(raw[i])
    ensures r.Ok? ==> Gathered(r.value)
    decreases |raw|
  {
    if raw == [] then Ok(map[])
    else
      var m :- Gather(raw[..|raw| - 1]);
      var (id, r) :- RegiaoOf(raw[|raw| - 1]);
      Ok(m[id := r])
  }

  /** An exception ends the loop: once a prefix raises, the whole loop raises the same. */
  lemma {:induction false} GatherStops(raw: seq<Json>, n: nat)
    requires forall i | 0 <= i < |raw| :: EstadoTyped(raw[i])
    requires n <= |raw| && Gather(raw[..n]).Err?
    ensures Gather(raw) == Gather(raw[..n])
    decreases |raw|
  {
    if n < |raw| {
      var p := raw[..|raw| - 1];
      assert p[..n] == raw[..n];
      GatherStops(p, n);
    } else {
      assert raw[..n] == raw;
    }
  }

  /** The region record has the two fields `Regiao(...)` reads. */
  predicate Named(r: Json)
  {
    Index(r, "sigla").Ok? && Index(r, "nome").Ok?
  }

  /** A stored region from its record. */
  function RegiaoRow(id: int, r: Json): Regiao
    requires LeafTypes(r) && Named(r)
  {
    Regiao(id, Index(r, "sigla").value.s, Index(r, "nome").value.s)
  }

  /** Every gathered record is a typed dict whose id is its key. */
  predicate Gathered(m: map<int, Json>)
  {
    forall k | k in m :: LeafTypes(m[k]) && Index(m[k], "id") == Ok(JInt(k))
  }

  /** `new_regioes`: `r['sigla']` and `r['nome']` are read only for the regions not stored yet. */
  function NewRegioes(existing: set<int>, m: map<int, Json>): Result<map<int, Regiao>, PyError>
    requires Gathered(m)
  {
    if exists k | k in m && k !in existing :: !Named(m[k]) then Err(KeyError)
    else Ok(map k | k in m && k !in existing :: RegiaoRow(k, m[k]))
  }

  /** `new_estados`, in input order: the records whose id is not stored. */
  function NewEstados(existing: set<int>, raw: seq<Json>): Result<seq<Estado>, PyError>
    requires forall i | 0 <= i < |raw| :: EstadoTyped(raw[i])
    decreases |raw|
  {
    if raw == [] then Ok([])
    else
      var acc :- NewEstados(existing, raw[..|raw| - 1]);
      var e := raw[|raw| - 1];
      assert EstadoTyped(raw[|raw| - 1]);
      var id :- Index(e, "id");
      if id.n in existing then Ok(acc)
      else
        var sigla :- Index(e, "sigla");
        var nome :- Index(e, "nome");
        var (regiaoId, _) :- RegiaoOf(e);
        Ok(acc + [Estado(id.n, sigla.s, nome.s, regiaoId)])
  }

  function EstadoKey(e: Estado): int { e.id }

  /** The `dict` the import returns. */
  datatype EstadoReport = EstadoReport(totalProcessed: nat, createdEstados: nat, createdRegioes: nat)

  /**
   * The writes of `import_estados`, from the gathered regions and the state
   * records: the regions not stored yet, then the states not stored yet.
   */
  function SaveEstados(db: Db, m: map<int, Json>, raw: seq<Json>): Result<(Db, EstadoReport), PyError>
    requires Gathered(m)
    requires forall i | 0 <= i < |raw| :: EstadoTyped(raw[i])
  {
    var newRegioes :- NewRegioes(db.regioes.Keys, m);
    var regioes :- CreateMissing(db.regioes, newRegioes, Int32);
    var estados :- NewEstados(db.estados.Keys, raw);
    var t :- InsertRows(db.estados, estados, EstadoKey, Int32);
    Ok((db.(regioes := regioes, estados := t), EstadoReport(|raw|, |estados|, |newRegioes|)))
  }

  /** `import_estados` over the records the API returned; an exception anywhere rolls both writes back. */
  function ImportEstados(db: Db, raw: seq<Json>): Result<(Db, EstadoReport), PyError>
    requires forall i | 0 <= i < |raw| :: EstadoTyped(raw[i])
  {
    var m :- Gather(raw);
    SaveEstados(db, m, raw)
  }

  // ---- the regions ----

  /** The record names region `k`: `estado['regiao']['id'] == k`. */
  predicate NamesId(e: Json, k: int)
  {
    Index(e, "regiao").Ok? && Index(Index(e, "regiao").value, "id") == Ok(JInt(k))
  }

  /** The first loop completes exactly when every record names a region. */
  lemma {:induction false} GatherOk(raw: seq<Json>)
    requires forall i | 0 <= i < |raw| :: EstadoTyped(raw[i])
    ensures Gather(raw).Ok? <==> forall i | 0 <= i < |raw| :: RegiaoOf(raw[i]).Ok?
    decreases |raw|
  {
    if raw != [] {
      var p := raw[..|raw| - 1];
      assert forall i | 0 <= i < |p| :: p[i] == raw[i];
      GatherOk(p);
    }
  }

  /** One more record: its region is stored under the one id it names, over what the prefix gathered. */
  lemma {:induction false} GatherStep(raw: seq<Json>)
    requires forall i | 0 <= i < |raw| :: EstadoTyped(raw[i])
    requires raw != [] && Gather(raw).Ok?
    ensures Gather(raw[..|raw| - 1]).Ok? && RegiaoOf(raw[|raw| - 1]).Ok?
    ensures Gather(raw).value ==
      Gather(raw[..|raw| - 1]).value[RegiaoOf(raw[|raw| - 1]).value.0 := RegiaoOf(raw[|raw| - 1]).value.1]
    ensures NamesId(raw[|raw| - 1], RegiaoOf(raw[|raw| - 1]).value.0)
  {
  }

  /** A record names one region. */
  lemma {:induction false} NamesOneId(e: Json, k: int, id: int)
    requires NamesId(e, k) && NamesId(e, id)
    ensures k == id
  {
  }

  /** Each gathered id is one a record names. */
  lemma {:induction false} GatherKeysSound(raw: seq<Json>)
    requires forall i | 0 <= i < |raw| :: EstadoTyped(raw[i])
    requires Gather(raw).Ok?
    ensures forall k | k in Gather(raw).value :: exists i | 0 <= i < |raw| :: NamesId(raw[i], k)
    decreases |raw|
  {
    if raw != [] {
      var p := raw[..|raw| - 1];
      assert forall i | 0 <= i < |p| :: p[i] == raw[i];
      GatherStep(raw);
      GatherKeysSound(p);
      var id := RegiaoOf(raw[|p|]).value.0;
      forall k | k in Gather(raw).value ensures exists i | 0 <= i < |raw| :: NamesId(raw[i], k) {
        if k != id {
          assert k in Gather(p).value;
          var i :| 0 <= i < |p| && NamesId(p[i], k);
          assert raw[i] == p[i];
        } else {
          assert NamesId(raw[|p|], k);
        }
      }
    }
  }

  /** Each id a record names is gathered. */
  lemma {:induction false} GatherKeysComplete(raw: seq<Json>)
    requires forall i | 0 <= i < |raw| :: EstadoTyped(raw[i])
    requires Gather(raw).Ok?
    ensures forall i, k | 0 <= i < |raw| && NamesId(raw[i], k) :: k in Gather(raw).value
    decreases |raw|
  {
    if raw != [] {
      var p := raw[..|raw| - 1];
      assert forall i | 0 <= i < |p| :: p[i] == raw[i];
      GatherStep(raw);
      GatherKeysComplete(p);
      var id := RegiaoOf(raw[|p|]).value.0;
      forall i, k | 0 <= i < |raw| && NamesId(raw[i], k) ensures k in Gather(raw).value {
        if i < |p| {
          assert NamesId(p[i], k);
        } else {
          NamesOneId(raw[i], k, id);
        }
      }
    }
  }

  /** The gathered ids are exactly those the records name. */
  lemma {:induction false} GatherKeys(raw: seq<Json>)
    requires forall i | 0 <= i < |raw| :: EstadoTyped(raw[i])
    requires Gather(raw).Ok?
    ensures forall k :: k in Gather(raw).value <==> exists i | 0 <= i < |raw| :: NamesId(raw[i], k)
  {
    GatherKeysSound(raw);
    GatherKeysComplete(raw);
  }

  /** Record `i` is the last record naming region `k`, and `v` is its region. */
  predicate LastNamer(raw: seq<Json>, i: int, k: int, v: Json)
  {
    && 0 <= i < |raw|
    && NamesId(raw[i], k)
    && v == At(raw[i], "regiao")
    && forall j | i < j < |raw| :: !NamesId(raw[j], k)
  }

  /** A record naming another region does not change who is last for `k`. */
  lemma {:induction false} LastNamerExtend(p: seq<Json>, e: Json, i: int, k: int, id: int, v: Json)
    requires LastNamer(p, i, k, v)
    requires NamesId(e, id) && k != id
    ensures LastNamer(p + [e], i, k, v)
  {
    var raw := p + [e];
    forall j | i < j < |raw| ensures !NamesId(raw[j], k) {
      if j < |p| {
        assert raw[j] == p[j];
      } else {
        assert raw[j] == e;
      }
    }
  }

  /** The record kept for an id is the region of the last state record naming it. */
  lemma {:induction false} GatherLastWins(raw: seq<Json>)
    requires forall i | 0 <= i < |raw| :: EstadoTyped(raw[i])
    requires Gather(raw).Ok?
    ensures forall k | k in Gather(raw).value :: exists i :: LastNamer(raw, i, k, Gather(raw).value[k])
    decreases |raw|
  {
    if raw != [] {
      var p := raw[..|raw| - 1];
      var n := |p|;
      assert forall i | 0 <= i < |p| :: p[i] == raw[i];
      assert raw == p + [raw[n]];
      GatherLastWins(p);
      var mp := Gather(p).value;
      var m := Gather(raw).value;
      var (id, r) := RegiaoOf(raw[n]).value;
      assert m == mp[id := r];
      assert NamesId(raw[n], id) && r == At(raw[n], "regiao");
      forall k | k in m ensures exists i :: LastNamer(raw, i, k, m[k]) {
        if k != id {
          var i :| LastNamer(p, i, k, mp[k]);
          LastNamerExtend(p, raw[n], i, k, id, mp[k]);
          assert LastNamer(raw, i, k, m[k]);
        } else {
          assert LastNamer(raw, n, k, m[k]);
        }
      }
    }
  }

  /**
   * Regions to create: exactly the gathered ids not stored, each built from
   * its gathered record; a missing `sigla` or `nome` on one of them raises.
   */
  lemma {:induction false} NewRegioesSpec(existing: set<int>, m: map<int, Json>)
    requires Gathered(m)
    ensures NewRegioes(existing, m).Ok? <==> forall k | k in m && k !in existing :: Named(m[k])
    ensures NewRegioes(existing, m).Err? ==> NewRegioes(existing, m).error == KeyError
    ensures NewRegioes(existing, m).Ok? ==> NewRegioes(existing, m).value.Keys == m.Keys - existing
    ensures NewRegioes(existing, m).Ok? ==> forall k | k in NewRegioes(existing, m).value ::
      NewRegioes(existing, m).value[k] == RegiaoRow(k, m[k]) && NewRegioes(existing, m).value[k].id == k
  {
    if forall k | k in m && k !in existing :: Named(m[k]) {
      var f := NewRegioes(existing, m).value;
      assert f.Keys == m.Keys - existing by {
        forall k | k in m && k !in existing ensures k in f {
        }
      }
    }
  }

  // ---- the states ----

  /** Record `j` yields this state row: its id is not stored and every field comes from the record. */
  predicate Yields(existing: set<int>, e: Json, s: Estado)
    requires EstadoTyped(e)
  {
    && Index(e, "id") == Ok(JInt(s.id)) && s.id !in existing
    && Index(e, "sigla") == Ok(JStr(s.sigla)) && Index(e, "nome") == Ok(JStr(s.nome))
    && RegiaoOf(e).Ok? && RegiaoOf(e).value.0 == s.regiaoId
  }

  /** Every state row to create comes from one record, and none has a stored id. */
  lemma {:induction false} NewEstadosSound(existing: set<int>, raw: seq<Json>)
    requires forall i | 0 <= i < |raw| :: EstadoTyped(raw[i])
    requires NewEstados(existing, raw).Ok?
    ensures |NewEstados(existing, raw).value| <= |raw|
    ensures forall i | 0 <= i < |NewEstados(existing, raw).value| ::
      exists j | 0 <= j < |raw| :: Yields(existing, raw[j], NewEstados(existing, raw).value[i])
    decreases |raw|
  {
    if raw != [] {
      var p := raw[..|raw| - 1];
      assert forall i | 0 <= i < |p| :: p[i] == raw[i];
      NewEstadosSound(existing, p);
      var acc := NewEstados(existing, p).value;
      var out := NewEstados(existing, raw).value;
      var e := raw[|p|];
      assert EstadoTyped(e);
      forall i | 0 <= i < |out| ensures exists j | 0 <= j < |raw| :: Yields(existing, raw[j], out[i]) {
        if i < |acc| {
          var j :| 0 <= j < |p| && Yields(existing, p[j], acc[i]);
          assert out[i] == acc[i];
        } else {
          assert Yields(existing, raw[|p|], out[i]);
        }
      }
      assert forall i | 0 <= i < |out| :: exists j | 0 <= j < |raw| :: Yields(existing, raw[j], out[i]);
    } else {
      assert NewEstados(existing, raw).value == [];
    }
  }

  /** Every record whose id is not stored gives a state row to create with that id. */
  lemma {:induction false} NewEstadosComplete(existing: set<int>, raw: seq<Json>, j: int, n: int)
    requires forall i | 0 <= i < |raw| :: EstadoTyped(raw[i])
    requires NewEstados(existing, raw).Ok? && 0 <= j < |raw|
    requires Index(raw[j], "id") == Ok(JInt(n)) && n !in existing
    ensures exists i | 0 <= i < |NewEstados(existing, raw).value| :: NewEstados(existing, raw).value[i].id == n
    decreases |raw|
  {
    var p := raw[..|raw| - 1];
    assert forall i | 0 <= i < |p| :: p[i] == raw[i];
    var acc := NewEstados(existing, p).value;
    var out := NewEstados(existing, raw).value;
    if j < |p| {
      NewEstadosComplete(existing, p, j, n);
      var i :| 0 <= i < |acc| && acc[i].id == n;
      assert out[..|acc|] == acc;
      assert out[i] == acc[i];
    } else {
      assert out[|acc|].id == n;
    }
  }

  /** Nothing is created when every record's id is stored. */
  lemma {:induction false} NewEstadosNone(existing: set<int>, raw: seq<Json>)
    requires forall i | 0 <= i < |raw| :: EstadoTyped(raw[i])
    requires forall i | 0 <= i < |raw| :: Index(raw[i], "id").Ok? && Index(raw[i], "id").value.JInt? && Index(raw[i], "id").value.n in existing
    ensures NewEstados(existing, raw) == Ok([])
    decreases |raw|
  {
    if raw != [] {
      var p := raw[..|raw| - 1];
      assert forall i | 0 <= i < |p| :: p[i] == raw[i];
      NewEstadosNone(existing, p);
    }
  }

  /** A record that `new_estados` reads has an integer id. */
  lemma {:induction false} NewEstadosIds(existing: set<int>, raw: seq<Json>)
    requires forall i | 0 <= i < |raw| :: EstadoTyped(raw[i])
    requires NewEstados(existing, raw).Ok?
    ensures forall i | 0 <= i < |raw| :: Index(raw[i], "id").Ok? && Index(raw[i], "id").value.JInt?
    decreases |raw|
  {
    if raw != [] {
      var p := raw[..|raw| - 1];
      assert forall i | 0 <= i < |p| :: p[i] == raw[i];
      NewEstadosIds(existing, p);
      assert EstadoTyped(raw[|p|]);
    }
  }

  // ---- the transaction ----

  /** What a successful import wrote: the gathered regions, the region rows and state rows to create. */
  lemma {:induction false} ImportEstadosParts(db: Db, raw: seq<Json>)
    requires forall i | 0 <= i < |raw| :: EstadoTyped(raw[i])
    requires ImportEstados(db, raw).Ok?
    ensures Gather(raw).Ok?
    ensures NewRegioes(db.regioes.Keys, Gather(raw).value).Ok?
    ensures CreateMissing(db.regioes, NewRegioes(db.regioes.Keys, Gather(raw).value).value, Int32).Ok?
    ensures NewEstados(db.estados.Keys, raw).Ok?
    ensures InsertRows(db.estados, NewEstados(db.estados.Keys, raw).value, EstadoKey, Int32).Ok?
    ensures ImportEstados(db, raw).value.0 == db.(
      regioes := CreateMissing(db.regioes, NewRegioes(db.regioes.Keys, Gather(raw).value).value, Int32).value,
      estados := InsertRows(db.estados, NewEstados(db.estados.Keys, raw).value, EstadoKey, Int32).value)
    ensures ImportEstados(db, raw).value.1 == EstadoReport(|raw|, |NewEstados(db.estados.Keys, raw).value|,
      |NewRegioes(db.regioes.Keys, Gather(raw).value).value|)
  {
  }

  /** `g` is the region row built from the last record naming region `k`. */
  predicate BuiltFromLast(raw: seq<Json>, k: int, g: Regiao)
  {
    && g.id == k
    && exists i | 0 <= i < |raw| ::
      && LastNamer(raw, i, k, At(raw[i], "regiao"))
      && Index(At(raw[i], "regiao"), "sigla") == Ok(JStr(g.sigla))
      && Index(At(raw[i], "regiao"), "nome") == Ok(JStr(g.nome))
  }

  lemma {:induction false} RowFromLast(raw: seq<Json>, i: int, k: int, v: Json)
    requires LastNamer(raw, i, k, v) && LeafTypes(v) && Named(v)
    ensures BuiltFromLast(raw, k, RegiaoRow(k, v))
  {
    assert v == At(raw[i], "regiao");
  }

  /** Each region row the import adds is built from the last record naming it. */
  lemma {:induction false} NewRegioesBuilt(table: map<int, Regiao>, raw: seq<Json>, m: map<int, Json>,
                                           nr: map<int, Regiao>, regioes: map<int, Regiao>)
    requires forall i | 0 <= i < |raw| :: EstadoTyped(raw[i])
    requires Gather(raw) == Ok(m) && NewRegioes(table.Keys, m) == Ok(nr) && CreateMissing(table, nr, Int32) == Ok(regioes)
    ensures forall k | k in regioes && k !in table :: Fits(k, Int32) && BuiltFromLast(raw, k, regioes[k])
  {
    GatherLastWins(raw);
    NewRegioesSpec(table.Keys, m);
    forall k | k in regioes && k !in table ensures Fits(k, Int32) && BuiltFromLast(raw, k, regioes[k]) {
      assert k in nr && regioes[k] == nr[k] == RegiaoRow(k, m[k]);
      var i :| LastNamer(raw, i, k, m[k]);
      RowFromLast(raw, i, k, m[k]);
    }
  }

  /** The region table the import writes, from the gathered records. */
  lemma {:induction false} RegioesWritten(table: map<int, Regiao>, raw: seq<Json>, m: map<int, Json>,
                                          nr: map<int, Regiao>, regioes: map<int, Regiao>)
    requires forall i | 0 <= i < |raw| :: EstadoTyped(raw[i])
    requires Gather(raw) == Ok(m) && NewRegioes(table.Keys, m) == Ok(nr) && CreateMissing(table, nr, Int32) == Ok(regioes)
    ensures SubMap(table, regioes)
    ensures forall k :: k in regioes <==> k in table || exists i | 0 <= i < |raw| :: NamesId(raw[i], k)
    ensures forall k | k in regioes && k !in table :: Fits(k, Int32) && BuiltFromLast(raw, k, regioes[k])
    ensures |regioes| == |table| + |nr|
  {
    GatherKeys(raw);
    NewRegioesSpec(table.Keys, m);
    NewRegioesBuilt(table, raw, m, nr, regioes);
    assert table.Keys !! nr.Keys;
    DisjointSize(table, nr, regioes);
  }

  /** The state table the import writes, from the state rows to create. */
  lemma {:induction false} EstadosWritten(table: map<int, Estado>, raw: seq<Json>, es: seq<Estado>, t: map<int, Estado>)
    requires forall i | 0 <= i < |raw| :: EstadoTyped(raw[i])
    requires NewEstados(table.Keys, raw) == Ok(es) && InsertRows(table, es, EstadoKey, Int32) == Ok(t)
    ensures SubMap(table, t)
    ensures forall j, n | 0 <= j < |raw| && Index(raw[j], "id") == Ok(JInt(n)) :: n in t
    ensures forall k | k in t && k !in table ::
      && t[k].id == k && Fits(k, Int32)
      && exists j | 0 <= j < |raw| :: Yields(table.Keys, raw[j], t[k])
    ensures |t| == |table| + |es|
  {
    InsertRowsContents(table, es, EstadoKey, Int32);
    InsertRowsNew(table, es, EstadoKey, Int32);
    NewEstadosSound(table.Keys, raw);
    forall j, n | 0 <= j < |raw| && Index(raw[j], "id") == Ok(JInt(n)) ensures n in t {
      if n !in table {
        NewEstadosComplete(table.Keys, raw, j, n);
        var i :| 0 <= i < |es| && es[i].id == n;
        assert EstadoKey(es[i]) in t;
      }
    }
    forall k | k in t && k !in table
      ensures t[k].id == k && Fits(k, Int32) && exists j | 0 <= j < |raw| :: Yields(table.Keys, raw[j], t[k])
    {
      var i :| 0 <= i < |es| && EstadoKey(es[i]) == k && t[k] == es[i] && Fits(k, Int32);
      var j :| 0 <= j < |raw| && Yields(table.Keys, raw[j], es[i]);
    }
  }

  /**
   * The stored regions afterwards are the old ones plus every region a
   * record names, and each region that was not stored is built from the
   * last record naming it.
   */
  lemma {:induction false} ImportEstadosRegioes(db: Db, raw: seq<Json>)
    requires forall i | 0 <= i < |raw| :: EstadoTyped(raw[i])
    requires ImportEstados(db, raw).Ok?
    ensures SubMap(db.regioes, ImportEstados(db, raw).value.0.regioes)
    ensures forall k :: k in ImportEstados(db, raw).value.0.regioes <==>
      k in db.regioes || exists i | 0 <= i < |raw| :: NamesId(raw[i], k)
    ensures forall k | k in ImportEstados(db, raw).value.0.regioes && k !in db.regioes ::
      BuiltFromLast(raw, k, ImportEstados(db, raw).value.0.regioes[k])
    ensures |ImportEstados(db, raw).value.0.regioes| == |db.regioes| + ImportEstados(db, raw).value.1.createdRegioes
  {
    ImportEstadosParts(db, raw);
    var m := Gather(raw).value;
    var nr := NewRegioes(db.regioes.Keys, m).value;
    RegioesWritten(db.regioes, raw, m, nr, CreateMissing(db.regioes, nr, Int32).value);
  }

  /**
   * The stored states afterwards are the old ones plus one per record whose
   * id was not stored, each built from a record.
   */
  lemma {:induction false} ImportEstadosEstados(db: Db, raw: seq<Json>)
    requires forall i | 0 <= i < |raw| :: EstadoTyped(raw[i])
    requires ImportEstados(db, raw).Ok?
    ensures SubMap(db.estados, ImportEstados(db, raw).value.0.estados)
    ensures forall j, n | 0 <= j < |raw| && Index(raw[j], "id") == Ok(JInt(n)) :: n in ImportEstados(db, raw).value.0.estados
    ensures forall k | k in ImportEstados(db, raw).value.0.estados && k !in db.estados ::
      exists j | 0 <= j < |raw| :: Yields(db.estados.Keys, raw[j], ImportEstados(db, raw).value.0.estados[k])
    ensures |ImportEstados(db, raw).value.0.estados| == |db.estados| + ImportEstados(db, raw).value.1.createdEstados
  {
    ImportEstadosParts(db, raw);
    var es := NewEstados(db.estados.Keys, raw).value;
    EstadosWritten(db.estados, raw, es, InsertRows(db.estados, es, EstadoKey, Int32).value);
  }

  /** A state row built from a record references the region the record names. */
  lemma {:induction false} YieldsNames(existing: set<int>, e: Json, s: Estado)
    requires EstadoTyped(e) && Yields(existing, e, s)
    ensures NamesId(e, s.regiaoId)
  {
  }

  /**
   * The import keeps every integrity constraint and the districts' match
   * with their chains, keeps every stored row, and writes only the region
   * and state tables.
   */
  lemma {:induction false} ImportEstadosValid(db: Db, raw: seq<Json>)
    requires forall i | 0 <= i < |raw| :: EstadoTyped(raw[i])
    requires Valid(db) && ImportEstados(db, raw).Ok?
    ensures Valid(ImportEstados(db, raw).value.0)
    ensures Extends(db, ImportEstados(db, raw).value.0)
    ensures Denormalized(db) ==> Denormalized(ImportEstados(db, raw).value.0)
    ensures ImportEstados(db, raw).value.0 == db.(regioes := ImportEstados(db, raw).value.0.regioes,
                                                  estados := ImportEstados(db, raw).value.0.estados)
  {
    ImportEstadosParts(db, raw);
    var m := Gather(raw).value;
    var nr := NewRegioes(db.regioes.Keys, m).value;
    var regioes := CreateMissing(db.regioes, nr, Int32).value;
    var es := NewEstados(db.estados.Keys, raw).value;
    var t := InsertRows(db.estados, es, EstadoKey, Int32).value;
    RegioesWritten(db.regioes, raw, m, nr, regioes);
    EstadosWritten(db.estados, raw, es, t);
    var r := db.(regioes := regioes, estados := t);
    assert ImportEstados(db, raw).value.0 == r;
    forall k | k in regioes ensures regioes[k].id == k && Fits(k, Int32) {
    }
    forall k | k in t ensures t[k].id == k && Fits(k, Int32) && t[k].regiaoId in regioes {
      if k !in db.estados {
        var j :| 0 <= j < |raw| && Yields(db.estados.Keys, raw[j], t[k]);
        YieldsNames(db.estados.Keys, raw[j], t[k]);
      }
    }
    TwoTablesValid(db, regioes, t);
    if Denormalized(db) {
      ExtendsKeepsDenormalized(db, r);
    }
  }

  /** New region and state rows that are keyed right, fit and reference stored regions keep the store valid. */
  lemma {:induction false} TwoTablesValid(db: Db, regioes: map<int, Regiao>, estados: map<int, Estado>)
    requires Valid(db) && SubMap(db.regioes, regioes) && SubMap(db.estados, estados)
    requires forall k | k in regioes :: regioes[k].id == k && Fits(k, Int32)
    requires forall k | k in estados :: estados[k].id == k && Fits(k, Int32) && estados[k].regiaoId in regioes
    ensures Valid(db.(regioes := regioes, estados := estados))
    ensures Extends(db, db.(regioes := regioes, estados := estados))
  {
    var r := db.(regioes := regioes, estados := estados);
    assert KeysMatch(r) && KeysFit(r);
    assert UfRefs(r) && EstadoRefs(r);
    assert IntermediariaRefs(r) && ImediataRefs(r) && MesoRefs(r) && MicroRefs(r);
    assert MunicipioRefs(r) by {
      forall k | k in r.municipios ensures MunicipioRefsOk(r, r.municipios[k]) {
        assert MunicipioRefsOk(db, db.municipios[k]);
      }
    }
    assert DistritoRefs(r) by {
      forall k | k in r.distritos ensures DistritoRefsOk(r, r.distritos[k]) {
        assert DistritoRefsOk(db, db.distritos[k]);
      }
    }
  }

  /** No region is created when every gathered id is stored. */
  lemma {:induction false} NewRegioesNone(existing: set<int>, m: map<int, Json>)
    requires Gathered(m) && m.Keys <= existing
    ensures NewRegioes(existing, m) == Ok(map[])
  {
    NewRegioesSpec(existing, m);
  }

  /**
   * Running the import again on the same records right after it succeeded
   * writes nothing and reports nothing created.
   */
  lemma {:induction false} ImportEstadosIdempotent(db: Db, raw: seq<Json>)
    requires forall i | 0 <= i < |raw| :: EstadoTyped(raw[i])
    requires ImportEstados(db, raw).Ok?
    ensures ImportEstados(ImportEstados(db, raw).value.0, raw) ==
      Ok((ImportEstados(db, raw).value.0, ImportEstados(db, raw).value.1.(createdEstados := 0, createdRegioes := 0)))
  {
    ImportEstadosParts(db, raw);
    var m := Gather(raw).value;
    var nr := NewRegioes(db.regioes.Keys, m).value;
    var regioes := CreateMissing(db.regioes, nr, Int32).value;
    var es := NewEstados(db.estados.Keys, raw).value;
    var t := InsertRows(db.estados, es, EstadoKey, Int32).value;
    RegioesWritten(db.regioes, raw, m, nr, regioes);
    EstadosWritten(db.estados, raw, es, t);
    GatherKeys(raw);
    NewRegioesNone(regioes.Keys, m);
    CreateMissingEmpty(regioes, Int32);
    NewEstadosIds(db.estados.Keys, raw);
    NewEstadosNone(t.Keys, raw);
    var r := db.(regioes := regioes, estados := t);
    assert ImportEstados(db, raw).value == (r, EstadoReport(|raw|, |es|, |nr|));
    assert InsertRows(t, [], EstadoKey, Int32) == Ok(t);
    assert r.(regioes := regioes, estados := t) == r;
  }

  /** A record without a region, or a region without an id, aborts the whole import. */
  lemma {:induction false} ImportEstadosNoRegiao(db: Db, raw: seq<Json>, i: int)
    requires forall i | 0 <= i < |raw| :: EstadoTyped(raw[i])
    requires 0 <= i < |raw| && !NamesRegiao(raw[i])
    ensures ImportEstados(db, raw).Err?
  {
    GatherOk(raw);
    assert RegiaoOf(raw[i]).Err?;
  }

  /** Two new records with the same id make `bulk_create` fail, so nothing is written. */
  lemma {:induction false} ImportEstadosRepeatedId(db: Db, raw: seq<Json>, i: int, j: int, n: int)
    requires forall i | 0 <= i < |raw| :: EstadoTyped(raw[i])
    requires 0 <= i < j < |raw| && Index(raw[i], "id") == Ok(JInt(n)) && Index(raw[j], "id") == Ok(JInt(n))
    requires n !in db.estados
    ensures ImportEstados(db, raw).Err?
  {
    if ImportEstados(db, raw).Ok? {
      ImportEstadosParts(db, raw);
      var es := NewEstados(db.estados.Keys, raw).value;
      NewEstadosTwice(db.estados.Keys, raw, i, j, n);
      InsertRowsOk(db.estados, es, EstadoKey, Int32);
      assert false;
    }
  }

  /** Two records with the same new id give two rows with that id. */
  lemma {:induction false} NewEstadosTwice(existing: set<int>, raw: seq<Json>, i: int, j: int, n: int)
    requires forall i | 0 <= i < |raw| :: EstadoTyped(raw[i])
    requires NewEstados(existing, raw).Ok?
    requires 0 <= i < j < |raw| && Index(raw[i], "id") == Ok(JInt(n)) && Index(raw[j], "id") == Ok(JInt(n))
    requires n !in existing
    ensures exists a, b | 0 <= a < b < |NewEstados(existing, raw).value| ::
      NewEstados(existing, raw).value[a].id == n && NewEstados(existing, raw).value[b].id == n
    decreases |raw|
  {
    var p := raw[..|raw| - 1];
    assert forall k | 0 <= k < |p| :: p[k] == raw[k];
    var acc := NewEstados(existing, p).value;
    var out := NewEstados(existing, raw).value;
    assert out[..|acc|] == acc;
    if j < |p| {
      NewEstadosTwice(existing, p, i, j, n);
      var a, b :| 0 <= a < b < |acc| && acc[a].id == n && acc[b].id == n;
      assert out[a] == acc[a] && out[b] == acc[b];
    } else {
      NewEstadosComplete(existing, p, i, n);
      var a :| 0 <= a < |acc| && acc[a].id == n;
      assert out[a] == acc[a];
      assert out[|acc|].id == n;
    }
  }
}
