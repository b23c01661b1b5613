/**
 * The import services as they run against the database: a `Store` object
 * whose nine tables are updated in place, with one method per operation of
 * `MunicipioImportService`, `DistritoImportService` and
 * `EstadoImportService`. Each method does what the source does step by
 * step (its loops, its early exits on an exception, its batches) and is
 * proved to leave the tables and return the report that the corresponding
 * function of `MunicipioImport`, `DistritoImport` or `EstadoImport`
 * computes; a `transaction.atomic` block that raises puts back the tables
 * as they were when it was entered.
 */
module Persistence {
  import opened Wrappers
  import opened PyJson
  import opened Schema
  import opened Validation
  import opened Writer
  import opened Merging
  import opened MunicipioImport
  import opened DistritoImport
  import opened EstadoImport

  /** `bulk_create` batch size of every service. */
  const BatchSize: nat := 500

  function Min(a: int, b: int): int { if a <= b then a else b }

  /** What the caller of an import sees: the report, or the exception it raised. */
  function Outcome<T>(r: Result<(Db, T), PyError>): Result<T, PyError>
  {
    match r
    case Ok((_, rep)) => Ok(rep)
    case Err(e) => Err(e)
  }

  /** The loop of `_create_hierarchy_objects` that fills the six level dicts, a later fragment overwriting an earlier one. */
  method MergeFragments(items: seq<Item>) returns (l: Levels)
    ensures l == Merge(items)
  {
    var regioesData: map<int, Regiao> := map[];
    var ufsData: map<int, Uf> := map[];
    var intermediariasData: map<int, RegiaoIntermediaria> := map[];
    var imediatasData: map<int, ImediataFragment> := map[];
    var mesorregioesData: map<int, Mesorregiao> := map[];
    var microrregioesData: map<int, Microrregiao> := map[];
    for i := 0 to |items|
      invariant Levels(regioesData, ufsData, intermediariasData, imediatasData, mesorregioesData, microrregioesData)
        == Merge(items[..i])
    {
      var h := items[i].hierarchy;
      if h.regiao.Some? {
        regioesData := regioesData[h.regiao.value.id := h.regiao.value];
      }
      if h.uf.Some? {
        ufsData := ufsData[h.uf.value.id := h.uf.value];
      }
      if h.regiaoIntermediaria.Some? {
        intermediariasData := intermediariasData[h.regiaoIntermediaria.value.id := h.regiaoIntermediaria.value];
      }
      if h.regiaoImediata.Some? {
        imediatasData := imediatasData[h.regiaoImediata.value.id := h.regiaoImediata.value];
      }
      if h.mesorregiao.Some? {
        mesorregioesData := mesorregioesData[h.mesorregiao.value.id := h.mesorregiao.value];
      }
      if h.microrregiao.Some? {
        microrregioesData := microrregioesData[h.microrregiao.value.id := h.microrregiao.value];
      }
      assert items[..i + 1][..i] == items[..i];
      MergeStep(items[..i + 1]);
    }
    assert items[..|items|] == items;
    l := Levels(regioesData, ufsData, intermediariasData, imediatasData, mesorregioesData, microrregioesData);
  }

  /** The loop of `import_municipios` that keeps a validated record and its hierarchy, skipping a ValidationError. */
  method CollectRecords(raw: seq<Json>) returns (r: Result<seq<Item>, PyError>)
    requires forall i | 0 <= i < |raw| :: MunicipioTyped(raw[i])
    ensures r == Collect(raw)
  {
    var validMunicipios: seq<Item> := [];
    for i := 0 to |raw|
      invariant Collect(raw[..i]) == Ok(validMunicipios)
    {
      assert raw[..i + 1][..i] == raw[..i];
      var municipioData := ValidateMunicipio(raw[i]);
      if municipioData.Err? {
        if !municipioData.error.ValidationError? {
          CollectStops(raw, i + 1);
          return Err(municipioData.error);
        }
      } else {
        var hierarchy := ExtractHierarchy(raw[i]);
        if hierarchy.Err? {
          CollectStops(raw, i + 1);
          return Err(hierarchy.error);
        }
        validMunicipios := validMunicipios + [Item(municipioData.value, hierarchy.value)];
      }
    }
    assert raw[..|raw|] == raw;
    return Ok(validMunicipios);
  }

  /** The loop of `import_distritos` that fills `distritos_to_create`. */
  method QueueRecords(db: Db, existing: set<int>, raw: seq<Json>) returns (r: Result<seq<Pending>, PyError>)
    requires Valid(db)
    ensures r == Queue(db, existing, raw)
  {
    var distritosToCreate: seq<Pending> := [];
    for i := 0 to |raw|
      invariant Queue(db, existing, raw[..i]) == Ok(distritosToCreate)
    {
      assert raw[..i + 1][..i] == raw[..i];
      var c := Classify(db, existing, raw[i]);
      if c.Err? {
        QueueStops(db, existing, raw, i + 1);
        return Err(c.error);
      }
      if c.value.Some? {
        distritosToCreate := distritosToCreate + [c.value.value];
      }
    }
    assert raw[..|raw|] == raw;
    return Ok(distritosToCreate);
  }

  /** The loop of `import_estados` that fills `regioes_data`, a later record overwriting an earlier one. */
  method GatherRegioes(raw: seq<Json>) returns (r: Result<map<int, Json>, PyError>)
    requires forall i | 0 <= i < |raw| :: EstadoTyped(raw[i])
    ensures r == Gather(raw)
  {
    var regioesData: map<int, Json> := map[];
    for i := 0 to |raw|
      invariant Gather(raw[..i]) == Ok(regioesData)
    {
      assert raw[..i + 1][..i] == raw[..i];
      var regiaoData := Index(raw[i], "regiao");
      if regiaoData.Err? {
        GatherStops(raw, i + 1);
        return Err(regiaoData.error);
      }
      var id := Index(regiaoData.value, "id");
      if id.Err? {
        GatherStops(raw, i + 1);
        return Err(id.error);
      }
      regioesData := regioesData[id.value.n := regiaoData.value];
    }
    assert raw[..|raw|] == raw;
    return Ok(regioesData);
  }

  class Store {
    var regioes: map<int, Regiao>
    var ufs: map<int, Uf>
    var estados: map<int, Estado>
    var intermediarias: map<int, RegiaoIntermediaria>
    var imediatas: map<int, RegiaoImediata>
    var mesorregioes: map<int, Mesorregiao>
    var microrregioes: map<int, Microrregiao>
    var municipios: map<int, Municipio>
    var distritos: map<int, Distrito>

    /** The tables as one value. */
    function State(): Db
      reads this
    {
      Db(regioes, ufs, estados, intermediarias, imediatas, mesorregioes, microrregioes, municipios, distritos)
    }

    /** Every constraint of the schema holds, and every district matches its municipality's chain. */
    predicate Invariant()
      reads this
    {
      Valid(State()) && Denormalized(State())
    }

    constructor (db: Db)
      ensures State() == db
    {
      regioes, ufs, estados := db.regioes, db.ufs, db.estados;
      intermediarias, imediatas := db.intermediarias, db.imediatas;
      mesorregioes, microrregioes := db.mesorregioes, db.microrregioes;
      municipios, distritos := db.municipios, db.distritos;
    }

    /** The rollback of `transaction.atomic`: every table as it was. */
    method Restore(db: Db)
      modifies this
      ensures State() == db
    {
      regioes, ufs, estados := db.regioes, db.ufs, db.estados;
      intermediarias, imediatas := db.intermediarias, db.imediatas;
      mesorregioes, microrregioes := db.mesorregioes, db.microrregioes;
      municipios, distritos := db.municipios, db.distritos;
    }

    // ---- `_bulk_create_*`: read the stored ids, bulk-create the candidates not among them ----

    method BulkCreateRegioes(cands: map<int, Regiao>) returns (r: Result<(), PyError>)
      modifies this
      ensures r.Ok? <==> PutRegioes(old(State()), cands).Ok?
      ensures r.Ok? ==> State() == PutRegioes(old(State()), cands).value
      ensures r.Err? ==> State() == old(State()) && r.error == DatabaseError
    {
      var t := CreateMissing(regioes, cands, Int32);
      if t.Err? {
        return Err(t.error);
      }
      regioes := t.value;
      return Ok(());
    }

    method BulkCreateUfs(cands: map<int, Uf>) returns (r: Result<(), PyError>)
      modifies this
      ensures r.Ok? <==> PutUfs(old(State()), cands).Ok?
      ensures r.Ok? ==> State() == PutUfs(old(State()), cands).value
      ensures r.Err? ==> State() == old(State()) && r.error == DatabaseError
    {
      var t := CreateMissing(ufs, cands, Int32);
      if t.Err? {
        return Err(t.error);
      }
      ufs := t.value;
      return Ok(());
    }

    method BulkCreateIntermediarias(cands: map<int, RegiaoIntermediaria>) returns (r: Result<(), PyError>)
      modifies this
      ensures r.Ok? <==> PutIntermediarias(old(State()), cands).Ok?
      ensures r.Ok? ==> State() == PutIntermediarias(old(State()), cands).value
      ensures r.Err? ==> State() == old(State()) && r.error == DatabaseError
    {
      var t := CreateMissing(intermediarias, cands, Int32);
      if t.Err? {
        return Err(t.error);
      }
      intermediarias := t.value;
      return Ok(());
    }

    method BulkCreateImediatas(cands: map<int, ImediataFragment>) returns (r: Result<(), PyError>)
      modifies this
      ensures r.Ok? <==> PutImediatas(old(State()), cands).Ok?
      ensures r.Ok? ==> State() == PutImediatas(old(State()), cands).value
      ensures r.Err? ==> State() == old(State()) && r.error == DatabaseError
    {
      var t := CreateMissingImediatas(imediatas, cands);
      if t.Err? {
        return Err(t.error);
      }
      imediatas := t.value;
      return Ok(());
    }

    method BulkCreateMesorregioes(cands: map<int, Mesorregiao>) returns (r: Result<(), PyError>)
      modifies this
      ensures r.Ok? <==> PutMesorregioes(old(State()), cands).Ok?
      ensures r.Ok? ==> State() == PutMesorregioes(old(State()), cands).value
      ensures r.Err? ==> State() == old(State()) && r.error == DatabaseError
    {
      var t := CreateMissing(mesorregioes, cands, Int32);
      if t.Err? {
        return Err(t.error);
      }
      mesorregioes := t.value;
      return Ok(());
    }

    method BulkCreateMicrorregioes(cands: map<int, Microrregiao>) returns (r: Result<(), PyError>)
      modifies this
      ensures r.Ok? <==> PutMicrorregioes(old(State()), cands).Ok?
      ensures r.Ok? ==> State() == PutMicrorregioes(old(State()), cands).value
      ensures r.Err? ==> State() == old(State()) && r.error == DatabaseError
    {
      var t := CreateMissing(microrregioes, cands, Int32);
      if t.Err? {
        return Err(t.error);
      }
      microrregioes := t.value;
      return Ok(());
    }

    /**
     * `_create_hierarchy_objects`: fold every fragment into the six level
     * dicts, then write the levels parents first. It runs inside the
     * caller's transaction, which undoes the levels already written when a
     * later one fails.
     */
    method CreateHierarchyObjects(items: seq<Item>) returns (r: Result<(), PyError>)
      modifies this
      ensures r.Ok? <==> WriteHierarchy(old(State()), Merge(items)).Ok?
      ensures r.Ok? ==> State() == WriteHierarchy(old(State()), Merge(items)).value
      ensures r.Err? ==> r.error == DatabaseError
    {
      var l := MergeFragments(items);
      r := WriteLevels(l);
    }

    /** The six `_bulk_create_*` calls of `_create_hierarchy_objects`, in their order. */
    method WriteLevels(l: Levels) returns (r: Result<(), PyError>)
      modifies this
      ensures r.Ok? <==> WriteHierarchy(old(State()), l).Ok?
      ensures r.Ok? ==> State() == WriteHierarchy(old(State()), l).value
      ensures r.Err? ==> r.error == DatabaseError
    {
      ghost var db := State();
      r := BulkCreateRegioes(l.regioes);
      if r.Err? {
        assert WriteHierarchy(db, l).Err?;
        return;
      }
      ghost var d1 := State();
      assert WriteHierarchy(db, l) == WriteFromUfs(d1, l);
      r := BulkCreateUfs(l.ufs);
      if r.Err? {
        assert WriteFromUfs(d1, l).Err?;
        return;
      }
      ghost var d2 := State();
      assert WriteFromUfs(d1, l) == WriteFromIntermediarias(d2, l);
      r := BulkCreateIntermediarias(l.intermediarias);
      if r.Err? {
        assert WriteFromIntermediarias(d2, l).Err?;
        return;
      }
      ghost var d3 := State();
      assert WriteFromIntermediarias(d2, l) == WriteFromImediatas(d3, l);
      r := BulkCreateImediatas(l.imediatas);
      if r.Err? {
        assert WriteFromImediatas(d3, l).Err?;
        return;
      }
      ghost var d4 := State();
      assert WriteFromImediatas(d3, l) == WriteFromMesorregioes(d4, l);
      r := BulkCreateMesorregioes(l.mesorregioes);
      if r.Err? {
        assert WriteFromMesorregioes(d4, l).Err?;
        return;
      }
      ghost var d5 := State();
      assert WriteFromMesorregioes(d4, l) == PutMicrorregioes(d5, l.microrregioes);
      r := BulkCreateMicrorregioes(l.microrregioes);
    }

    /**
     * `_create_municipios`: read the stored ids, queue the items whose id is
     * not among them, bulk-create the queue and return its length.
     */
    method CreateMunicipios(items: seq<Item>) returns (r: Result<nat, PyError>)
      modifies this
      ensures r.Ok? <==> InsertRows(old(municipios), MunicipiosToCreate(old(municipios).Keys, items), MunicipioKey, Int32).Ok?
      ensures r.Ok? ==> r.value == |MunicipiosToCreate(old(municipios).Keys, items)|
      ensures r.Ok? ==> State() == old(State()).(municipios :=
        InsertRows(old(municipios), MunicipiosToCreate(old(municipios).Keys, items), MunicipioKey, Int32).value)
      ensures r.Err? ==> State() == old(State()) && r.error == DatabaseError
    {
      var existing := municipios.Keys;
      var toCreate: seq<Municipio> := [];
      for i := 0 to |items|
        invariant toCreate == MunicipiosToCreate(existing, items[..i])
      {
        var item := items[i];
        if item.municipio.id !in existing {
          var microrregiaoId := if item.hierarchy.microrregiao.Some? then Some(item.hierarchy.microrregiao.value.id) else None;
          var regiaoImediataId := if item.hierarchy.regiaoImediata.Some? then Some(item.hierarchy.regiaoImediata.value.id) else None;
          toCreate := toCreate + [Municipio(item.municipio.id, item.municipio.nome, microrregiaoId, regiaoImediataId)];
        }
        assert items[..i + 1][..i] == items[..i];
      }
      assert items[..|items|] == items;
      if toCreate != [] {
        var t := InsertRows(municipios, toCreate, MunicipioKey, Int32);
        if t.Err? {
          return Err(t.error);
        }
        municipios := t.value;
      }
      return Ok(|toCreate|);
    }

    /**
     * The `transaction.atomic` block of `import_municipios`: the hierarchy,
     * then the municipalities; an exception from either undoes both.
     */
    method SaveMunicipios(items: seq<Item>) returns (r: Result<nat, PyError>)
      modifies this
      ensures r == Outcome(MunicipioImport.SaveMunicipios(old(State()), items))
      ensures State() == After(old(State()), MunicipioImport.SaveMunicipios(old(State()), items))
    {
      var saved := State();
      var h := CreateHierarchyObjects(items);
      if h.Err? {
        Restore(saved);
        return Err(h.error);
      }
      ghost var d := State();
      ghost var rows := MunicipiosToCreate(d.municipios.Keys, items);
      assert MunicipioImport.SaveMunicipios(saved, items) ==
        (match InsertRows(d.municipios, rows, MunicipioKey, Int32)
         case Err(e) => Err(e)
         case Ok(t) => Ok((d.(municipios := t), |rows|)));
      var created := CreateMunicipios(items);
      if created.Err? {
        Restore(saved);
        return Err(created.error);
      }
      return Ok(created.value);
    }

    /**
     * `import_municipios`: validate and extract every record, skipping the
     * ones the validator rejects, then save the hierarchy and the
     * municipalities.
     */
    method ImportMunicipios(raw: seq<Json>) returns (r: Result<MunicipioReport, PyError>)
      requires forall i | 0 <= i < |raw| :: MunicipioTyped(raw[i])
      modifies this
      ensures r == Outcome(MunicipioImport.ImportMunicipios(old(State()), raw))
      ensures State() == After(old(State()), MunicipioImport.ImportMunicipios(old(State()), raw))
      ensures old(Invariant()) ==> Invariant()
    {
      ghost var db := State();
      ghost var inv := Invariant();
      var validMunicipios := CollectRecords(raw);
      if validMunicipios.Err? {
        return Err(validMunicipios.error);
      }
      var items := validMunicipios.value;
      var created := SaveMunicipios(items);
      if created.Err? {
        return Err(created.error);
      }
      if inv {
        ImportMunicipiosValid(db, raw);
      }
      return Ok(MunicipioReport(|raw|, |items|, created.value));
    }

    /**
     * One `bulk_create(batch)` of the district loop: the rows `queue[done..end]`
     * go into the table that already holds `queue[..done]`; when it fails,
     * so does the whole queue, and nothing is written.
     */
    method InsertBatch(ghost table: map<int, Distrito>, queue: seq<Pending>, done: int, end: int) returns (ok: bool)
      requires 0 <= done <= end <= |queue|
      requires InsertDistritos(table, queue[..done]) == Ok(distritos)
      modifies this
      ensures ok ==> InsertDistritos(table, queue[..end]) == Ok(distritos)
      ensures !ok ==> InsertDistritos(table, queue).Err? && distritos == old(distritos)
      ensures State() == old(State()).(distritos := distritos)
    {
      NextBatch(table, queue, done, end);
      var t := InsertDistritos(distritos, queue[done..end]);
      if t.Err? {
        BatchFails(table, queue, end);
        return false;
      }
      distritos := t.value;
      return true;
    }

    /**
     * The `transaction.atomic` block of `import_distritos`: bulk-create the
     * queue in consecutive batches of `BatchSize`, adding each batch's
     * length to the count; a failing batch undoes the ones before it.
     */
    method SaveBatches(queue: seq<Pending>) returns (r: Result<nat, PyError>)
      modifies this
      ensures r.Ok? <==> InsertDistritos(old(distritos), queue).Ok?
      ensures r.Ok? ==> r.value == |queue| && State() == old(State()).(distritos := InsertDistritos(old(distritos), queue).value)
      ensures r.Err? ==> State() == old(State()) && r.error == DatabaseError
    {
      var saved := State();
      var created := 0;
      var i := 0;
      while i < |queue|
        invariant 0 <= i && created == Min(i, |queue|)
        invariant InsertDistritos(saved.distritos, queue[..created]) == Ok(distritos)
        invariant State() == saved.(distritos := distritos)
        decreases |queue| - i
      {
        var end := Min(i + BatchSize, |queue|);
        var ok := InsertBatch(saved.distritos, queue, created, end);
        if !ok {
          Restore(saved);
          return Err(DatabaseError);
        }
        created := created + (end - i);
        i := i + BatchSize;
      }
      assert queue[..created] == queue;
      return Ok(created);
    }

    /**
     * `import_distritos`: read the stored ids, queue every record that
     * passes the checks with its municipality's chain copied onto it, then
     * save the queue, if any, in batches.
     */
    method ImportDistritos(raw: seq<Json>) returns (r: Result<DistritoReport, PyError>)
      requires Valid(State())
      modifies this
      ensures r == Outcome(DistritoImport.ImportDistritos(old(State()), raw))
      ensures State() == After(old(State()), DistritoImport.ImportDistritos(old(State()), raw))
      ensures old(Invariant()) ==> Invariant()
    {
      var db := State();
      var distritosToCreate := QueueRecords(db, distritos.Keys, raw);
      if distritosToCreate.Err? {
        return Err(distritosToCreate.error);
      }
      var queue := distritosToCreate.value;
      var created := 0;
      if queue != [] {
        var saved := SaveBatches(queue);
        if saved.Err? {
          assert DistritoImport.ImportDistritos(db, raw) == Err(saved.error);
          return Err(saved.error);
        }
        created := saved.value;
      }
      assert DistritoImport.ImportDistritos(db, raw) == Ok((State(), DistritoReport(|raw|, created)));
      if Denormalized(db) {
        ImportDistritosValid(db, raw);
      }
      return Ok(DistritoReport(|raw|, created));
    }

    /**
     * The writes of the `transaction.atomic` block of `import_estados`; an
     * exception from the states undoes the regions.
     */
    method SaveEstados(regioesData: map<int, Json>, estadosData: seq<Json>) returns (r: Result<EstadoReport, PyError>)
      requires Gathered(regioesData)
      requires forall i | 0 <= i < |estadosData| :: EstadoTyped(estadosData[i])
      modifies this
      ensures r == Outcome(EstadoImport.SaveEstados(old(State()), regioesData, estadosData))
      ensures State() == After(old(State()), EstadoImport.SaveEstados(old(State()), regioesData, estadosData))
    {
      var saved := State();
      var newRegioes := NewRegioes(regioes.Keys, regioesData);
      if newRegioes.Err? {
        return Err(newRegioes.error);
      }
      var t := CreateMissing(regioes, newRegioes.value, Int32);
      if t.Err? {
        return Err(t.error);
      }
      regioes := t.value;
      var newEstados := NewEstados(estados.Keys, estadosData);
      if newEstados.Err? {
        Restore(saved);
        return Err(newEstados.error);
      }
      var u := InsertRows(estados, newEstados.value, EstadoKey, Int32);
      if u.Err? {
        Restore(saved);
        return Err(u.error);
      }
      estados := u.value;
      return Ok(EstadoReport(|estadosData|, |newEstados.value|, |newRegioes.value|));
    }

    /**
     * `import_estados`: gather the regions the records name, then, in one
     * transaction, create the regions not stored yet and the states not
     * stored yet.
     */
    method ImportEstados(raw: seq<Json>) returns (r: Result<EstadoReport, PyError>)
      requires forall i | 0 <= i < |raw| :: EstadoTyped(raw[i])
      modifies this
      ensures r == Outcome(EstadoImport.ImportEstados(old(State()), raw))
      ensures State() == After(old(State()), EstadoImport.ImportEstados(old(State()), raw))
      ensures old(Valid(State())) ==> Valid(State())
      ensures old(Invariant()) ==> Invariant()
    {
      ghost var db := State();
      var regioesData := GatherRegioes(raw);
      if regioesData.Err? {
        return Err(regioesData.error);
      }
      r := SaveEstados(regioesData.value, raw);
      if r.Ok? && Valid(db) {
        ImportEstadosValid(db, raw);
      }
    }
  }
}
