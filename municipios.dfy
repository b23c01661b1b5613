/**
 * `MunicipioImportService.import_municipios`: validate and extract every
 * raw record, then, in one transaction, write the six hierarchy levels in
 * dependency order and bulk-create the municipalities not stored yet.
 */
module MunicipioImport {
  import opened Wrappers
  import opened PyJson
  import opened Schema
  import opened Validation
  import opened Writer
  import opened Merging

  // ---- the loop over raw records ----

  /** The record raises something other than ValidationError, which ends the import. */
  predicate Aborts(x: Json)
    requires MunicipioTyped(x)
  {
    match ValidateMunicipio(x)
    case Err(e) => !e.ValidationError?
    case Ok(_) => Extract(x).Err?
  }

  /** The record is kept as this item. */
  predicate Admits(x: Json, item: Item)
    requires MunicipioTyped(x)
  {
    ValidateMunicipio(x) == Ok(item.municipio) && Extract(x) == Ok(item.hierarchy)
  }

  /** One pass of the loop: a record rejected by the validator is skipped, any other exception propagates. */
  function Record(x: Json): Result<Option<Item>, PyError>
    requires MunicipioTyped(x)
  {
    match ValidateMunicipio(x)
    case Err(e) => if e.ValidationError? then Ok(None) else Err(e)
    case Ok(c) =>
      var h :- Extract(x);
      Ok(Some(Item(c, h)))
  }

  /** `valid_municipios`: each record's pass in turn. */
  function Collect(raw: seq<Json>): (r: Result<seq<Item>, PyError>)
    requires forall i | 0 <= i < |raw| :: MunicipioTyped(raw[i])
    ensures r.Ok? ==> |r.value| <= |raw|
    decreases |raw|
  {
    if raw == [] then Ok([])
    else
      var acc :- Collect(raw[..|raw| - 1]);
      var c :- Record(raw[|raw| - 1]);
      if c.Some? then Ok(acc + [c.value]) else Ok(acc)
  }

  /** The loop completes exactly when no record raises anything but a ValidationError. */
  lemma {:induction false} CollectOk(raw: seq<Json>)
    requires forall i | 0 <= i < |raw| :: MunicipioTyped(raw[i])
    ensures Collect(raw).Ok? <==> forall i | 0 <= i < |raw| :: !Aborts(raw[i])
    decreases |raw|
  {
    if raw != [] {
      var p := raw[..|raw| - 1];
      assert forall i | 0 <= i < |p| :: p[i] == raw[i];
      CollectOk(p);
    }
  }

  /** An exception ends the loop: once a prefix raises, the whole loop raises the same. */
  lemma {:induction false} CollectStops(raw: seq<Json>, n: nat)
    requires forall i | 0 <= i < |raw| :: MunicipioTyped(raw[i])
    requires n <= |raw| && Collect(raw[..n]).Err?
    ensures Collect(raw) == Collect(raw[..n])
    decreases |raw|
  {
    if n < |raw| {
      var p := raw[..|raw| - 1];
      assert p[..n] == raw[..n];
      CollectStops(p, n);
    } else {
      assert raw[..n] == raw;
    }
  }

  /** Every kept item carries a consistent fragment. */
  lemma {:induction false} CollectConsistent(raw: seq<Json>)
    requires forall i | 0 <= i < |raw| :: MunicipioTyped(raw[i])
    requires Collect(raw).Ok?
    ensures forall i | 0 <= i < |Collect(raw).value| :: Consistent(Collect(raw).value[i].hierarchy)
  {
    var items := Collect(raw).value;
    CollectSound(raw);
    forall i | 0 <= i < |items| ensures Consistent(items[i].hierarchy) {
      var j :| 0 <= j < |raw| && Admits(raw[j], items[i]);
      assert Extract(raw[j]) == Ok(items[i].hierarchy);
    }
  }

  /** What each record's pass gives, position by position. */
  function Records(raw: seq<Json>): (cs: seq<Result<Option<Item>, PyError>>)
    requires forall i | 0 <= i < |raw| :: MunicipioTyped(raw[i])
    ensures |cs| == |raw| && forall i | 0 <= i < |raw| :: cs[i] == Record(raw[i])
  {
    seq(|raw|, i requires 0 <= i < |raw| => Record(raw[i]))
  }

  /** The loop is the fold over the records' passes. */
  lemma {:induction false} CollectIsKept(raw: seq<Json>)
    requires forall i | 0 <= i < |raw| :: MunicipioTyped(raw[i])
    ensures Collect(raw) == Kept(Records(raw))
    decreases |raw|
  {
    if raw != [] {
      var p := raw[..|raw| - 1];
      var cs := Records(raw);
      assert forall i | 0 <= i < |p| :: p[i] == raw[i];
      CollectIsKept(p);
      assert Records(p) == cs[..|cs| - 1] by {
        forall i | 0 <= i < |p| ensures Records(p)[i] == cs[i] {
          assert p[i] == raw[i];
        }
      }
      assert cs[|cs| - 1] == Record(raw[|raw| - 1]);
    }
  }

  /** A pass that keeps an item keeps the one the record admits; the validator accepts exactly the records whose pass keeps one or raises. */
  lemma {:induction false} RecordAdmits(x: Json)
    requires MunicipioTyped(x)
    ensures Record(x).Ok? && Record(x).value.Some? ==> Admits(x, Record(x).value.value)
    ensures ValidateMunicipio(x).Ok? && Record(x).Ok? ==> Record(x).value.Some?
  {
  }

  /** A record whose id is the string `"0"` and that has no hierarchy is kept, with id 0. */
  lemma {:induction false} StringIdKept()
    ensures MunicipioTyped(JObj(map["id" := JStr("0"), "nome" := JStr("Sede")]))
    ensures Record(JObj(map["id" := JStr("0"), "nome" := JStr("Sede")])) == Ok(Some(Item(Clean(0, "Sede"), NoHierarchy)))
  {
    var x := JObj(map["id" := JStr("0"), "nome" := JStr("Sede")]);
    assert At(x, "id") == JStr("0") && At(x, "nome") == JStr("Sede") && At(x, "microrregiao") == JNull;
    assert LeadingSpaces("0") == 0 && TrailingStart("0") == 1 by { assert !IsSpace("0"[0]); }
    assert Strip("0") == "0";
    assert Unsigned("0") == "0";
    assert DigitsValue("0") == 0 by { assert "0"[..0] == ""; }
    var sede := "Sede";
    assert LeadingSpaces(sede) == 0 && TrailingStart(sede) == |sede| by { assert !IsSpace(sede[0]) && !IsSpace(sede[3]); }
    assert Strip(sede) == sede;
    assert ChainGuard(x) == Ok(false);
  }

  /** A record with a null id is skipped by the loop, which goes on. */
  lemma {:induction false} NullIdSkipped(nome: Json)
    ensures MunicipioTyped(JObj(map["id" := JNull, "nome" := nome]))
    ensures Record(JObj(map["id" := JNull, "nome" := nome])) == Ok(None)
  {
    var x := JObj(map["id" := JNull, "nome" := nome]);
    assert At(x, "id") == JNull && At(x, "microrregiao") == JNull;
  }

  /** Each kept item comes from a record the validator accepted. */
  lemma {:induction false} CollectSound(raw: seq<Json>)
    requires forall i | 0 <= i < |raw| :: MunicipioTyped(raw[i])
    requires Collect(raw).Ok?
    ensures forall i | 0 <= i < |Collect(raw).value| :: exists j | 0 <= j < |raw| :: Admits(raw[j], Collect(raw).value[i])
  {
    var cs := Records(raw);
    CollectIsKept(raw);
    KeptSound(cs);
    var items := Collect(raw).value;
    forall i | 0 <= i < |items| ensures exists j | 0 <= j < |raw| :: Admits(raw[j], items[i]) {
      var j :| 0 <= j < |cs| && cs[j] == Ok(Some(items[i]));
      RecordAdmits(raw[j]);
    }
  }

  /** Every record the validator accepted gives a kept item. */
  lemma {:induction false} CollectComplete(raw: seq<Json>)
    requires forall i | 0 <= i < |raw| :: MunicipioTyped(raw[i])
    requires Collect(raw).Ok?
    ensures forall j | 0 <= j < |raw| && ValidateMunicipio(raw[j]).Ok? ::
      exists i | 0 <= i < |Collect(raw).value| :: Admits(raw[j], Collect(raw).value[i])
  {
    var cs := Records(raw);
    CollectIsKept(raw);
    KeptOk(cs);
    var items := Collect(raw).value;
    forall j | 0 <= j < |raw| && ValidateMunicipio(raw[j]).Ok?
      ensures exists i | 0 <= i < |items| :: Admits(raw[j], items[i])
    {
      assert cs[j].Ok?;
      RecordAdmits(raw[j]);
      var item := cs[j].value.value;
      KeptComplete(cs, j, item);
      var i :| 0 <= i < |items| && items[i] == item;
    }
  }

  // ---- the six hierarchy writes ----

  function PutRegioes(db: Db, c: map<int, Regiao>): Result<Db, PyError>
  {
    var t :- CreateMissing(db.regioes, c, Int32);
    Ok(db.(regioes := t))
  }

  function PutUfs(db: Db, c: map<int, Uf>): Result<Db, PyError>
  {
    var t :- CreateMissing(db.ufs, c, Int32);
    Ok(db.(ufs := t))
  }

  function PutIntermediarias(db: Db, c: map<int, RegiaoIntermediaria>): Result<Db, PyError>
  {
    var t :- CreateMissing(db.intermediarias, c, Int32);
    Ok(db.(intermediarias := t))
  }

  function PutImediatas(db: Db, c: map<int, ImediataFragment>): Result<Db, PyError>
  {
    var t :- CreateMissingImediatas(db.imediatas, c);
    Ok(db.(imediatas := t))
  }

  function PutMesorregioes(db: Db, c: map<int, Mesorregiao>): Result<Db, PyError>
  {
    var t :- CreateMissing(db.mesorregioes, c, Int32);
    Ok(db.(mesorregioes := t))
  }

  function PutMicrorregioes(db: Db, c: map<int, Microrregiao>): Result<Db, PyError>
  {
    var t :- CreateMissing(db.microrregioes, c, Int32);
    Ok(db.(microrregioes := t))
  }

  /**
   * The second half of `_create_hierarchy_objects`: Regiao, Uf,
   * RegiaoIntermediaria, RegiaoImediata, Mesorregiao, Microrregiao, each
   * `WriteFrom` being the steps that remain.
   */
  function WriteHierarchy(db: Db, l: Levels): Result<Db, PyError>
  {
    var d1 :- PutRegioes(db, l.regioes);
    WriteFromUfs(d1, l)
  }

  function WriteFromUfs(d1: Db, l: Levels): Result<Db, PyError>
  {
    var d2 :- PutUfs(d1, l.ufs);
    WriteFromIntermediarias(d2, l)
  }

  function WriteFromIntermediarias(d2: Db, l: Levels): Result<Db, PyError>
  {
    var d3 :- PutIntermediarias(d2, l.intermediarias);
    WriteFromImediatas(d3, l)
  }

  function WriteFromImediatas(d3: Db, l: Levels): Result<Db, PyError>
  {
    var d4 :- PutImediatas(d3, l.imediatas);
    WriteFromMesorregioes(d4, l)
  }

  function WriteFromMesorregioes(d4: Db, l: Levels): Result<Db, PyError>
  {
    var d5 :- PutMesorregioes(d4, l.mesorregioes);
    PutMicrorregioes(d5, l.microrregioes)
  }

  /** Every candidate of every level has a stored row with its id. */
  predicate Holds(db: Db, l: Levels)
  {
    && l.regioes.Keys <= db.regioes.Keys
    && l.ufs.Keys <= db.ufs.Keys
    && l.intermediarias.Keys <= db.intermediarias.Keys
    && l.imediatas.Keys <= db.imediatas.Keys
    && l.mesorregioes.Keys <= db.mesorregioes.Keys
    && l.microrregioes.Keys <= db.microrregioes.Keys
  }

  // Each step keeps the store valid provided the level above is already
  // stored: this is why the levels are written parents first.

  lemma {:induction false} PutRegioesValid(db: Db, c: map<int, Regiao>)
    requires Valid(db) && PutRegioes(db, c).Ok?
    requires forall k | k in c :: c[k].id == k
    ensures Valid(PutRegioes(db, c).value)
  {
    var t := CreateMissing(db.regioes, c, Int32).value;
    var r := db.(regioes := t);
    assert PutRegioes(db, c).value == r;
    forall k | k in t ensures t[k].id == k && Fits(k, Int32) {
      if k in db.regioes {
        assert t[k] == db.regioes[k];
      }
    }
    ExtendsKeepsRefs(db, r);
  }

  lemma {:induction false} PutUfsValid(db: Db, c: map<int, Uf>)
    requires Valid(db) && PutUfs(db, c).Ok?
    requires forall k | k in c :: c[k].id == k && c[k].regiaoId in db.regioes
    ensures Valid(PutUfs(db, c).value)
  {
    var t := CreateMissing(db.ufs, c, Int32).value;
    var r := db.(ufs := t);
    assert PutUfs(db, c).value == r;
    forall k | k in t ensures t[k].id == k && Fits(k, Int32) && t[k].regiaoId in db.regioes {
      if k in db.ufs {
        assert t[k] == db.ufs[k];
      }
    }
    ExtendsKeepsRefs(db, r);
  }

  lemma {:induction false} PutIntermediariasValid(db: Db, c: map<int, RegiaoIntermediaria>)
    requires Valid(db) && PutIntermediarias(db, c).Ok?
    requires forall k | k in c :: c[k].id == k && c[k].ufId in db.ufs
    ensures Valid(PutIntermediarias(db, c).value)
  {
    var t := CreateMissing(db.intermediarias, c, Int32).value;
    var r := db.(intermediarias := t);
    assert PutIntermediarias(db, c).value == r;
    forall k | k in t ensures t[k].id == k && Fits(k, Int32) && t[k].ufId in db.ufs {
      if k in db.intermediarias {
        assert t[k] == db.intermediarias[k];
      }
    }
    ExtendsKeepsRefs(db, r);
  }

  lemma {:induction false} PutImediatasValid(db: Db, c: map<int, ImediataFragment>)
    requires Valid(db) && PutImediatas(db, c).Ok?
    requires forall k | k in c :: c[k].id == k
    requires forall k | k in c && c[k].regiaoIntermediariaId.Some? :: c[k].regiaoIntermediariaId.value in db.intermediarias
    ensures Valid(PutImediatas(db, c).value)
  {
    var t := CreateMissingImediatas(db.imediatas, c).value;
    var r := db.(imediatas := t);
    assert PutImediatas(db, c).value == r;
    forall k | k in t ensures t[k].id == k && Fits(k, Int32) && t[k].regiaoIntermediariaId in db.intermediarias {
      if k in db.imediatas {
        assert t[k] == db.imediatas[k];
      }
    }
    ExtendsKeepsRefs(db, r);
  }

  lemma {:induction false} PutMesorregioesValid(db: Db, c: map<int, Mesorregiao>)
    requires Valid(db) && PutMesorregioes(db, c).Ok?
    requires forall k | k in c :: c[k].id == k && c[k].ufId in db.ufs
    ensures Valid(PutMesorregioes(db, c).value)
  {
    var t := CreateMissing(db.mesorregioes, c, Int32).value;
    var r := db.(mesorregioes := t);
    assert PutMesorregioes(db, c).value == r;
    forall k | k in t ensures t[k].id == k && Fits(k, Int32) && t[k].ufId in db.ufs {
      if k in db.mesorregioes {
        assert t[k] == db.mesorregioes[k];
      }
    }
    ExtendsKeepsRefs(db, r);
  }

  lemma {:induction false} PutMicrorregioesValid(db: Db, c: map<int, Microrregiao>)
    requires Valid(db) && PutMicrorregioes(db, c).Ok?
    requires forall k | k in c :: c[k].id == k && c[k].mesorregiaoId in db.mesorregioes
    ensures Valid(PutMicrorregioes(db, c).value)
  {
    var t := CreateMissing(db.microrregioes, c, Int32).value;
    var r := db.(microrregioes := t);
    assert PutMicrorregioes(db, c).value == r;
    forall k | k in t ensures t[k].id == k && Fits(k, Int32) && t[k].mesorregiaoId in db.mesorregioes {
      if k in db.microrregioes {
        assert t[k] == db.microrregioes[k];
      }
    }
    ExtendsKeepsRefs(db, r);
  }

  // Parents before children: each remaining sequence of steps keeps the
  // store valid once the level its first step references is stored.

  lemma {:induction false} FromMesorregioesValid(d4: Db, l: Levels)
    requires Valid(d4) && LevelsConsistent(l) && LevelsKeysMatch(l)
    requires l.ufs.Keys <= d4.ufs.Keys && WriteFromMesorregioes(d4, l).Ok?
    ensures Valid(WriteFromMesorregioes(d4, l).value)
  {
    var d5 := PutMesorregioes(d4, l.mesorregioes).value;
    PutMesorregioesValid(d4, l.mesorregioes);
    PutMicrorregioesValid(d5, l.microrregioes);
  }

  lemma {:induction false} FromImediatasValid(d3: Db, l: Levels)
    requires Valid(d3) && LevelsConsistent(l) && LevelsKeysMatch(l)
    requires l.ufs.Keys <= d3.ufs.Keys && l.intermediarias.Keys <= d3.intermediarias.Keys
    requires WriteFromImediatas(d3, l).Ok?
    ensures Valid(WriteFromImediatas(d3, l).value)
  {
    PutImediatasValid(d3, l.imediatas);
    FromMesorregioesValid(PutImediatas(d3, l.imediatas).value, l);
  }

  lemma {:induction false} FromIntermediariasValid(d2: Db, l: Levels)
    requires Valid(d2) && LevelsConsistent(l) && LevelsKeysMatch(l)
    requires l.ufs.Keys <= d2.ufs.Keys && WriteFromIntermediarias(d2, l).Ok?
    ensures Valid(WriteFromIntermediarias(d2, l).value)
  {
    PutIntermediariasValid(d2, l.intermediarias);
    FromImediatasValid(PutIntermediarias(d2, l.intermediarias).value, l);
  }

  lemma {:induction false} FromUfsValid(d1: Db, l: Levels)
    requires Valid(d1) && LevelsConsistent(l) && LevelsKeysMatch(l)
    requires l.regioes.Keys <= d1.regioes.Keys && WriteFromUfs(d1, l).Ok?
    ensures Valid(WriteFromUfs(d1, l).value)
  {
    PutUfsValid(d1, l.ufs);
    FromIntermediariasValid(PutUfs(d1, l.ufs).value, l);
  }

  /** From a valid store, a hierarchy write of consistent levels ends in a valid store. */
  lemma {:induction false} WriteHierarchyValid(db: Db, l: Levels)
    requires Valid(db) && LevelsConsistent(l) && LevelsKeysMatch(l)
    requires WriteHierarchy(db, l).Ok?
    ensures Valid(WriteHierarchy(db, l).value)
  {
    PutRegioesValid(db, l.regioes);
    FromUfsValid(PutRegioes(db, l.regioes).value, l);
  }

  /** The hierarchy write stores every candidate, keeps every stored row and leaves the other tables alone. */
  lemma {:induction false} WriteHierarchyExtends(db: Db, l: Levels)
    requires WriteHierarchy(db, l).Ok?
    ensures Holds(WriteHierarchy(db, l).value, l)
    ensures Extends(db, WriteHierarchy(db, l).value)
    ensures WriteHierarchy(db, l).value.estados == db.estados
    ensures WriteHierarchy(db, l).value.municipios == db.municipios
    ensures WriteHierarchy(db, l).value.distritos == db.distritos
  {
  }

  lemma {:induction false} CreateMissingPresent<R>(table: map<int, R>, cands: map<int, R>, w: Width)
    requires cands.Keys <= table.Keys
    ensures CreateMissing(table, cands, w) == Ok(table)
  {
    assert Fresh(table, cands) == map[];
    assert table + Fresh(table, cands) == table;
  }

  lemma {:induction false} CreateMissingImediatasPresent(table: map<int, RegiaoImediata>, cands: map<int, ImediataFragment>)
    requires cands.Keys <= table.Keys
    ensures CreateMissingImediatas(table, cands) == Ok(table)
  {
    var f := Fresh(table, cands);
    assert f == map[];
    assert Completed(f) == map[];
    assert table + Completed(f) == table;
  }

  /** A store that already holds every candidate is left as it is. */
  lemma {:induction false} WriteHierarchyPresent(db: Db, l: Levels)
    requires Holds(db, l)
    ensures WriteHierarchy(db, l) == Ok(db)
  {
    CreateMissingPresent(db.regioes, l.regioes, Int32);
    CreateMissingPresent(db.ufs, l.ufs, Int32);
    CreateMissingPresent(db.intermediarias, l.intermediarias, Int32);
    CreateMissingImediatasPresent(db.imediatas, l.imediatas);
    CreateMissingPresent(db.mesorregioes, l.mesorregioes, Int32);
    CreateMissingPresent(db.microrregioes, l.microrregioes, Int32);
  }

  // ---- `_create_municipios` ----

  function OptionalId<T>(x: Option<T>, key: T -> int): Option<int>
  {
    if x.Some? then Some(key(x.value)) else None
  }

  /** The row built for one item: its two references are the fragment's ids, or None. */
  function MunicipioRow(item: Item): Municipio
  {
    Municipio(item.municipio.id, item.municipio.nome,
      OptionalId(item.hierarchy.microrregiao, MicrorregiaoKey),
      OptionalId(item.hierarchy.regiaoImediata, ImediataKey))
  }

  function MunicipioKey(m: Municipio): int { m.id }

  /** `municipios_to_create`: the items whose id was not stored when the import started, in input order, repeats included. */
  function MunicipiosToCreate(existing: set<int>, items: seq<Item>): (rows: seq<Municipio>)
    ensures |rows| <= |items|
    decreases |items|
  {
    if items == [] then []
    else
      var rows := MunicipiosToCreate(existing, items[..|items| - 1]);
      var item := items[|items| - 1];
      if item.municipio.id in existing then rows else rows + [MunicipioRow(item)]
  }

  /** Only municipalities not stored yet are queued. */
  lemma {:induction false} QueuedAreNew(existing: set<int>, items: seq<Item>)
    ensures forall i | 0 <= i < |MunicipiosToCreate(existing, items)| ::
      MunicipiosToCreate(existing, items)[i].id !in existing
    decreases |items|
  {
    if items != [] {
      QueuedAreNew(existing, items[..|items| - 1]);
    }
  }

  /** Each queued row is the row built from one of the items. */
  lemma {:induction false} QueuedFromItems(existing: set<int>, items: seq<Item>)
    ensures forall i | 0 <= i < |MunicipiosToCreate(existing, items)| ::
      exists j | 0 <= j < |items| :: MunicipiosToCreate(existing, items)[i] == MunicipioRow(items[j])
    decreases |items|
  {
    if items != [] {
      var p := items[..|items| - 1];
      QueuedFromItems(existing, p);
      var rows := MunicipiosToCreate(existing, p);
      var rows' := MunicipiosToCreate(existing, items);
      forall i | 0 <= i < |rows'| ensures exists j | 0 <= j < |items| :: rows'[i] == MunicipioRow(items[j]) {
        if i < |rows| {
          assert rows'[i] == rows[i];
          var j :| 0 <= j < |p| && rows[i] == MunicipioRow(p[j]);
          assert items[j] == p[j];
        } else {
          assert rows' == rows + [MunicipioRow(items[|p|])];
          assert rows'[i] == MunicipioRow(items[|p|]);
        }
      }
      assert rows' == MunicipiosToCreate(existing, items);
      assert forall i | 0 <= i < |rows'| :: exists j | 0 <= j < |items| :: rows'[i] == MunicipioRow(items[j]);
    } else {
      assert MunicipiosToCreate(existing, items) == [];
    }
  }

  /** Every item whose id is not stored is queued. */
  lemma {:induction false} NewItemsQueued(existing: set<int>, items: seq<Item>)
    ensures forall j | 0 <= j < |items| && items[j].municipio.id !in existing ::
      exists i | 0 <= i < |MunicipiosToCreate(existing, items)| :: MunicipiosToCreate(existing, items)[i] == MunicipioRow(items[j])
    decreases |items|
  {
    if items != [] {
      var p := items[..|items| - 1];
      var last := items[|items| - 1];
      NewItemsQueued(existing, p);
      var rows := MunicipiosToCreate(existing, p);
      var rows' := MunicipiosToCreate(existing, items);
      assert rows' == if last.municipio.id in existing then rows else rows + [MunicipioRow(last)];
      forall j | 0 <= j < |items| && items[j].municipio.id !in existing
        ensures exists i | 0 <= i < |rows'| :: rows'[i] == MunicipioRow(items[j])
      {
        if j < |p| {
          assert p[j] == items[j];
          var i :| 0 <= i < |rows| && rows[i] == MunicipioRow(p[j]);
          assert |rows| <= |rows'| && rows'[i] == rows[i];
        } else {
          assert j == |p| && items[j] == last;
          assert rows' == rows + [MunicipioRow(last)];
          assert rows'[|rows|] == MunicipioRow(items[j]);
        }
      }
      assert rows' == MunicipiosToCreate(existing, items);
      assert forall j | 0 <= j < |items| && items[j].municipio.id !in existing ::
        exists i | 0 <= i < |rows'| :: rows'[i] == MunicipioRow(items[j]);
    } else {
      assert |items| == 0;
    }
  }

  /** Nothing is queued when every item's municipality is stored. */
  lemma {:induction false} NothingQueued(existing: set<int>, items: seq<Item>)
    requires forall i | 0 <= i < |items| :: items[i].municipio.id in existing
    ensures MunicipiosToCreate(existing, items) == []
    decreases |items|
  {
    if items != [] {
      var p := items[..|items| - 1];
      assert forall i | 0 <= i < |p| :: p[i] == items[i];
      NothingQueued(existing, p);
    }
  }

  /** The `dict` the import returns. */
  datatype MunicipioReport = MunicipioReport(totalProcessed: nat, validMunicipios: nat, created: nat)

  /**
   * The `transaction.atomic` block of `import_municipios`: the hierarchy
   * levels, then the municipalities; the new store and the number of
   * municipalities created, or the exception that rolls both writes back.
   */
  function SaveMunicipios(db: Db, items: seq<Item>): Result<(Db, nat), PyError>
  {
    var d :- WriteHierarchy(db, Merge(items));
    var rows := MunicipiosToCreate(d.municipios.Keys, items);
    var t :- InsertRows(d.municipios, rows, MunicipioKey, Int32);
    Ok((d.(municipios := t), |rows|))
  }

  /**
   * `import_municipios` over the records the API returned. An exception
   * anywhere rolls the whole transaction back: the caller keeps `db`.
   */
  function ImportMunicipios(db: Db, raw: seq<Json>): Result<(Db, MunicipioReport), PyError>
    requires forall i | 0 <= i < |raw| :: MunicipioTyped(raw[i])
  {
    var items :- Collect(raw);
    var (d, created) :- SaveMunicipios(db, items);
    Ok((d, MunicipioReport(|raw|, |items|, created)))
  }

  /** The state after an import: the new one on success, the old one after a rollback. */
  function After<T>(db: Db, r: Result<(Db, T), PyError>): Db
  {
    if r.Ok? then r.value.0 else db
  }

  // ---- what an import guarantees ----

  /** Every queued row references parents the hierarchy write stored. */
  lemma {:induction false} QueuedRefsStored(d: Db, items: seq<Item>)
    requires Holds(d, Merge(items))
    requires forall i | 0 <= i < |items| :: Covers(Merge(items), items[i].hierarchy)
    ensures forall i | 0 <= i < |MunicipiosToCreate(d.municipios.Keys, items)| ::
      MunicipioRefsOk(d, MunicipiosToCreate(d.municipios.Keys, items)[i])
  {
    var rows := MunicipiosToCreate(d.municipios.Keys, items);
    QueuedFromItems(d.municipios.Keys, items);
    forall i | 0 <= i < |rows| ensures MunicipioRefsOk(d, rows[i]) {
      var j :| 0 <= j < |items| && rows[i] == MunicipioRow(items[j]);
      assert Covers(Merge(items), items[j].hierarchy);
    }
  }

  /** The new rows of a successful import reference stored parents and are keyed by their own ids. */
  lemma {:induction false} NewMunicipioRow(d: Db, items: seq<Item>, t: map<int, Municipio>, k: int)
    requires Valid(d) && Holds(d, Merge(items))
    requires forall i | 0 <= i < |items| :: Covers(Merge(items), items[i].hierarchy)
    requires InsertRows(d.municipios, MunicipiosToCreate(d.municipios.Keys, items), MunicipioKey, Int32) == Ok(t)
    requires k in t
    ensures t[k].id == k && Fits(k, Int32) && MunicipioRefsOk(d, t[k])
  {
    var rows := MunicipiosToCreate(d.municipios.Keys, items);
    InsertRowsContents(d.municipios, rows, MunicipioKey, Int32);
    InsertRowsNew(d.municipios, rows, MunicipioKey, Int32);
    if k in d.municipios {
      assert t[k] == d.municipios[k];
      assert MunicipioRefsOk(d, d.municipios[k]);
    } else {
      QueuedRefsStored(d, items);
      var i :| 0 <= i < |rows| && MunicipioKey(rows[i]) == k && t[k] == rows[i] && Fits(k, Int32);
      assert MunicipioRefsOk(d, rows[i]);
    }
  }

  /** Writing the new municipalities keeps the store valid. */
  lemma {:induction false} NewMunicipiosValid(d: Db, items: seq<Item>, t: map<int, Municipio>)
    requires Valid(d) && Holds(d, Merge(items))
    requires forall i | 0 <= i < |items| :: Covers(Merge(items), items[i].hierarchy)
    requires InsertRows(d.municipios, MunicipiosToCreate(d.municipios.Keys, items), MunicipioKey, Int32) == Ok(t)
    ensures Valid(d.(municipios := t))
  {
    var r := d.(municipios := t);
    InsertRowsContents(d.municipios, MunicipiosToCreate(d.municipios.Keys, items), MunicipioKey, Int32);
    assert Extends(d, r);
    forall k | k in t ensures t[k].id == k && Fits(k, Int32) && MunicipioRefsOk(r, t[k]) {
      NewMunicipioRow(d, items, t, k);
      ExtendsKeepsMunicipioRefs(d, r, t[k]);
    }
    ExtendsKeepsRefs(d, r);
  }

  lemma {:induction false} ImportedItems(raw: seq<Json>)
    requires forall i | 0 <= i < |raw| :: MunicipioTyped(raw[i])
    requires Collect(raw).Ok?
    ensures LevelsConsistent(Merge(Collect(raw).value)) && LevelsKeysMatch(Merge(Collect(raw).value))
    ensures forall i | 0 <= i < |Collect(raw).value| :: Covers(Merge(Collect(raw).value), Collect(raw).value[i].hierarchy)
  {
    CollectConsistent(raw);
    MergeSound(Collect(raw).value);
  }

  /**
   * A successful import keeps the store valid and every district matched
   * with its chain, keeps every row that was stored, and touches neither
   * states nor districts.
   */
  lemma {:induction false} ImportMunicipiosValid(db: Db, raw: seq<Json>)
    requires forall i | 0 <= i < |raw| :: MunicipioTyped(raw[i])
    requires Valid(db) && Denormalized(db)
    requires ImportMunicipios(db, raw).Ok?
    ensures Valid(ImportMunicipios(db, raw).value.0) && Denormalized(ImportMunicipios(db, raw).value.0)
    ensures Extends(db, ImportMunicipios(db, raw).value.0)
    ensures ImportMunicipios(db, raw).value.0.estados == db.estados
    ensures ImportMunicipios(db, raw).value.0.distritos == db.distritos
  {
    var items := Collect(raw).value;
    var l := Merge(items);
    ImportedItems(raw);
    WriteHierarchyValid(db, l);
    WriteHierarchyExtends(db, l);
    var d := WriteHierarchy(db, l).value;
    var rows := MunicipiosToCreate(d.municipios.Keys, items);
    var t := InsertRows(d.municipios, rows, MunicipioKey, Int32).value;
    NewMunicipiosValid(d, items, t);
    InsertRowsContents(d.municipios, rows, MunicipioKey, Int32);
    var r := d.(municipios := t);
    assert r == ImportMunicipios(db, raw).value.0;
    ExtendsKeepsDenormalized(db, r);
  }

  /**
   * The reported counts: `created` is the number of rows the municipality
   * table grew by, and every accepted record's municipality is stored
   * afterwards; one that was new is stored as the row built from its item.
   */
  lemma {:induction false} ImportMunicipiosCreates(db: Db, raw: seq<Json>)
    requires forall i | 0 <= i < |raw| :: MunicipioTyped(raw[i])
    requires ImportMunicipios(db, raw).Ok?
    ensures var (r, rep) := ImportMunicipios(db, raw).value;
      |r.municipios| == |db.municipios| + rep.created && rep.validMunicipios <= rep.totalProcessed == |raw|
    ensures forall i | 0 <= i < |Collect(raw).value| ::
      Collect(raw).value[i].municipio.id in ImportMunicipios(db, raw).value.0.municipios
    ensures forall i | 0 <= i < |Collect(raw).value| && Collect(raw).value[i].municipio.id !in db.municipios ::
      ImportMunicipios(db, raw).value.0.municipios[Collect(raw).value[i].municipio.id] == MunicipioRow(Collect(raw).value[i])
  {
    var items := Collect(raw).value;
    var l := Merge(items);
    WriteHierarchyExtends(db, l);
    var d := WriteHierarchy(db, l).value;
    var rows := MunicipiosToCreate(d.municipios.Keys, items);
    InsertRowsContents(d.municipios, rows, MunicipioKey, Int32);
    NewItemsQueued(d.municipios.Keys, items);
    var t := InsertRows(d.municipios, rows, MunicipioKey, Int32).value;
    assert ImportMunicipios(db, raw).value.0.municipios == t;
    forall i | 0 <= i < |items| ensures items[i].municipio.id in t {
      if items[i].municipio.id !in d.municipios {
        var k :| 0 <= k < |rows| && rows[k] == MunicipioRow(items[i]);
        assert MunicipioKey(rows[k]) == items[i].municipio.id;
      }
    }
    forall i | 0 <= i < |items| && items[i].municipio.id !in db.municipios
      ensures t[items[i].municipio.id] == MunicipioRow(items[i])
    {
      var k :| 0 <= k < |rows| && rows[k] == MunicipioRow(items[i]);
      assert MunicipioKey(rows[k]) == items[i].municipio.id;
    }
  }

  /** Running the import again on the same records creates nothing and changes nothing. */
  lemma {:induction false} ImportMunicipiosIdempotent(db: Db, raw: seq<Json>)
    requires forall i | 0 <= i < |raw| :: MunicipioTyped(raw[i])
    requires ImportMunicipios(db, raw).Ok?
    ensures var (r, rep) := ImportMunicipios(db, raw).value;
      ImportMunicipios(r, raw) == Ok((r, rep.(created := 0)))
  {
    var items := Collect(raw).value;
    var l := Merge(items);
    WriteHierarchyExtends(db, l);
    var d := WriteHierarchy(db, l).value;
    var rows := MunicipiosToCreate(d.municipios.Keys, items);
    var t := InsertRows(d.municipios, rows, MunicipioKey, Int32).value;
    var r := d.(municipios := t);
    assert ImportMunicipios(db, raw).value.0 == r;
    ImportMunicipiosCreates(db, raw);
    assert Holds(r, l);
    WriteHierarchyPresent(r, l);
    NothingQueued(t.Keys, items);
    assert InsertRows(t, [], MunicipioKey, Int32) == Ok(t);
    assert r.(municipios := t) == r;
  }
}
