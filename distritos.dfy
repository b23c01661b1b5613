/**
 * `DistritoImportService.import_distritos`: every district record whose id
 * is not stored yet, that validates and whose municipality is stored with
 * a microregion, is queued with the municipality's whole ancestry chain
 * copied onto it; the queue is then bulk-created in one transaction.
 */
module DistritoImport {
  import opened Wrappers
  import opened PyJson
  import opened Schema
  import opened Validation
  import opened Writer

  /**
   * An unsaved `Distrito(...)`: the two references that go through the
   * immediate region are None when the municipality has none.
   */
  datatype Pending = Pending(
    id: int, nome: string, municipioId: int, microrregiaoId: int, mesorregiaoId: int,
    ufId: int, regiaoId: int, regiaoImediataId: Option<int>, regiaoIntermediariaId: Option<int>)

  /** The municipality can take districts: it is in the map and has a microregion. */
  predicate Usable(db: Db, mId: int)
  {
    mId in db.municipios && db.municipios[mId].microrregiaoId.Some?
  }

  /**
   * The district built from the cleaned record and the municipality loaded
   * with `select_related`: microregion, mesoregion, UF and region follow
   * the microregion chain, the intermediate region follows the immediate one.
   */
  function Ancestry(db: Db, c: Clean, mId: int): Pending
    requires Valid(db) && Usable(db, mId)
  {
    var m := db.municipios[mId];
    assert MunicipioRefsOk(db, m);
    var microId: int := m.microrregiaoId.value;
    assert microId in db.microrregioes;
    var micro := db.microrregioes[microId];
    assert MicroRefs(db) && micro.mesorregiaoId in db.mesorregioes;
    var meso := db.mesorregioes[micro.mesorregiaoId];
    assert MesoRefs(db) && meso.ufId in db.ufs;
    var uf := db.ufs[meso.ufId];
    assert UfRefs(db) && uf.regiaoId in db.regioes;
    var regiao := db.regioes[uf.regiaoId];
    Pending(c.id, c.nome, m.id, micro.id, meso.id, uf.id, regiao.id,
      if m.regiaoImediataId.Some? then Some(db.imediatas[m.regiaoImediataId.value].id) else None,
      if m.regiaoImediataId.Some? then Some(db.imediatas[m.regiaoImediataId.value].regiaoIntermediariaId) else None)
  }

  /** `distrito_data['municipio']['id']`, as a key of the municipality map. */
  function MunicipioRef(x: Json): Result<Option<int>, PyError>
  {
    var node :- Index(x, "municipio");
    var id :- Index(node, "id");
    IntKey(id)
  }

  /**
   * One pass of the loop: the id test (its exceptions end the import),
   * then, inside the `try`, validation and the municipality lookup, any
   * exception there only skipping the record.
   */
  function Classify(db: Db, existing: set<int>, x: Json): Result<Option<Pending>, PyError>
    requires Valid(db)
  {
    var raw :- Index(x, "id");
    var key :- IntKey(raw);
    if key.Some? && key.value in existing then Ok(None)
    else
      match ValidateDistrito(x)
      case Err(_) => Ok(None)
      case Ok(c) =>
        match MunicipioRef(x)
        case Err(_) => Ok(None)
        case Ok(mId) =>
          if mId.Some? && Usable(db, mId.value) then Ok(Some(Ancestry(db, c, mId.value))) else Ok(None)
  }

  /** `distritos_to_create`, in input order. */
  function Queue(db: Db, existing: set<int>, raw: seq<Json>): Result<seq<Pending>, PyError>
    requires Valid(db)
    decreases |raw|
  {
    if raw == [] then Ok([])
    else
      var q :- Queue(db, existing, raw[..|raw| - 1]);
      var c :- Classify(db, existing, raw[|raw| - 1]);
      if c.Some? then Ok(q + [c.value]) else Ok(q)
  }

  /** An exception ends the loop: once a prefix raises, the whole loop raises the same. */
  lemma {:induction false} QueueStops(db: Db, existing: set<int>, raw: seq<Json>, n: nat)
    requires Valid(db) && n <= |raw| && Queue(db, existing, raw[..n]).Err?
    ensures Queue(db, existing, raw) == Queue(db, existing, raw[..n])
    decreases |raw|
  {
    if n < |raw| {
      var p := raw[..|raw| - 1];
      assert p[..n] == raw[..n];
      QueueStops(db, existing, p, n);
    } else {
      assert raw[..n] == raw;
    }
  }

  /** Both references through the immediate region are set (the columns are NOT NULL). */
  predicate NotNull(p: Pending)
  {
    p.regiaoImediataId.Some? && p.regiaoIntermediariaId.Some?
  }

  function DistritoRow(p: Pending): Distrito
    requires NotNull(p)
  {
    Distrito(p.id, p.nome, p.municipioId, p.microrregiaoId, p.mesorregiaoId, p.ufId, p.regiaoId,
      p.regiaoImediataId.value, p.regiaoIntermediariaId.value)
  }

  function Rows(q: seq<Pending>): (rs: seq<Distrito>)
    requires forall i | 0 <= i < |q| :: NotNull(q[i])
    ensures |rs| == |q| && forall i | 0 <= i < |q| :: rs[i] == DistritoRow(q[i])
    decreases |q|
  {
    if q == [] then [] else Rows(q[..|q| - 1]) + [DistritoRow(q[|q| - 1])]
  }

  function DistritoKey(d: Distrito): int { d.id }

  /**
   * `Distrito.objects.bulk_create(batch)`: a row with a null immediate or
   * intermediate region, or a primary key already stored, repeated or out
   * of the 64-bit range, fails the statement.
   */
  function InsertDistritos(table: map<int, Distrito>, batch: seq<Pending>): Result<map<int, Distrito>, PyError>
  {
    if forall i | 0 <= i < |batch| :: NotNull(batch[i]) then InsertRows(table, Rows(batch), DistritoKey, Int64)
    else Err(DatabaseError)
  }

  /** The `dict` the import returns. */
  datatype DistritoReport = DistritoReport(totalProcessed: nat, created: nat)

  /**
   * `import_distritos` over the records the API returned: the map and the
   * stored ids are read first, and nothing is written unless something was queued.
   */
  function ImportDistritos(db: Db, raw: seq<Json>): Result<(Db, DistritoReport), PyError>
    requires Valid(db)
  {
    var queue :- Queue(db, db.distritos.Keys, raw);
    if queue == [] then Ok((db, DistritoReport(|raw|, 0)))
    else
      var t :- InsertDistritos(db.distritos, queue);
      Ok((db.(distritos := t), DistritoReport(|raw|, |queue|)))
  }

  // ---- the district copies its municipality's chain ----

  /**
   * The references of a queued district are those of its stored
   * municipality's chain; the two through the immediate region are None
   * exactly when the municipality has no immediate region.
   */
  predicate PendingMatches(db: Db, p: Pending)
  {
    && p.municipioId in db.municipios
    && db.municipios[p.municipioId].microrregiaoId == Some(p.microrregiaoId)
    && db.municipios[p.municipioId].regiaoImediataId == p.regiaoImediataId
    && p.microrregiaoId in db.microrregioes
    && db.microrregioes[p.microrregiaoId].mesorregiaoId == p.mesorregiaoId
    && p.mesorregiaoId in db.mesorregioes
    && db.mesorregioes[p.mesorregiaoId].ufId == p.ufId
    && p.ufId in db.ufs
    && db.ufs[p.ufId].regiaoId == p.regiaoId
    && p.regiaoId in db.regioes
    && (p.regiaoImediataId.Some? ==>
          && p.regiaoImediataId.value in db.imediatas
          && p.regiaoIntermediariaId == Some(db.imediatas[p.regiaoImediataId.value].regiaoIntermediariaId))
    && (p.regiaoImediataId.None? ==> p.regiaoIntermediariaId.None?)
  }

  lemma {:induction false} AncestrySpec(db: Db, c: Clean, mId: int)
    requires Valid(db) && Usable(db, mId)
    ensures Ancestry(db, c, mId).id == c.id && Ancestry(db, c, mId).nome == c.nome
    ensures Ancestry(db, c, mId).municipioId == mId
    ensures PendingMatches(db, Ancestry(db, c, mId))
  {
    var m := db.municipios[mId];
    assert MunicipioRefsOk(db, m);
    var microId: int := m.microrregiaoId.value;
    assert microId in db.microrregioes;
    assert MicroRefs(db) && MesoRefs(db) && UfRefs(db);
    if m.regiaoImediataId.Some? {
      var iId: int := m.regiaoImediataId.value;
      assert iId in db.imediatas;
    }
  }

  /** Once both references through the immediate region are set, the stored row matches the chain. */
  lemma {:induction false} PendingRowMatches(db: Db, db2: Db, p: Pending)
    requires PendingMatches(db, p) && NotNull(p) && ImediataRefs(db)
    requires db2 == db.(distritos := db2.distritos)
    ensures MatchesChain(db2, DistritoRow(p)) && DistritoRefsOk(db2, DistritoRow(p))
  {
    var iId: int := p.regiaoImediataId.value;
    assert iId in db.imediatas;
  }

  // ---- one record ----

  /** Only a record without an id, or with an unhashable one, stops the import. */
  lemma {:induction false} ClassifyErr(db: Db, existing: set<int>, x: Json)
    requires Valid(db)
    ensures Classify(db, existing, x).Err? <==>
      Index(x, "id").Err? || IntKey(Index(x, "id").value).Err?
  {
  }

  /** A record whose id is stored is skipped before it is validated, whatever else it holds. */
  lemma {:induction false} StoredIdSkipped(db: Db, existing: set<int>, x: Json, n: int)
    requires Valid(db)
    requires Index(x, "id").Ok? && IntKey(Index(x, "id").value) == Ok(Some(n)) && n in existing
    ensures Classify(db, existing, x) == Ok(None)
  {
  }

  /** A string id never equals a stored integer id, so the stored-id test never skips it. */
  lemma {:induction false} StringIdNeverStored(db: Db, existing: set<int>, x: Json, s: string)
    requires Valid(db) && Index(x, "id") == Ok(JStr(s))
    ensures Classify(db, existing, x) == Classify(db, {}, x)
  {
  }

  /** A queued district: new id, accepted by the validator, municipality usable, chain copied. */
  lemma {:induction false} ClassifyQueued(db: Db, existing: set<int>, x: Json)
    requires Valid(db) && Classify(db, existing, x).Ok? && Classify(db, existing, x).value.Some?
    ensures Index(x, "id").Ok? && IntKey(Index(x, "id").value).Ok?
    ensures IntKey(Index(x, "id").value).value.Some? ==> IntKey(Index(x, "id").value).value.value !in existing
    ensures Index(x, "id").value.JInt? ==>
      Classify(db, existing, x).value.value.id == Index(x, "id").value.n && Index(x, "id").value.n !in existing
    ensures ValidateDistrito(x) == Ok(Clean(Classify(db, existing, x).value.value.id, Classify(db, existing, x).value.value.nome))
    ensures MunicipioRef(x) == Ok(Some(Classify(db, existing, x).value.value.municipioId))
    ensures Usable(db, Classify(db, existing, x).value.value.municipioId)
    ensures PendingMatches(db, Classify(db, existing, x).value.value)
  {
    var c := ValidateDistrito(x).value;
    var mId := MunicipioRef(x).value.value;
    AncestrySpec(db, c, mId);
  }

  /** Every record that passes every test is queued with its municipality's chain. */
  lemma {:induction false} ClassifyComplete(db: Db, existing: set<int>, x: Json, c: Clean, mId: int)
    requires Valid(db) && Index(x, "id").Ok? && IntKey(Index(x, "id").value).Ok?
    requires IntKey(Index(x, "id").value).value.Some? ==> IntKey(Index(x, "id").value).value.value !in existing
    requires ValidateDistrito(x) == Ok(c) && MunicipioRef(x) == Ok(Some(mId)) && Usable(db, mId)
    ensures Classify(db, existing, x) == Ok(Some(Ancestry(db, c, mId)))
  {
  }

  // ---- the queue ----

  /** The loop completes exactly when every record has a hashable id. */
  lemma {:induction false} QueueOk(db: Db, existing: set<int>, raw: seq<Json>)
    requires Valid(db)
    ensures Queue(db, existing, raw).Ok? <==> forall i | 0 <= i < |raw| :: Classify(db, existing, raw[i]).Ok?
    ensures Queue(db, existing, raw).Ok? ==> |Queue(db, existing, raw).value| <= |raw|
    decreases |raw|
  {
    if raw != [] {
      var p := raw[..|raw| - 1];
      assert forall i | 0 <= i < |p| :: p[i] == raw[i];
      QueueOk(db, existing, p);
    }
  }

  /** What each record classifies as, position by position. */
  function Classes(db: Db, existing: set<int>, raw: seq<Json>): (cs: seq<Result<Option<Pending>, PyError>>)
    requires Valid(db)
    ensures |cs| == |raw| && forall i | 0 <= i < |raw| :: cs[i] == Classify(db, existing, raw[i])
  {
    seq(|raw|, i requires 0 <= i < |raw| => Classify(db, existing, raw[i]))
  }

  /** The loop classifies each record in turn: it is the fold over the classifications. */
  lemma {:induction false} QueueIsKept(db: Db, existing: set<int>, raw: seq<Json>)
    requires Valid(db)
    ensures Queue(db, existing, raw) == Kept(Classes(db, existing, raw))
    decreases |raw|
  {
    if raw != [] {
      var p := raw[..|raw| - 1];
      var cs := Classes(db, existing, raw);
      QueueIsKept(db, existing, p);
      assert Classes(db, existing, p) == cs[..|cs| - 1] by {
        forall i | 0 <= i < |p| ensures Classes(db, existing, p)[i] == cs[i] {
          assert p[i] == raw[i];
        }
      }
      assert cs[|cs| - 1] == Classify(db, existing, raw[|raw| - 1]);
    }
  }

  /** Each queued district is what one record classified as. */
  lemma {:induction false} QueueSound(db: Db, existing: set<int>, raw: seq<Json>)
    requires Valid(db) && Queue(db, existing, raw).Ok?
    ensures forall i | 0 <= i < |Queue(db, existing, raw).value| ::
      exists j | 0 <= j < |raw| :: Classify(db, existing, raw[j]) == Ok(Some(Queue(db, existing, raw).value[i]))
  {
    var cs := Classes(db, existing, raw);
    QueueIsKept(db, existing, raw);
    KeptSound(cs);
    var q := Queue(db, existing, raw).value;
    forall i | 0 <= i < |q| ensures exists j | 0 <= j < |raw| :: Classify(db, existing, raw[j]) == Ok(Some(q[i])) {
      var j :| 0 <= j < |cs| && cs[j] == Ok(Some(q[i]));
      assert Classify(db, existing, raw[j]) == cs[j];
    }
  }

  /** Each record that classifies as a district is queued. */
  lemma {:induction false} QueueComplete(db: Db, existing: set<int>, raw: seq<Json>, j: int, d: Pending)
    requires Valid(db) && Queue(db, existing, raw).Ok? && 0 <= j < |raw|
    requires Classify(db, existing, raw[j]) == Ok(Some(d))
    ensures exists i | 0 <= i < |Queue(db, existing, raw).value| :: Queue(db, existing, raw).value[i] == d
  {
    var cs := Classes(db, existing, raw);
    QueueIsKept(db, existing, raw);
    assert cs[j] == Ok(Some(d));
    KeptComplete(cs, j, d);
  }

  /** Nothing is queued when every record classifies as skipped. */
  lemma {:induction false} QueueEmpty(db: Db, existing: set<int>, raw: seq<Json>)
    requires Valid(db) && forall i | 0 <= i < |raw| :: Classify(db, existing, raw[i]) == Ok(None)
    ensures Queue(db, existing, raw) == Ok([])
    decreases |raw|
  {
    if raw != [] {
      var p := raw[..|raw| - 1];
      assert forall i | 0 <= i < |p| :: p[i] == raw[i];
      QueueEmpty(db, existing, p);
    }
  }

  // ---- the batches ----

  lemma {:induction false} RowsSplit(a: seq<Pending>, b: seq<Pending>)
    requires forall i | 0 <= i < |a + b| :: NotNull((a + b)[i])
    ensures forall i | 0 <= i < |a| :: NotNull(a[i])
    ensures forall i | 0 <= i < |b| :: NotNull(b[i])
    ensures Rows(a + b) == Rows(a) + Rows(b)
  {
    assert forall i | 0 <= i < |a| :: a[i] == (a + b)[i];
    assert forall i | 0 <= i < |b| :: b[i] == (a + b)[|a| + i];
  }

  /** A null reference anywhere in the two batches fails the first batch or the second. */
  lemma {:induction false} NullSplit(table: map<int, Distrito>, a: seq<Pending>, b: seq<Pending>, i: int)
    requires 0 <= i < |a + b| && !NotNull((a + b)[i])
    ensures InsertDistritos(table, a).Ok? ==> InsertDistritos(InsertDistritos(table, a).value, b) == Err(DatabaseError)
  {
    if i < |a| {
      assert a[i] == (a + b)[i];
    } else {
      assert b[i - |a|] == (a + b)[i];
    }
  }

  /** Bulk-creating the queue in consecutive batches, inside one transaction, is bulk-creating it at once. */
  lemma {:induction false} InsertDistritosSplit(table: map<int, Distrito>, a: seq<Pending>, b: seq<Pending>)
    ensures InsertDistritos(table, a + b) ==
      (match InsertDistritos(table, a)
       case Err(e) => Err(e)
       case Ok(t) => InsertDistritos(t, b))
  {
    if forall i | 0 <= i < |a + b| :: NotNull((a + b)[i]) {
      RowsSplit(a, b);
      InsertRowsSplit(table, Rows(a), Rows(b), DistritoKey, Int64);
    } else {
      var i :| 0 <= i < |a + b| && !NotNull((a + b)[i]);
      NullSplit(table, a, b, i);
    }
  }

  /** The prefix of the queue saved after one more batch. */
  lemma {:induction false} NextBatch(table: map<int, Distrito>, queue: seq<Pending>, done: int, end: int)
    requires 0 <= done <= end <= |queue|
    ensures InsertDistritos(table, queue[..end]) ==
      (match InsertDistritos(table, queue[..done])
       case Err(e) => Err(e)
       case Ok(t) => InsertDistritos(t, queue[done..end]))
  {
    assert queue[..done] + queue[done..end] == queue[..end];
    InsertDistritosSplit(table, queue[..done], queue[done..end]);
  }

  /** A failing batch fails the whole queue. */
  lemma {:induction false} BatchFails(table: map<int, Distrito>, queue: seq<Pending>, end: int)
    requires 0 <= end <= |queue| && InsertDistritos(table, queue[..end]).Err?
    ensures InsertDistritos(table, queue).Err?
  {
    assert queue[..end] + queue[end..] == queue;
    InsertDistritosSplit(table, queue[..end], queue[end..]);
  }

  /** A successful batch had no null reference, kept every stored row and stored each queued district. */
  lemma {:induction false} InsertDistritosContents(table: map<int, Distrito>, batch: seq<Pending>)
    requires InsertDistritos(table, batch).Ok?
    ensures forall i | 0 <= i < |batch| :: NotNull(batch[i])
    ensures SubMap(table, InsertDistritos(table, batch).value)
    ensures forall i | 0 <= i < |batch| ::
      batch[i].id in InsertDistritos(table, batch).value && InsertDistritos(table, batch).value[batch[i].id] == DistritoRow(batch[i])
    ensures |InsertDistritos(table, batch).value| == |table| + |batch|
    ensures forall k | k in InsertDistritos(table, batch).value && k !in table ::
      Fits(k, Int64) && exists i | 0 <= i < |batch| :: batch[i].id == k && InsertDistritos(table, batch).value[k] == DistritoRow(batch[i])
  {
    var rows := Rows(batch);
    InsertRowsContents(table, rows, DistritoKey, Int64);
    InsertRowsNew(table, rows, DistritoKey, Int64);
    var t := InsertDistritos(table, batch).value;
    forall i | 0 <= i < |batch| ensures batch[i].id in t && t[batch[i].id] == DistritoRow(batch[i]) {
      assert DistritoKey(rows[i]) == batch[i].id;
    }
    forall k | k in t && k !in table
      ensures Fits(k, Int64) && exists i | 0 <= i < |batch| :: batch[i].id == k && t[k] == DistritoRow(batch[i])
    {
      var i :| 0 <= i < |rows| && DistritoKey(rows[i]) == k && t[k] == rows[i] && Fits(k, Int64);
      assert batch[i].id == k;
    }
  }

  /** A queued district without an immediate region makes the whole bulk create fail. */
  lemma {:induction false} NullImediataFails(table: map<int, Distrito>, batch: seq<Pending>, i: int)
    requires 0 <= i < |batch| && batch[i].regiaoImediataId.None?
    ensures InsertDistritos(table, batch) == Err(DatabaseError)
  {
    assert !NotNull(batch[i]);
  }

  // ---- what an import guarantees ----

  /** Every queued district carries its municipality's chain. */
  lemma {:induction false} QueueMatches(db: Db, existing: set<int>, raw: seq<Json>)
    requires Valid(db) && Queue(db, existing, raw).Ok?
    ensures forall i | 0 <= i < |Queue(db, existing, raw).value| :: PendingMatches(db, Queue(db, existing, raw).value[i])
  {
    var q := Queue(db, existing, raw).value;
    QueueSound(db, existing, raw);
    forall i | 0 <= i < |q| ensures PendingMatches(db, q[i]) {
      var j :| 0 <= j < |raw| && Classify(db, existing, raw[j]) == Ok(Some(q[i]));
      ClassifyQueued(db, existing, raw[j]);
    }
  }

  /** Each row of the district table after the write is a stored row or a queued district's, and either kind is sound. */
  lemma {:induction false} NewDistritoRow(db: Db, q: seq<Pending>, r: Db, k: int)
    requires Valid(db) && Denormalized(db) && InsertDistritos(db.distritos, q).Ok?
    requires forall i | 0 <= i < |q| :: PendingMatches(db, q[i])
    requires r == db.(distritos := InsertDistritos(db.distritos, q).value) && k in r.distritos
    ensures r.distritos[k].id == k && Fits(k, Int64)
    ensures MatchesChain(r, r.distritos[k]) && DistritoRefsOk(r, r.distritos[k])
  {
    InsertDistritosContents(db.distritos, q);
    if k in db.distritos {
      var d := db.distritos[k];
      assert r.distritos[k] == d;
      assert MatchesChain(db, d) && DistritoRefsOk(db, d);
    } else {
      var i :| 0 <= i < |q| && q[i].id == k && r.distritos[k] == DistritoRow(q[i]);
      assert ImediataRefs(db);
      PendingRowMatches(db, r, q[i]);
    }
  }

  /** Writing districts that carry their chains keeps the store valid and every district matched. */
  lemma {:induction false} NewDistritosValid(db: Db, q: seq<Pending>)
    requires Valid(db) && Denormalized(db) && InsertDistritos(db.distritos, q).Ok?
    requires forall i | 0 <= i < |q| :: PendingMatches(db, q[i])
    ensures Valid(db.(distritos := InsertDistritos(db.distritos, q).value))
    ensures Denormalized(db.(distritos := InsertDistritos(db.distritos, q).value))
  {
    var r := db.(distritos := InsertDistritos(db.distritos, q).value);
    InsertDistritosContents(db.distritos, q);
    forall k | k in r.distritos
      ensures r.distritos[k].id == k && Fits(k, Int64) && MatchesChain(r, r.distritos[k]) && DistritoRefsOk(r, r.distritos[k])
    {
      NewDistritoRow(db, q, r, k);
    }
    ExtendsKeepsRefs(db, r);
  }

  /**
   * A successful import keeps the store valid and every district matched
   * with its municipality's chain, keeps every stored row, and writes
   * nothing but districts.
   */
  lemma {:induction false} ImportDistritosValid(db: Db, raw: seq<Json>)
    requires Valid(db) && Denormalized(db) && ImportDistritos(db, raw).Ok?
    ensures Valid(ImportDistritos(db, raw).value.0) && Denormalized(ImportDistritos(db, raw).value.0)
    ensures Extends(db, ImportDistritos(db, raw).value.0)
    ensures ImportDistritos(db, raw).value.0 == db.(distritos := ImportDistritos(db, raw).value.0.distritos)
  {
    var q := Queue(db, db.distritos.Keys, raw).value;
    if q != [] {
      QueueMatches(db, db.distritos.Keys, raw);
      NewDistritosValid(db, q);
      InsertDistritosContents(db.distritos, q);
    }
  }

  /**
   * The report: `created` is the number of districts queued and the number
   * the table grew by, and each queued district is stored under its id as
   * the row built from its chain.
   */
  lemma {:induction false} ImportDistritosCreates(db: Db, raw: seq<Json>)
    requires Valid(db) && ImportDistritos(db, raw).Ok?
    ensures ImportDistritos(db, raw).value.1.totalProcessed == |raw|
    ensures ImportDistritos(db, raw).value.1.created == |Queue(db, db.distritos.Keys, raw).value|
    ensures |ImportDistritos(db, raw).value.0.distritos| == |db.distritos| + ImportDistritos(db, raw).value.1.created
    ensures forall i | 0 <= i < |Queue(db, db.distritos.Keys, raw).value| ::
      && NotNull(Queue(db, db.distritos.Keys, raw).value[i])
      && Queue(db, db.distritos.Keys, raw).value[i].id in ImportDistritos(db, raw).value.0.distritos
      && ImportDistritos(db, raw).value.0.distritos[Queue(db, db.distritos.Keys, raw).value[i].id]
         == DistritoRow(Queue(db, db.distritos.Keys, raw).value[i])
  {
    var q := Queue(db, db.distritos.Keys, raw).value;
    var (r, rep) := ImportDistritos(db, raw).value;
    if q != [] {
      var t := InsertDistritos(db.distritos, q).value;
      assert r == db.(distritos := t) && rep == DistritoReport(|raw|, |q|);
      InsertDistritosContents(db.distritos, q);
    } else {
      assert r == db && rep == DistritoReport(|raw|, 0);
    }
  }

  /** The import fails, and so writes nothing, when a queued district's municipality has no immediate region. */
  lemma {:induction false} ImportDistritosNullImediata(db: Db, raw: seq<Json>, i: int)
    requires Valid(db) && Queue(db, db.distritos.Keys, raw).Ok?
    requires 0 <= i < |Queue(db, db.distritos.Keys, raw).value|
    requires Queue(db, db.distritos.Keys, raw).value[i].regiaoImediataId.None?
    ensures ImportDistritos(db, raw) == Err(DatabaseError)
  {
    NullImediataFails(db.distritos, Queue(db, db.distritos.Keys, raw).value, i);
  }

  /** The records' ids, when present, are JSON integers, as the API sends them. */
  predicate IntIds(raw: seq<Json>)
  {
    forall i | 0 <= i < |raw| :: Index(raw[i], "id").Ok? ==> Index(raw[i], "id").value.JInt?
  }

  /** A skipped record stays skipped once more districts are stored. */
  lemma {:induction false} SkippedStaysSkipped(db: Db, db2: Db, existing: set<int>, existing2: set<int>, x: Json)
    requires Valid(db) && Valid(db2) && db2 == db.(distritos := db2.distritos) && existing <= existing2
    requires Classify(db, existing, x) == Ok(None)
    ensures Classify(db2, existing2, x) == Ok(None)
  {
  }

  /**
   * A record is skipped against a store that kept the old rows, changed
   * nothing but districts and holds every district the queue had: a
   * district the record queued is stored under the id it is tested by.
   */
  lemma {:induction false} RerunSkips(db: Db, r: Db, raw: seq<Json>, j: int)
    requires Valid(db) && Valid(r) && IntIds(raw) && 0 <= j < |raw|
    requires r == db.(distritos := r.distritos) && db.distritos.Keys <= r.distritos.Keys
    requires Queue(db, db.distritos.Keys, raw).Ok?
    requires forall i | 0 <= i < |Queue(db, db.distritos.Keys, raw).value| :: Queue(db, db.distritos.Keys, raw).value[i].id in r.distritos
    ensures Classify(r, r.distritos.Keys, raw[j]) == Ok(None)
  {
    var e := db.distritos.Keys;
    QueueOk(db, e, raw);
    var c := Classify(db, e, raw[j]);
    if c.value.Some? {
      var q := Queue(db, e, raw).value;
      var d := c.value.value;
      QueueComplete(db, e, raw, j, d);
      ClassifyQueued(db, e, raw[j]);
      var i :| 0 <= i < |q| && q[i] == d;
      assert d.id in r.distritos;
      StoredIdSkipped(r, r.distritos.Keys, raw[j], d.id);
    } else {
      SkippedStaysSkipped(db, r, e, r.distritos.Keys, raw[j]);
    }
  }

  /** Running the import again on the same records queues nothing and changes nothing. */
  lemma {:induction false} ImportDistritosIdempotent(db: Db, raw: seq<Json>)
    requires Valid(db) && Denormalized(db) && IntIds(raw)
    requires ImportDistritos(db, raw).Ok?
    ensures Valid(ImportDistritos(db, raw).value.0)
    ensures ImportDistritos(ImportDistritos(db, raw).value.0, raw) ==
      Ok((ImportDistritos(db, raw).value.0, ImportDistritos(db, raw).value.1.(created := 0)))
  {
    var (r, rep) := ImportDistritos(db, raw).value;
    ImportDistritosValid(db, raw);
    ImportDistritosCreates(db, raw);
    assert db.distritos.Keys <= r.distritos.Keys by {
      forall k | k in db.distritos ensures k in r.distritos {
        assert k in db.distritos;
      }
    }
    forall j | 0 <= j < |raw| ensures Classify(r, r.distritos.Keys, raw[j]) == Ok(None) {
      RerunSkips(db, r, raw, j);
    }
    QueueEmpty(r, r.distritos.Keys, raw);
  }

  /** A record that passes every test ends up stored as the row carrying its municipality's chain. */
  lemma {:induction false} ImportDistritosComplete(db: Db, raw: seq<Json>, j: int, c: Clean, mId: int)
    requires Valid(db) && ImportDistritos(db, raw).Ok? && 0 <= j < |raw|
    requires Index(raw[j], "id").Ok? && IntKey(Index(raw[j], "id").value).Ok?
    requires IntKey(Index(raw[j], "id").value).value.Some? ==> IntKey(Index(raw[j], "id").value).value.value !in db.distritos
    requires ValidateDistrito(raw[j]) == Ok(c) && MunicipioRef(raw[j]) == Ok(Some(mId)) && Usable(db, mId)
    ensures NotNull(Ancestry(db, c, mId))
    ensures c.id in ImportDistritos(db, raw).value.0.distritos
    ensures ImportDistritos(db, raw).value.0.distritos[c.id] == DistritoRow(Ancestry(db, c, mId))
  {
    var d := Ancestry(db, c, mId);
    ClassifyComplete(db, db.distritos.Keys, raw[j], c, mId);
    QueueComplete(db, db.distritos.Keys, raw, j, d);
    ImportDistritosCreates(db, raw);
    AncestrySpec(db, c, mId);
  }

  /** Two queued districts with the same id make the bulk create fail: repeats are not removed. */
  lemma {:induction false} RepeatedIdFails(table: map<int, Distrito>, batch: seq<Pending>, i: int, j: int)
    requires 0 <= i < j < |batch| && batch[i].id == batch[j].id
    ensures InsertDistritos(table, batch) == Err(DatabaseError)
  {
    if forall k | 0 <= k < |batch| :: NotNull(batch[k]) {
      InsertRowsOk(table, Rows(batch), DistritoKey, Int64);
      assert DistritoKey(Rows(batch)[i]) == DistritoKey(Rows(batch)[j]);
    }
  }
}
