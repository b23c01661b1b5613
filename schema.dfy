/**
 * The relational schema the geography import writes to: one row type per
 * table, the store as one map from primary key to row per table, the
 * constraints the database enforces (primary keys that name their row and
 * fit the column, foreign keys that resolve, required references that are
 * never null) and ON DELETE CASCADE.
 */
module Schema {
  import opened Wrappers

  datatype Regiao = Regiao(id: int, sigla: string, nome: string)
  datatype Uf = Uf(id: int, sigla: string, nome: string, regiaoId: int)
  datatype Estado = Estado(id: int, sigla: string, nome: string, regiaoId: int)
  datatype RegiaoIntermediaria = RegiaoIntermediaria(id: int, nome: string, ufId: int)
  datatype RegiaoImediata = RegiaoImediata(id: int, nome: string, regiaoIntermediariaId: int)
  datatype Mesorregiao = Mesorregiao(id: int, nome: string, ufId: int)
  datatype Microrregiao = Microrregiao(id: int, nome: string, mesorregiaoId: int)
  /** The two references of a municipality are nullable. */
  datatype Municipio = Municipio(id: int, nome: string, microrregiaoId: Option<int>, regiaoImediataId: Option<int>)
  /** A district carries seven required references, denormalised from its municipality. */
  datatype Distrito = Distrito(
    id: int, nome: string, municipioId: int, microrregiaoId: int, mesorregiaoId: int,
    ufId: int, regiaoId: int, regiaoImediataId: int, regiaoIntermediariaId: int)

  /** Every table, keyed by primary key. */
  datatype Db = Db(
    regioes: map<int, Regiao>,
    ufs: map<int, Uf>,
    estados: map<int, Estado>,
    intermediarias: map<int, RegiaoIntermediaria>,
    imediatas: map<int, RegiaoImediata>,
    mesorregioes: map<int, Mesorregiao>,
    microrregioes: map<int, Microrregiao>,
    municipios: map<int, Municipio>,
    distritos: map<int, Distrito>)

  const EmptyDb := Db(map[], map[], map[], map[], map[], map[], map[], map[], map[])

  /** IntegerField is a signed 32-bit column, BigIntegerField (the district key) a signed 64-bit one. */
  datatype Width = Int32 | Int64

  predicate Fits(k: int, w: Width)
  {
    match w
    case Int32 => -0x8000_0000 <= k < 0x8000_0000
    case Int64 => -0x8000_0000_0000_0000 <= k < 0x8000_0000_0000_0000
  }

  // ---- primary keys ----

  predicate KeysMatch(db: Db)
  {
    && (forall k | k in db.regioes :: db.regioes[k].id == k)
    && (forall k | k in db.ufs :: db.ufs[k].id == k)
    && (forall k | k in db.estados :: db.estados[k].id == k)
    && (forall k | k in db.intermediarias :: db.intermediarias[k].id == k)
    && (forall k | k in db.imediatas :: db.imediatas[k].id == k)
    && (forall k | k in db.mesorregioes :: db.mesorregioes[k].id == k)
    && (forall k | k in db.microrregioes :: db.microrregioes[k].id == k)
    && (forall k | k in db.municipios :: db.municipios[k].id == k)
    && (forall k | k in db.distritos :: db.distritos[k].id == k)
  }

  predicate KeysFit(db: Db)
  {
    && (forall k | k in db.regioes :: Fits(k, Int32))
    && (forall k | k in db.ufs :: Fits(k, Int32))
    && (forall k | k in db.estados :: Fits(k, Int32))
    && (forall k | k in db.intermediarias :: Fits(k, Int32))
    && (forall k | k in db.imediatas :: Fits(k, Int32))
    && (forall k | k in db.mesorregioes :: Fits(k, Int32))
    && (forall k | k in db.microrregioes :: Fits(k, Int32))
    && (forall k | k in db.municipios :: Fits(k, Int32))
    && (forall k | k in db.distritos :: Fits(k, Int64))
  }

  // ---- foreign keys, one predicate per referencing table ----

  predicate UfRefs(db: Db)
  {
    forall k | k in db.ufs :: db.ufs[k].regiaoId in db.regioes
  }

  predicate EstadoRefs(db: Db)
  {
    forall k | k in db.estados :: db.estados[k].regiaoId in db.regioes
  }

  /** RegiaoIntermediaria and Mesorregiao reference Uf, not Estado. */
  predicate IntermediariaRefs(db: Db)
  {
    forall k | k in db.intermediarias :: db.intermediarias[k].ufId in db.ufs
  }

  predicate ImediataRefs(db: Db)
  {
    forall k | k in db.imediatas :: db.imediatas[k].regiaoIntermediariaId in db.intermediarias
  }

  predicate MesoRefs(db: Db)
  {
    forall k | k in db.mesorregioes :: db.mesorregioes[k].ufId in db.ufs
  }

  predicate MicroRefs(db: Db)
  {
    forall k | k in db.microrregioes :: db.microrregioes[k].mesorregiaoId in db.mesorregioes
  }

  predicate MunicipioRefsOk(db: Db, m: Municipio)
  {
    && (m.microrregiaoId.Some? ==> m.microrregiaoId.value in db.microrregioes)
    && (m.regiaoImediataId.Some? ==> m.regiaoImediataId.value in db.imediatas)
  }

  predicate MunicipioRefs(db: Db)
  {
    forall k | k in db.municipios :: MunicipioRefsOk(db, db.municipios[k])
  }

  predicate DistritoRefsOk(db: Db, d: Distrito)
  {
    && d.municipioId in db.municipios
    && d.microrregiaoId in db.microrregioes
    && d.mesorregiaoId in db.mesorregioes
    && d.ufId in db.ufs
    && d.regiaoId in db.regioes
    && d.regiaoImediataId in db.imediatas
    && d.regiaoIntermediariaId in db.intermediarias
  }

  predicate DistritoRefs(db: Db)
  {
    forall k | k in db.distritos :: DistritoRefsOk(db, db.distritos[k])
  }

  predicate ForeignKeys(db: Db)
  {
    UfRefs(db) && EstadoRefs(db) && IntermediariaRefs(db) && ImediataRefs(db) && MesoRefs(db)
    && MicroRefs(db) && MunicipioRefs(db) && DistritoRefs(db)
  }

  /** What the database itself guarantees of every committed state. */
  predicate Valid(db: Db)
  {
    KeysMatch(db) && KeysFit(db) && ForeignKeys(db)
  }

  /**
   * The import's own invariant on districts: the seven references of each
   * district are its municipality's ancestry chain.
   */
  predicate MatchesChain(db: Db, d: Distrito)
  {
    && d.municipioId in db.municipios
    && db.municipios[d.municipioId].microrregiaoId == Some(d.microrregiaoId)
    && db.municipios[d.municipioId].regiaoImediataId == Some(d.regiaoImediataId)
    && d.microrregiaoId in db.microrregioes
    && db.microrregioes[d.microrregiaoId].mesorregiaoId == d.mesorregiaoId
    && d.mesorregiaoId in db.mesorregioes
    && db.mesorregioes[d.mesorregiaoId].ufId == d.ufId
    && d.ufId in db.ufs
    && db.ufs[d.ufId].regiaoId == d.regiaoId
    && d.regiaoImediataId in db.imediatas
    && db.imediatas[d.regiaoImediataId].regiaoIntermediariaId == d.regiaoIntermediariaId
  }

  predicate Denormalized(db: Db)
  {
    forall k | k in db.distritos :: MatchesChain(db, db.distritos[k])
  }

  /** The freshly migrated database, with every table empty, meets every constraint and the district invariant. */
  lemma {:induction false} EmptyDbValid()
    ensures Valid(EmptyDb) && Denormalized(EmptyDb)
  {
  }

  // ---- "existing rows untouched" ----

  predicate SubMap<R(==)>(a: map<int, R>, b: map<int, R>)
  {
    forall k | k in a :: k in b && b[k] == a[k]
  }

  /** Every row of `db` is still in `db2`, unchanged. */
  predicate Extends(db: Db, db2: Db)
  {
    && SubMap(db.regioes, db2.regioes)
    && SubMap(db.ufs, db2.ufs)
    && SubMap(db.estados, db2.estados)
    && SubMap(db.intermediarias, db2.intermediarias)
    && SubMap(db.imediatas, db2.imediatas)
    && SubMap(db.mesorregioes, db2.mesorregioes)
    && SubMap(db.microrregioes, db2.microrregioes)
    && SubMap(db.municipios, db2.municipios)
    && SubMap(db.distritos, db2.distritos)
  }

  /** Adding rows never breaks a municipality's references. */
  lemma {:induction false} ExtendsKeepsMunicipioRefs(db: Db, db2: Db, m: Municipio)
    requires MunicipioRefsOk(db, m) && Extends(db, db2)
    ensures MunicipioRefsOk(db2, m)
  {
    if m.microrregiaoId.Some? {
      var k: int := m.microrregiaoId.value;
      assert k in db.microrregioes;
    }
    if m.regiaoImediataId.Some? {
      var k: int := m.regiaoImediataId.value;
      assert k in db.imediatas;
    }
  }

  /** Adding rows never breaks a district's references. */
  lemma {:induction false} ExtendsKeepsDistritoRefs(db: Db, db2: Db, d: Distrito)
    requires DistritoRefsOk(db, d) && Extends(db, db2)
    ensures DistritoRefsOk(db2, d)
  {
  }

  /** Adding rows, changing none: the foreign keys of every table left as it was still resolve. */
  lemma {:induction false} ExtendsKeepsRefs(db: Db, db2: Db)
    requires ForeignKeys(db) && Extends(db, db2)
    ensures db2.ufs == db.ufs ==> UfRefs(db2)
    ensures db2.estados == db.estados ==> EstadoRefs(db2)
    ensures db2.intermediarias == db.intermediarias ==> IntermediariaRefs(db2)
    ensures db2.imediatas == db.imediatas ==> ImediataRefs(db2)
    ensures db2.mesorregioes == db.mesorregioes ==> MesoRefs(db2)
    ensures db2.microrregioes == db.microrregioes ==> MicroRefs(db2)
    ensures db2.municipios == db.municipios ==> MunicipioRefs(db2)
    ensures db2.distritos == db.distritos ==> DistritoRefs(db2)
  {
    if db2.municipios == db.municipios {
      forall k | k in db2.municipios ensures MunicipioRefsOk(db2, db2.municipios[k]) {
        ExtendsKeepsMunicipioRefs(db, db2, db.municipios[k]);
      }
    }
    if db2.distritos == db.distritos {
      forall k | k in db2.distritos ensures DistritoRefsOk(db2, db2.distritos[k]) {
        ExtendsKeepsDistritoRefs(db, db2, db.distritos[k]);
      }
    }
  }

  /** Adding rows elsewhere never breaks a district's match with its chain. */
  lemma {:induction false} ExtendsKeepsDenormalized(db: Db, db2: Db)
    requires Denormalized(db) && Extends(db, db2) && db2.distritos == db.distritos
    ensures Denormalized(db2)
  {
    forall k | k in db2.distritos ensures MatchesChain(db2, db2.distritos[k]) {
      var d := db.distritos[k];
      assert MatchesChain(db, d);
      assert db2.municipios[d.municipioId] == db.municipios[d.municipioId];
      assert db2.microrregioes[d.microrregiaoId] == db.microrregioes[d.microrregiaoId];
      assert db2.mesorregioes[d.mesorregiaoId] == db.mesorregioes[d.mesorregiaoId];
      assert db2.ufs[d.ufId] == db.ufs[d.ufId];
      assert db2.imediatas[d.regiaoImediataId] == db.imediatas[d.regiaoImediataId];
    }
  }

  // ---- ON DELETE CASCADE ----

  datatype Table =
    | RegiaoTable | UfTable | EstadoTable | IntermediariaTable | ImediataTable
    | MesorregiaoTable | MicrorregiaoTable | MunicipioTable | DistritoTable

  function KeysOf(db: Db, t: Table): set<int>
  {
    match t
    case RegiaoTable => db.regioes.Keys
    case UfTable => db.ufs.Keys
    case EstadoTable => db.estados.Keys
    case IntermediariaTable => db.intermediarias.Keys
    case ImediataTable => db.imediatas.Keys
    case MesorregiaoTable => db.mesorregioes.Keys
    case MicrorregiaoTable => db.microrregioes.Keys
    case MunicipioTable => db.municipios.Keys
    case DistritoTable => db.distritos.Keys
  }

  function Seed(t: Table, here: Table, ids: set<int>): set<int>
  {
    if t == here then ids else {}
  }

  /** The keys removed from each table when the rows `ids` of table `t` are deleted. */
  datatype Doomed = Doomed(
    regioes: set<int>, ufs: set<int>, estados: set<int>, intermediarias: set<int>,
    imediatas: set<int>, mesorregioes: set<int>, microrregioes: set<int>,
    municipios: set<int>, distritos: set<int>)

  predicate DistritoHit(x: Doomed, d: Distrito)
  {
    || d.municipioId in x.municipios
    || d.microrregiaoId in x.microrregioes
    || d.mesorregiaoId in x.mesorregioes
    || d.ufId in x.ufs
    || d.regiaoId in x.regioes
    || d.regiaoImediataId in x.imediatas
    || d.regiaoIntermediariaId in x.intermediarias
  }

  predicate MunicipioHit(mi: set<int>, im: set<int>, m: Municipio)
  {
    || (m.microrregiaoId.Some? && m.microrregiaoId.value in mi)
    || (m.regiaoImediataId.Some? && m.regiaoImediataId.value in im)
  }

  /** Rows of `m` whose parent key, as `parent` reads it, is in `gone`. */
  function Orphans<R>(m: map<int, R>, parent: R -> int, gone: set<int>): (o: set<int>)
    ensures forall k :: k in o <==> k in m && parent(m[k]) in gone
  {
    set k | k in m && parent(m[k]) in gone
  }

  function UfRegiao(u: Uf): int { u.regiaoId }
  function EstadoRegiao(e: Estado): int { e.regiaoId }
  function IntermediariaUf(ri: RegiaoIntermediaria): int { ri.ufId }
  function ImediataIntermediaria(im: RegiaoImediata): int { im.regiaoIntermediariaId }
  function MesoUf(me: Mesorregiao): int { me.ufId }
  function MicroMeso(mi: Microrregiao): int { mi.mesorregiaoId }

  function MunicipioOrphans(db: Db, mi: set<int>, im: set<int>): (o: set<int>)
    ensures forall k :: k in o <==> k in db.municipios && MunicipioHit(mi, im, db.municipios[k])
  {
    set k | k in db.municipios && MunicipioHit(mi, im, db.municipios[k])
  }

  function DistritoOrphans(db: Db, x: Doomed): (o: set<int>)
    ensures forall k :: k in o <==> k in db.distritos && DistritoHit(x, db.distritos[k])
  {
    set k | k in db.distritos && DistritoHit(x, db.distritos[k])
  }

  /** The transitive closure of the deletion, computed parent level before child level. */
  function Closure(db: Db, t: Table, ids: set<int>): (x: Doomed)
    ensures x.regioes == Seed(t, RegiaoTable, ids)
    ensures x.ufs == Seed(t, UfTable, ids) + Orphans(db.ufs, UfRegiao, x.regioes)
    ensures x.estados == Seed(t, EstadoTable, ids) + Orphans(db.estados, EstadoRegiao, x.regioes)
    ensures x.intermediarias == Seed(t, IntermediariaTable, ids) + Orphans(db.intermediarias, IntermediariaUf, x.ufs)
    ensures x.imediatas == Seed(t, ImediataTable, ids) + Orphans(db.imediatas, ImediataIntermediaria, x.intermediarias)
    ensures x.mesorregioes == Seed(t, MesorregiaoTable, ids) + Orphans(db.mesorregioes, MesoUf, x.ufs)
    ensures x.microrregioes == Seed(t, MicrorregiaoTable, ids) + Orphans(db.microrregioes, MicroMeso, x.mesorregioes)
    ensures x.municipios == Seed(t, MunicipioTable, ids) + MunicipioOrphans(db, x.microrregioes, x.imediatas)
    ensures x.distritos == Seed(t, DistritoTable, ids) + DistritoOrphans(db, x.(distritos := {}))
  {
    var r := Seed(t, RegiaoTable, ids);
    var u := Seed(t, UfTable, ids) + Orphans(db.ufs, UfRegiao, r);
    var e := Seed(t, EstadoTable, ids) + Orphans(db.estados, EstadoRegiao, r);
    var ri := Seed(t, IntermediariaTable, ids) + Orphans(db.intermediarias, IntermediariaUf, u);
    var im := Seed(t, ImediataTable, ids) + Orphans(db.imediatas, ImediataIntermediaria, ri);
    var me := Seed(t, MesorregiaoTable, ids) + Orphans(db.mesorregioes, MesoUf, u);
    var mi := Seed(t, MicrorregiaoTable, ids) + Orphans(db.microrregioes, MicroMeso, me);
    var mu := Seed(t, MunicipioTable, ids) + MunicipioOrphans(db, mi, im);
    var x := Doomed(r, u, e, ri, im, me, mi, mu, {});
    x.(distritos := Seed(t, DistritoTable, ids) + DistritoOrphans(db, x))
  }

  /** `Model.objects.filter(pk__in=ids).delete()` on table `t`, with every reference ON DELETE CASCADE. */
  function CascadeDelete(db: Db, t: Table, ids: set<int>): (r: Db)
    ensures Extends(r, db)
    ensures KeysOf(r, t) !! ids
  {
    var x := Closure(db, t, ids);
    Db(db.regioes - x.regioes, db.ufs - x.ufs, db.estados - x.estados,
       db.intermediarias - x.intermediarias, db.imediatas - x.imediatas,
       db.mesorregioes - x.mesorregioes, db.microrregioes - x.microrregioes,
       db.municipios - x.municipios, db.distritos - x.distritos)
  }

  /** Removing every orphan of the removed parents leaves no child pointing at a removed parent. */
  lemma {:induction false} OrphansGone<R, P>(child: map<int, R>, parent: map<int, P>, f: R -> int, gone: set<int>, removed: set<int>)
    requires forall k | k in child :: f(child[k]) in parent
    requires Orphans(child, f, gone) <= removed
    ensures forall k | k in child - removed :: f((child - removed)[k]) in parent - gone
  {
    forall k | k in child - removed ensures f((child - removed)[k]) in parent - gone {
      assert k !in Orphans(child, f, gone);
    }
  }

  lemma {:induction false} CascadeKeys(db: Db, t: Table, ids: set<int>)
    requires Valid(db)
    ensures KeysMatch(CascadeDelete(db, t, ids)) && KeysFit(CascadeDelete(db, t, ids))
  {
    assert Extends(CascadeDelete(db, t, ids), db);
  }

  lemma {:induction false} CascadeHierarchyRefs(db: Db, t: Table, ids: set<int>)
    requires Valid(db)
    ensures var r := CascadeDelete(db, t, ids);
      UfRefs(r) && EstadoRefs(r) && IntermediariaRefs(r) && ImediataRefs(r) && MesoRefs(r) && MicroRefs(r)
  {
    var x := Closure(db, t, ids);
    OrphansGone(db.ufs, db.regioes, UfRegiao, x.regioes, x.ufs);
    OrphansGone(db.estados, db.regioes, EstadoRegiao, x.regioes, x.estados);
    OrphansGone(db.intermediarias, db.ufs, IntermediariaUf, x.ufs, x.intermediarias);
    OrphansGone(db.imediatas, db.intermediarias, ImediataIntermediaria, x.intermediarias, x.imediatas);
    OrphansGone(db.mesorregioes, db.ufs, MesoUf, x.ufs, x.mesorregioes);
    OrphansGone(db.microrregioes, db.mesorregioes, MicroMeso, x.mesorregioes, x.microrregioes);
  }

  lemma {:induction false} CascadeMunicipioRefs(db: Db, t: Table, ids: set<int>)
    requires Valid(db)
    ensures MunicipioRefs(CascadeDelete(db, t, ids))
  {
    var x := Closure(db, t, ids);
    var r := CascadeDelete(db, t, ids);
    forall k | k in r.municipios ensures MunicipioRefsOk(r, r.municipios[k]) {
      assert k !in MunicipioOrphans(db, x.microrregioes, x.imediatas);
      assert MunicipioRefsOk(db, db.municipios[k]);
    }
  }

  lemma {:induction false} CascadeDistritoRefs(db: Db, t: Table, ids: set<int>)
    requires Valid(db)
    ensures DistritoRefs(CascadeDelete(db, t, ids))
  {
    var x := Closure(db, t, ids);
    var r := CascadeDelete(db, t, ids);
    forall k | k in r.distritos ensures DistritoRefsOk(r, r.distritos[k]) {
      assert k !in DistritoOrphans(db, x.(distritos := {}));
      assert DistritoRefsOk(db, db.distritos[k]);
    }
  }

  /** Cascading keeps the store consistent: no reference is left dangling. */
  lemma {:induction false} CascadeDeleteKeepsValid(db: Db, t: Table, ids: set<int>)
    requires Valid(db)
    ensures Valid(CascadeDelete(db, t, ids))
  {
    CascadeKeys(db, t, ids);
    CascadeHierarchyRefs(db, t, ids);
    CascadeMunicipioRefs(db, t, ids);
    CascadeDistritoRefs(db, t, ids);
  }

  /** Districts that survive still match their municipality's chain. */
  lemma {:induction false} CascadeDeleteKeepsDenormalized(db: Db, t: Table, ids: set<int>)
    requires Denormalized(db)
    ensures Denormalized(CascadeDelete(db, t, ids))
  {
    var r := CascadeDelete(db, t, ids);
    forall k | k in r.distritos ensures MatchesChain(r, r.distritos[k]) {
      var d := db.distritos[k];
      assert MatchesChain(db, d);
    }
  }

  /** A child row survives exactly when it is not a seed and its parent survives. */
  lemma {:induction false} SurvivesIff<R, P>(child: map<int, R>, parent: map<int, P>, f: R -> int, seed: set<int>, gone: set<int>)
    requires forall k | k in child :: f(child[k]) in parent
    ensures forall k | k in child ::
      k in child - (seed + Orphans(child, f, gone)) <==> k !in seed && f(child[k]) in parent - gone
  {
  }

  lemma {:induction false} MinimalUfs(db: Db, t: Table, ids: set<int>)
    requires UfRefs(db)
    ensures var r := CascadeDelete(db, t, ids);
      forall k | k in db.ufs :: k in r.ufs <==> !(t == UfTable && k in ids) && db.ufs[k].regiaoId in r.regioes
  {
    var x := Closure(db, t, ids);
    SurvivesIff(db.ufs, db.regioes, UfRegiao, Seed(t, UfTable, ids), x.regioes);
  }

  lemma {:induction false} MinimalEstados(db: Db, t: Table, ids: set<int>)
    requires EstadoRefs(db)
    ensures var r := CascadeDelete(db, t, ids);
      forall k | k in db.estados :: k in r.estados <==> !(t == EstadoTable && k in ids) && db.estados[k].regiaoId in r.regioes
  {
    var x := Closure(db, t, ids);
    SurvivesIff(db.estados, db.regioes, EstadoRegiao, Seed(t, EstadoTable, ids), x.regioes);
  }

  lemma {:induction false} MinimalIntermediarias(db: Db, t: Table, ids: set<int>)
    requires IntermediariaRefs(db)
    ensures var r := CascadeDelete(db, t, ids);
      forall k | k in db.intermediarias :: k in r.intermediarias <==> !(t == IntermediariaTable && k in ids) && db.intermediarias[k].ufId in r.ufs
  {
    var x := Closure(db, t, ids);
    SurvivesIff(db.intermediarias, db.ufs, IntermediariaUf, Seed(t, IntermediariaTable, ids), x.ufs);
  }

  lemma {:induction false} MinimalImediatas(db: Db, t: Table, ids: set<int>)
    requires ImediataRefs(db)
    ensures var r := CascadeDelete(db, t, ids);
      forall k | k in db.imediatas :: k in r.imediatas <==> !(t == ImediataTable && k in ids) && db.imediatas[k].regiaoIntermediariaId in r.intermediarias
  {
    var x := Closure(db, t, ids);
    SurvivesIff(db.imediatas, db.intermediarias, ImediataIntermediaria, Seed(t, ImediataTable, ids), x.intermediarias);
  }

  lemma {:induction false} MinimalMesorregioes(db: Db, t: Table, ids: set<int>)
    requires MesoRefs(db)
    ensures var r := CascadeDelete(db, t, ids);
      forall k | k in db.mesorregioes :: k in r.mesorregioes <==> !(t == MesorregiaoTable && k in ids) && db.mesorregioes[k].ufId in r.ufs
  {
    var x := Closure(db, t, ids);
    SurvivesIff(db.mesorregioes, db.ufs, MesoUf, Seed(t, MesorregiaoTable, ids), x.ufs);
  }

  lemma {:induction false} MinimalMicrorregioes(db: Db, t: Table, ids: set<int>)
    requires MicroRefs(db)
    ensures var r := CascadeDelete(db, t, ids);
      forall k | k in db.microrregioes :: k in r.microrregioes <==> !(t == MicrorregiaoTable && k in ids) && db.microrregioes[k].mesorregiaoId in r.mesorregioes
  {
    var x := Closure(db, t, ids);
    SurvivesIff(db.microrregioes, db.mesorregioes, MicroMeso, Seed(t, MicrorregiaoTable, ids), x.mesorregioes);
  }

  lemma {:induction false} MinimalMunicipios(db: Db, t: Table, ids: set<int>)
    requires MunicipioRefs(db)
    ensures var r := CascadeDelete(db, t, ids);
      forall k | k in db.municipios ::
        k in r.municipios <==> !(t == MunicipioTable && k in ids) && MunicipioRefsOk(r, db.municipios[k])
  {
    var r := CascadeDelete(db, t, ids);
    forall k | k in db.municipios
      ensures k in r.municipios <==> !(t == MunicipioTable && k in ids) && MunicipioRefsOk(r, db.municipios[k])
    {
      assert MunicipioRefsOk(db, db.municipios[k]);
    }
  }

  /** A district left by the cascade has all seven references left, and it is left unless one of them goes. */
  lemma {:induction false} DistritoSurvives(db: Db, t: Table, ids: set<int>, k: int)
    requires k in db.distritos && DistritoRefsOk(db, db.distritos[k])
    ensures k in CascadeDelete(db, t, ids).distritos <==>
      !(t == DistritoTable && k in ids) && DistritoRefsOk(CascadeDelete(db, t, ids), db.distritos[k])
  {
    var x := Closure(db, t, ids);
    var r := CascadeDelete(db, t, ids);
    var d := db.distritos[k];
    assert DistritoRefsOk(r, d) <==> !DistritoHit(x.(distritos := {}), d);
    assert k in r.distritos <==> !(t == DistritoTable && k in ids) && k !in DistritoOrphans(db, x.(distritos := {}));
  }

  lemma {:induction false} MinimalDistritos(db: Db, t: Table, ids: set<int>)
    requires DistritoRefs(db)
    ensures var r := CascadeDelete(db, t, ids);
      forall k | k in db.distritos ::
        k in r.distritos <==> !(t == DistritoTable && k in ids) && DistritoRefsOk(r, db.distritos[k])
  {
    forall k | k in db.distritos
      ensures k in CascadeDelete(db, t, ids).distritos <==>
        !(t == DistritoTable && k in ids) && DistritoRefsOk(CascadeDelete(db, t, ids), db.distritos[k])
    {
      DistritoSurvives(db, t, ids, k);
    }
  }

  /**
   * Cascading removes no more than it must: a row survives exactly when it
   * was not deleted itself and every row it references survived.
   */
  lemma {:induction false} CascadeDeleteMinimal(db: Db, t: Table, ids: set<int>)
    requires Valid(db)
    ensures var r := CascadeDelete(db, t, ids);
      && (forall k | k in db.regioes :: k in r.regioes <==> !(t == RegiaoTable && k in ids))
      && (forall k | k in db.ufs :: k in r.ufs <==> !(t == UfTable && k in ids) && db.ufs[k].regiaoId in r.regioes)
      && (forall k | k in db.estados ::
            k in r.estados <==> !(t == EstadoTable && k in ids) && db.estados[k].regiaoId in r.regioes)
      && (forall k | k in db.intermediarias ::
            k in r.intermediarias <==> !(t == IntermediariaTable && k in ids) && db.intermediarias[k].ufId in r.ufs)
      && (forall k | k in db.imediatas ::
            k in r.imediatas <==> !(t == ImediataTable && k in ids)
                                   && db.imediatas[k].regiaoIntermediariaId in r.intermediarias)
      && (forall k | k in db.mesorregioes ::
            k in r.mesorregioes <==> !(t == MesorregiaoTable && k in ids) && db.mesorregioes[k].ufId in r.ufs)
      && (forall k | k in db.microrregioes ::
            k in r.microrregioes <==> !(t == MicrorregiaoTable && k in ids)
                                       && db.microrregioes[k].mesorregiaoId in r.mesorregioes)
      && (forall k | k in db.municipios ::
            k in r.municipios <==> !(t == MunicipioTable && k in ids) && MunicipioRefsOk(r, db.municipios[k]))
      && (forall k | k in db.distritos ::
            k in r.distritos <==> !(t == DistritoTable && k in ids) && DistritoRefsOk(r, db.distritos[k]))
  {
    MinimalUfs(db, t, ids);
    MinimalEstados(db, t, ids);
    MinimalIntermediarias(db, t, ids);
    MinimalImediatas(db, t, ids);
    MinimalMesorregioes(db, t, ids);
    MinimalMicrorregioes(db, t, ids);
    MinimalMunicipios(db, t, ids);
    MinimalDistritos(db, t, ids);
  }
}
