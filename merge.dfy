/**
 * `_create_hierarchy_objects`, first half: the fragments of all valid
 * municipality records merged into one dict per level, keyed by id, a
 * later fragment overwriting an earlier one with the same id.
 */
module Merging {
  import opened Wrappers
  import opened Schema
  import opened Validation

  /** One entry of `valid_municipios`. */
  datatype Item = Item(municipio: Clean, hierarchy: Hierarchy)

  /** Item `i` carries a fragment with id `k` at the level `pick` selects. */
  predicate Carries<T>(items: seq<Item>, pick: Hierarchy -> Option<T>, key: T -> int, i: int, k: int)
    requires 0 <= i < |items|
  {
    pick(items[i].hierarchy).Some? && key(pick(items[i].hierarchy).value) == k
  }

  /** `level_data[x['id']] = x` for every item whose fragment at this level is present. */
  function MergeLevel<T>(items: seq<Item>, pick: Hierarchy -> Option<T>, key: T -> int): map<int, T>
    decreases |items|
  {
    if items == [] then map[]
    else
      var m := MergeLevel(items[..|items| - 1], pick, key);
      match pick(items[|items| - 1].hierarchy)
      case None => m
      case Some(x) => m[key(x) := x]
  }

  /**
   * One candidate per id: the ids are exactly those of the fragments,
   * every candidate is stored under its own id, and the candidate for an
   * id is the fragment of the last item carrying that id.
   */
  lemma {:induction false} MergeLevelSpec<T>(items: seq<Item>, pick: Hierarchy -> Option<T>, key: T -> int)
    ensures forall k :: k in MergeLevel(items, pick, key) <==> exists i | 0 <= i < |items| :: Carries(items, pick, key, i, k)
    ensures forall k | k in MergeLevel(items, pick, key) :: key(MergeLevel(items, pick, key)[k]) == k
    ensures forall k | k in MergeLevel(items, pick, key) :: exists i | 0 <= i < |items| ::
      && Carries(items, pick, key, i, k)
      && pick(items[i].hierarchy) == Some(MergeLevel(items, pick, key)[k])
      && forall j | i < j < |items| :: !Carries(items, pick, key, j, k)
    decreases |items|
  {
    if items != [] {
      var p := items[..|items| - 1];
      var n := |items| - 1;
      MergeLevelSpec(p, pick, key);
      var m := MergeLevel(items, pick, key);
      var mp := MergeLevel(p, pick, key);
      forall i, k | 0 <= i < |p| ensures Carries(p, pick, key, i, k) == Carries(items, pick, key, i, k) {
        assert p[i] == items[i];
      }
      forall k ensures k in m <==> exists i | 0 <= i < |items| :: Carries(items, pick, key, i, k) {
        if Carries(items, pick, key, n, k) {
          assert k in m;
        } else {
          assert k in m <==> k in mp;
          if k in mp {
            var i :| 0 <= i < |p| && Carries(p, pick, key, i, k);
            assert Carries(items, pick, key, i, k);
          }
        }
      }
      forall k | k in m
        ensures exists i | 0 <= i < |items| ::
          && Carries(items, pick, key, i, k)
          && pick(items[i].hierarchy) == Some(m[k])
          && forall j | i < j < |items| :: !Carries(items, pick, key, j, k)
      {
        if Carries(items, pick, key, n, k) {
          assert pick(items[n].hierarchy) == Some(m[k]);
        } else {
          assert k in mp;
          var i :| 0 <= i < |p| && Carries(p, pick, key, i, k) && pick(p[i].hierarchy) == Some(mp[k])
                   && forall j | i < j < |p| :: !Carries(p, pick, key, j, k);
          assert p[i] == items[i];
          assert m[k] == mp[k];
          forall j | i < j < |items| ensures !Carries(items, pick, key, j, k) {
            if j < |p| { assert !Carries(p, pick, key, j, k); }
          }
        }
      }
    }
  }

  function PickRegiao(h: Hierarchy): Option<Regiao> { h.regiao }
  function PickUf(h: Hierarchy): Option<Uf> { h.uf }
  function PickIntermediaria(h: Hierarchy): Option<RegiaoIntermediaria> { h.regiaoIntermediaria }
  function PickImediata(h: Hierarchy): Option<ImediataFragment> { h.regiaoImediata }
  function PickMesorregiao(h: Hierarchy): Option<Mesorregiao> { h.mesorregiao }
  function PickMicrorregiao(h: Hierarchy): Option<Microrregiao> { h.microrregiao }

  function RegiaoKey(r: Regiao): int { r.id }
  function UfKey(u: Uf): int { u.id }
  function IntermediariaKey(r: RegiaoIntermediaria): int { r.id }
  function ImediataKey(r: ImediataFragment): int { r.id }
  function MesorregiaoKey(m: Mesorregiao): int { m.id }
  function MicrorregiaoKey(m: Microrregiao): int { m.id }

  /** The six dicts `regioes_data` ... `microrregioes_data`. */
  datatype Levels = Levels(
    regioes: map<int, Regiao>,
    ufs: map<int, Uf>,
    intermediarias: map<int, RegiaoIntermediaria>,
    imediatas: map<int, ImediataFragment>,
    mesorregioes: map<int, Mesorregiao>,
    microrregioes: map<int, Microrregiao>)

  function Merge(items: seq<Item>): Levels
  {
    Levels(
      MergeLevel(items, PickRegiao, RegiaoKey),
      MergeLevel(items, PickUf, UfKey),
      MergeLevel(items, PickIntermediaria, IntermediariaKey),
      MergeLevel(items, PickImediata, ImediataKey),
      MergeLevel(items, PickMesorregiao, MesorregiaoKey),
      MergeLevel(items, PickMicrorregiao, MicrorregiaoKey))
  }

  /** Every candidate is stored under its own id. */
  predicate LevelsKeysMatch(l: Levels)
  {
    && (forall k | k in l.regioes :: l.regioes[k].id == k)
    && (forall k | k in l.ufs :: l.ufs[k].id == k)
    && (forall k | k in l.intermediarias :: l.intermediarias[k].id == k)
    && (forall k | k in l.imediatas :: l.imediatas[k].id == k)
    && (forall k | k in l.mesorregioes :: l.mesorregioes[k].id == k)
    && (forall k | k in l.microrregioes :: l.microrregioes[k].id == k)
  }

  /** Every candidate's parent is a candidate of the level above. */
  predicate LevelsConsistent(l: Levels)
  {
    && (forall k | k in l.ufs :: l.ufs[k].regiaoId in l.regioes)
    && (forall k | k in l.intermediarias :: l.intermediarias[k].ufId in l.ufs)
    && (forall k | k in l.imediatas && l.imediatas[k].regiaoIntermediariaId.Some? ::
          l.imediatas[k].regiaoIntermediariaId.value in l.intermediarias)
    && (forall k | k in l.mesorregioes :: l.mesorregioes[k].ufId in l.ufs)
    && (forall k | k in l.microrregioes :: l.microrregioes[k].mesorregiaoId in l.mesorregioes)
  }

  /** Every level of the fragment has a candidate with its id. */
  predicate Covers(l: Levels, h: Hierarchy)
  {
    && (h.regiao.Some? ==> h.regiao.value.id in l.regioes)
    && (h.uf.Some? ==> h.uf.value.id in l.ufs)
    && (h.regiaoIntermediaria.Some? ==> h.regiaoIntermediaria.value.id in l.intermediarias)
    && (h.regiaoImediata.Some? ==> h.regiaoImediata.value.id in l.imediatas)
    && (h.mesorregiao.Some? ==> h.mesorregiao.value.id in l.mesorregioes)
    && (h.microrregiao.Some? ==> h.microrregiao.value.id in l.microrregioes)
  }

  /** The fragments of a prefix, with one more item folded in. */
  function AddFragment(l: Levels, h: Hierarchy): Levels
  {
    Levels(
      if h.regiao.Some? then l.regioes[h.regiao.value.id := h.regiao.value] else l.regioes,
      if h.uf.Some? then l.ufs[h.uf.value.id := h.uf.value] else l.ufs,
      if h.regiaoIntermediaria.Some? then l.intermediarias[h.regiaoIntermediaria.value.id := h.regiaoIntermediaria.value] else l.intermediarias,
      if h.regiaoImediata.Some? then l.imediatas[h.regiaoImediata.value.id := h.regiaoImediata.value] else l.imediatas,
      if h.mesorregiao.Some? then l.mesorregioes[h.mesorregiao.value.id := h.mesorregiao.value] else l.mesorregioes,
      if h.microrregiao.Some? then l.microrregioes[h.microrregiao.value.id := h.microrregiao.value] else l.microrregioes)
  }

  lemma {:induction false} MergeStep(items: seq<Item>)
    requires items != []
    ensures Merge(items) == AddFragment(Merge(items[..|items| - 1]), items[|items| - 1].hierarchy)
  {
  }

  /** Folding in a consistent fragment keeps the levels consistent. */
  lemma {:induction false} AddFragmentConsistent(l: Levels, h: Hierarchy)
    requires LevelsConsistent(l) && LevelsKeysMatch(l) && Consistent(h)
    ensures LevelsConsistent(AddFragment(l, h)) && LevelsKeysMatch(AddFragment(l, h))
    ensures Covers(AddFragment(l, h), h)
  {
  }

  lemma {:induction false} AddFragmentKeepsCover(l: Levels, h: Hierarchy, g: Hierarchy)
    requires Covers(l, g)
    ensures Covers(AddFragment(l, h), g)
  {
  }

  /**
   * The merged levels of consistent fragments are consistent, keyed by
   * their own ids, and hold a candidate for every level of every item.
   */
  lemma {:induction false} MergeSound(items: seq<Item>)
    requires forall i | 0 <= i < |items| :: Consistent(items[i].hierarchy)
    ensures LevelsConsistent(Merge(items)) && LevelsKeysMatch(Merge(items))
    ensures forall i | 0 <= i < |items| :: Covers(Merge(items), items[i].hierarchy)
    decreases |items|
  {
    if items != [] {
      var p := items[..|items| - 1];
      var h := items[|items| - 1].hierarchy;
      assert forall i | 0 <= i < |p| :: p[i] == items[i];
      MergeSound(p);
      MergeStep(items);
      AddFragmentConsistent(Merge(p), h);
      forall i | 0 <= i < |items| ensures Covers(Merge(items), items[i].hierarchy) {
        if i < |p| {
          AddFragmentKeepsCover(Merge(p), h, items[i].hierarchy);
        }
      }
    }
  }
}
