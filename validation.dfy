/**
 * DataValidationService: the two record validators and the extraction of
 * one municipality record's six-level administrative hierarchy.
 */
module Validation {
  import opened Wrappers
  import opened PyJson
  import opened Schema

  /** The cleaned `{id, nome}` a validator returns. */
  datatype Clean = Clean(id: int, nome: string)

  /**
   * Both validators: a record whose `id` or `nome` is missing or falsy is
   * rejected with the given message; otherwise `int(id)` and `nome.strip()`.
   */
  function ValidateRecord(data: Json, noId: Missing, noName: Missing): (r: Result<Clean, PyError>)
    ensures r.Ok? <==>
      && data.JObj? && Truthy(At(data, "id")) && Truthy(At(data, "nome"))
      && PyInt(At(data, "id")).Ok? && At(data, "nome").JStr?
    ensures r == Err(ValidationError(noId)) <== data.JObj? && !Truthy(At(data, "id"))
    ensures r == Err(ValidationError(noName)) <== data.JObj? && Truthy(At(data, "id")) && !Truthy(At(data, "nome"))
    ensures r.Err? && r.error.ValidationError? ==> r.error.missing in {noId, noName}
    ensures !data.JObj? ==> r == Err(AttributeError)
    ensures r.Ok? ==> r.value == Clean(PyInt(At(data, "id")).value, Strip(At(data, "nome").s))
    ensures r.Ok? && At(data, "id").JInt? ==> r.value.id != 0
  {
    if !data.JObj? then Err(AttributeError)
    else if !Truthy(At(data, "id")) then Err(ValidationError(noId))
    else if !Truthy(At(data, "nome")) then Err(ValidationError(noName))
    else
      var id :- PyInt(At(data, "id"));
      match At(data, "nome")
      case JStr(s) => Ok(Clean(id, Strip(s)))
      case _ => Err(AttributeError)
  }

  function ValidateMunicipio(data: Json): Result<Clean, PyError>
  {
    ValidateRecord(data, MunicipioSemId, MunicipioSemNome)
  }

  function ValidateDistrito(data: Json): Result<Clean, PyError>
  {
    ValidateRecord(data, DistritoSemId, DistritoSemNome)
  }

  /**
   * A name made only of whitespace is truthy, so either validator accepts
   * it, and it is stored as the empty name.
   */
  lemma {:induction false} BlankNamePassesAsEmpty(id: Json, nome: string, noId: Missing, noName: Missing)
    requires Truthy(id) && PyInt(id).Ok?
    requires |nome| > 0 && forall k | 0 <= k < |nome| :: IsSpace(nome[k])
    ensures ValidateRecord(JObj(map["id" := id, "nome" := JStr(nome)]), noId, noName) == Ok(Clean(PyInt(id).value, ""))
  {
    var data := JObj(map["id" := id, "nome" := JStr(nome)]);
    assert At(data, "id") == id && At(data, "nome") == JStr(nome);
    assert LeadingSpaces(nome) == |nome|;
    assert StripLeft(nome) == [];
  }

  /** Only the integer 0 is falsy: the string "0" passes and yields id 0. */
  lemma {:induction false} StringZeroIdPasses()
    ensures ValidateDistrito(JObj(map["id" := JStr("0"), "nome" := JStr("Sede")])) == Ok(Clean(0, "Sede"))
  {
    var data := JObj(map["id" := JStr("0"), "nome" := JStr("Sede")]);
    assert At(data, "id") == JStr("0") && At(data, "nome") == JStr("Sede");
    assert LeadingSpaces("0") == 0 && TrailingStart("0") == 1 by { assert !IsSpace("0"[0]); }
    assert Strip("0") == "0";
    assert Unsigned("0") == "0";
    assert DigitsValue("0") == 0 by { assert "0"[..0] == ""; }
    assert PyInt(JStr("0")) == Ok(0);
    var sede := "Sede";
    assert LeadingSpaces(sede) == 0 && TrailingStart(sede) == |sede| by { assert !IsSpace(sede[0]) && !IsSpace(sede[3]); }
    assert Strip(sede) == sede;
  }

  // ---- hierarchy extraction ----

  /** The immediate region as extracted: its intermediate region may be unknown. */
  datatype ImediataFragment = ImediataFragment(id: int, nome: string, regiaoIntermediariaId: Option<int>)

  /** The six optional parent rows extracted from one municipality record. */
  datatype Hierarchy = Hierarchy(
    regiao: Option<Regiao>,
    uf: Option<Uf>,
    mesorregiao: Option<Mesorregiao>,
    microrregiao: Option<Microrregiao>,
    regiaoIntermediaria: Option<RegiaoIntermediaria>,
    regiaoImediata: Option<ImediataFragment>)

  const NoHierarchy := Hierarchy(None, None, None, None, None, None)

  /** The nested nodes the extractor reads. */
  function MicroNode(m: Json): Json { At(m, "microrregiao") }
  function MesoNode(m: Json): Json { At(MicroNode(m), "mesorregiao") }
  function UfNode(m: Json): Json { At(MesoNode(m), "UF") }
  function RegiaoNode(m: Json): Json { At(UfNode(m), "regiao") }
  function ImediataNode(m: Json): Json { At(m, "regiao-imediata") }
  function IntermediariaNode(m: Json): Json { At(ImediataNode(m), "regiao-intermediaria") }

  /** A municipality record whose nested levels have the API's JSON leaf types.
      The record's own `id` and `nome` are left untyped: only the validator reads them. */
  predicate MunicipioTyped(m: Json)
  {
    LeafTypes(MicroNode(m)) && LeafTypes(MesoNode(m)) && LeafTypes(UfNode(m))
    && LeafTypes(RegiaoNode(m)) && LeafTypes(ImediataNode(m)) && LeafTypes(IntermediariaNode(m))
  }

  function ReadId(node: Json): Result<int, PyError>
    requires LeafTypes(node)
  {
    var v :- Index(node, "id");
    Ok(v.n)
  }

  function ReadText(node: Json, k: string): Result<string, PyError>
    requires LeafTypes(node) && k in {"nome", "sigla"}
  {
    var v :- Index(node, k);
    Ok(v.s)
  }

  function ReadRegiao(node: Json): Result<Regiao, PyError>
    requires LeafTypes(node)
  {
    var id :- ReadId(node);
    var sigla :- ReadText(node, "sigla");
    var nome :- ReadText(node, "nome");
    Ok(Regiao(id, sigla, nome))
  }

  function ReadUf(node: Json, regiaoId: int): Result<Uf, PyError>
    requires LeafTypes(node)
  {
    var id :- ReadId(node);
    var sigla :- ReadText(node, "sigla");
    var nome :- ReadText(node, "nome");
    Ok(Uf(id, sigla, nome, regiaoId))
  }

  function ReadMesorregiao(node: Json, ufId: int): Result<Mesorregiao, PyError>
    requires LeafTypes(node)
  {
    var id :- ReadId(node);
    var nome :- ReadText(node, "nome");
    Ok(Mesorregiao(id, nome, ufId))
  }

  function ReadMicrorregiao(node: Json, mesorregiaoId: int): Result<Microrregiao, PyError>
    requires LeafTypes(node)
  {
    var id :- ReadId(node);
    var nome :- ReadText(node, "nome");
    Ok(Microrregiao(id, nome, mesorregiaoId))
  }

  function ReadImediata(node: Json): Result<ImediataFragment, PyError>
    requires LeafTypes(node)
  {
    var id :- ReadId(node);
    var nome :- ReadText(node, "nome");
    Ok(ImediataFragment(id, nome, None))
  }

  function ReadIntermediaria(node: Json, ufId: int): Result<RegiaoIntermediaria, PyError>
    requires LeafTypes(node)
  {
    var id :- ReadId(node);
    var nome :- ReadText(node, "nome");
    Ok(RegiaoIntermediaria(id, nome, ufId))
  }

  /**
   * The guard `m.get('microrregiao') and ...['mesorregiao'].get('UF') and
   * ...get('regiao')`: it raises AttributeError when a truthy level is not a dict.
   */
  function ChainGuard(m: Json): Result<bool, PyError>
  {
    var micro :- Get(m, "microrregiao");
    if !Truthy(micro) then Ok(false) else
    var meso :- Get(micro, "mesorregiao");
    if !Truthy(meso) then Ok(false) else
    var uf :- Get(meso, "UF");
    if !Truthy(uf) then Ok(false) else
    var regiao :- Get(uf, "regiao");
    Ok(Truthy(regiao))
  }

  /** The parent links between the levels of one fragment. */
  predicate Consistent(h: Hierarchy)
  {
    && (h.uf.Some? ==> h.regiao.Some? && h.uf.value.regiaoId == h.regiao.value.id)
    && (h.mesorregiao.Some? ==> h.uf.Some? && h.mesorregiao.value.ufId == h.uf.value.id)
    && (h.microrregiao.Some? ==> h.mesorregiao.Some? && h.microrregiao.value.mesorregiaoId == h.mesorregiao.value.id)
    && (h.regiaoImediata.Some? ==> h.microrregiao.Some?)
    && (h.regiaoIntermediaria.Some? ==> h.uf.Some? && h.regiaoIntermediaria.value.ufId == h.uf.value.id)
    && (h.regiaoIntermediaria.Some? <==>
          h.regiaoImediata.Some? && h.regiaoImediata.value.regiaoIntermediariaId.Some?)
    && (h.regiaoIntermediaria.Some? ==>
          h.regiaoImediata.value.regiaoIntermediariaId == Some(h.regiaoIntermediaria.value.id))
  }

  /** The immediate and intermediate regions, filled once the microregion is in. */
  function FillImediata(m: Json, h: Hierarchy, ufId: int): Hierarchy
    requires MunicipioTyped(m)
  {
    var rim := ImediataNode(m);
    if !Truthy(rim) then h else
    match ReadImediata(rim)
    case Err(_) => h
    case Ok(im) =>
      var h5 := h.(regiaoImediata := Some(im));
      var ri := IntermediariaNode(m);
      if !Truthy(ri) then h5 else
      match ReadIntermediaria(ri, ufId)
      case Err(_) => h5
      case Ok(x) => h5.(regiaoIntermediaria := Some(x), regiaoImediata := Some(im.(regiaoIntermediariaId := Some(x.id))))
  }

  /** Past the microregion: the immediate region read from its node, then the intermediate one from its own. */
  lemma {:induction false} FillImediataLevels(m: Json, h: Hierarchy, ufId: int)
    requires MunicipioTyped(m) && h.regiaoImediata.None? && h.regiaoIntermediaria.None?
    ensures FillImediata(m, h, ufId).(regiaoImediata := None, regiaoIntermediaria := None) == h
    ensures FillImediata(m, h, ufId).regiaoImediata.Some? <==>
      Truthy(ImediataNode(m)) && ReadImediata(ImediataNode(m)).Ok?
    ensures FillImediata(m, h, ufId).regiaoImediata.Some? ==>
      ReadImediata(ImediataNode(m)) == Ok(FillImediata(m, h, ufId).regiaoImediata.value.(regiaoIntermediariaId := None))
    ensures FillImediata(m, h, ufId).regiaoImediata.Some? ==>
      (FillImediata(m, h, ufId).regiaoIntermediaria.Some? <==>
         Truthy(IntermediariaNode(m)) && ReadIntermediaria(IntermediariaNode(m), ufId).Ok?)
    ensures FillImediata(m, h, ufId).regiaoIntermediaria.Some? ==>
      && FillImediata(m, h, ufId).regiaoImediata.Some?
      && ReadIntermediaria(IntermediariaNode(m), ufId) == Ok(FillImediata(m, h, ufId).regiaoIntermediaria.value)
  {
  }

  /** The levels of the `try` body, each present exactly when the one before it is and its own read succeeds. */
  lemma {:induction false} FillLevels(m: Json)
    requires MunicipioTyped(m)
    ensures Fill(m).regiao.Some? <==> ReadRegiao(RegiaoNode(m)).Ok?
    ensures Fill(m).regiao.Some? ==>
      (Fill(m).uf.Some? <==> ReadUf(UfNode(m), Fill(m).regiao.value.id).Ok?)
    ensures Fill(m).uf.Some? ==>
      Fill(m).regiao.Some? && ReadUf(UfNode(m), Fill(m).regiao.value.id) == Ok(Fill(m).uf.value)
    ensures Fill(m).uf.Some? ==>
      (Fill(m).mesorregiao.Some? <==> ReadMesorregiao(MesoNode(m), Fill(m).uf.value.id).Ok?)
    ensures Fill(m).mesorregiao.Some? ==>
      Fill(m).uf.Some? && ReadMesorregiao(MesoNode(m), Fill(m).uf.value.id) == Ok(Fill(m).mesorregiao.value)
    ensures Fill(m).mesorregiao.Some? ==>
      (Fill(m).microrregiao.Some? <==> ReadMicrorregiao(MicroNode(m), Fill(m).mesorregiao.value.id).Ok?)
    ensures Fill(m).microrregiao.Some? ==>
      Fill(m).mesorregiao.Some? && ReadMicrorregiao(MicroNode(m), Fill(m).mesorregiao.value.id) == Ok(Fill(m).microrregiao.value)
    ensures Fill(m).microrregiao.Some? ==>
      (Fill(m).regiaoImediata.Some? <==> Truthy(ImediataNode(m)) && ReadImediata(ImediataNode(m)).Ok?)
    ensures Fill(m).regiaoImediata.Some? ==>
      Fill(m).microrregiao.Some? &&
      ReadImediata(ImediataNode(m)) == Ok(Fill(m).regiaoImediata.value.(regiaoIntermediariaId := None))
    ensures Fill(m).regiaoImediata.Some? && Fill(m).uf.Some? ==>
      (Fill(m).regiaoIntermediaria.Some? <==>
         Truthy(IntermediariaNode(m)) && ReadIntermediaria(IntermediariaNode(m), Fill(m).uf.value.id).Ok?)
    ensures Fill(m).regiaoIntermediaria.Some? ==>
      Fill(m).uf.Some? && ReadIntermediaria(IntermediariaNode(m), Fill(m).uf.value.id) == Ok(Fill(m).regiaoIntermediaria.value)
  {
    var rg := ReadRegiao(RegiaoNode(m));
    if rg.Ok? {
      var u := ReadUf(UfNode(m), rg.value.id);
      if u.Ok? {
        var me := ReadMesorregiao(MesoNode(m), u.value.id);
        if me.Ok? {
          var mi := ReadMicrorregiao(MicroNode(m), me.value.id);
          if mi.Ok? {
            var h4 := NoHierarchy.(regiao := Some(rg.value), uf := Some(u.value), mesorregiao := Some(me.value), microrregiao := Some(mi.value));
            assert Fill(m) == FillImediata(m, h4, u.value.id);
            FillImediataLevels(m, h4, u.value.id);
          }
        }
      }
    }
  }

  /** The body of the `try`: levels filled in order; a KeyError or TypeError keeps what was filled. */
  function Fill(m: Json): Hierarchy
    requires MunicipioTyped(m)
  {
    match ReadRegiao(RegiaoNode(m))
    case Err(_) => NoHierarchy
    case Ok(rg) =>
      var h1 := NoHierarchy.(regiao := Some(rg));
      match ReadUf(UfNode(m), rg.id)
      case Err(_) => h1
      case Ok(u) =>
        var h2 := h1.(uf := Some(u));
        match ReadMesorregiao(MesoNode(m), u.id)
        case Err(_) => h2
        case Ok(me) =>
          var h3 := h2.(mesorregiao := Some(me));
          match ReadMicrorregiao(MicroNode(m), me.id)
          case Err(_) => h3
          case Ok(mi) => FillImediata(m, h3.(microrregiao := Some(mi)), u.id)
  }

  /**
   * `extract_hierarchy_data`. KeyError and TypeError never escape; only the
   * guard's AttributeError does. The fragment's parent links agree, every
   * level is None unless the whole microrregiao, mesorregiao, UF, regiao
   * chain is present, and each level's id is the id of its own JSON node.
   * Past the guard the levels are filled in the order region, UF,
   * mesoregion, microregion, immediate region, intermediate region: a level
   * is present exactly when the level before it is and its own read of its
   * node succeeds, and it is the row that read builds, so a failing read
   * keeps every level filled before it.
   */
  function Extract(m: Json): (r: Result<Hierarchy, PyError>)
    requires MunicipioTyped(m)
    ensures r.Err? <==> ChainGuard(m).Err?
    ensures r.Err? ==> r.error == AttributeError
    ensures r.Ok? ==> Consistent(r.value)
    ensures r.Ok? && r.value != NoHierarchy ==> ChainGuard(m) == Ok(true)
    ensures r.Ok? && r.value.regiao.Some? ==> ReadRegiao(RegiaoNode(m)) == Ok(r.value.regiao.value)
    ensures r.Ok? && r.value.uf.Some? ==> ReadId(UfNode(m)) == Ok(r.value.uf.value.id)
    ensures r.Ok? && r.value.mesorregiao.Some? ==> ReadId(MesoNode(m)) == Ok(r.value.mesorregiao.value.id)
    ensures r.Ok? && r.value.microrregiao.Some? ==> ReadId(MicroNode(m)) == Ok(r.value.microrregiao.value.id)
    ensures r.Ok? && r.value.regiaoImediata.Some? ==> ReadId(ImediataNode(m)) == Ok(r.value.regiaoImediata.value.id)
    ensures r.Ok? && r.value.regiaoIntermediaria.Some? ==> ReadId(IntermediariaNode(m)) == Ok(r.value.regiaoIntermediaria.value.id)
    ensures ChainGuard(m) == Ok(false) ==> r == Ok(NoHierarchy)
    ensures ChainGuard(m) == Ok(true) ==> r.Ok?
    ensures r.Ok? && ChainGuard(m) == Ok(true) ==>
      (r.value.regiao.Some? <==> ReadRegiao(RegiaoNode(m)).Ok?)
    ensures r.Ok? && r.value.regiao.Some? ==>
      (r.value.uf.Some? <==> ReadUf(UfNode(m), r.value.regiao.value.id).Ok?)
    ensures r.Ok? && r.value.uf.Some? ==>
      r.value.regiao.Some? && ReadUf(UfNode(m), r.value.regiao.value.id) == Ok(r.value.uf.value)
    ensures r.Ok? && r.value.uf.Some? ==>
      (r.value.mesorregiao.Some? <==> ReadMesorregiao(MesoNode(m), r.value.uf.value.id).Ok?)
    ensures r.Ok? && r.value.mesorregiao.Some? ==>
      r.value.uf.Some? && ReadMesorregiao(MesoNode(m), r.value.uf.value.id) == Ok(r.value.mesorregiao.value)
    ensures r.Ok? && r.value.mesorregiao.Some? ==>
      (r.value.microrregiao.Some? <==> ReadMicrorregiao(MicroNode(m), r.value.mesorregiao.value.id).Ok?)
    ensures r.Ok? && r.value.microrregiao.Some? ==>
      r.value.mesorregiao.Some? && ReadMicrorregiao(MicroNode(m), r.value.mesorregiao.value.id) == Ok(r.value.microrregiao.value)
    ensures r.Ok? && r.value.microrregiao.Some? ==>
      (r.value.regiaoImediata.Some? <==> Truthy(ImediataNode(m)) && ReadImediata(ImediataNode(m)).Ok?)
    ensures r.Ok? && r.value.regiaoImediata.Some? ==>
      ReadImediata(ImediataNode(m)) == Ok(r.value.regiaoImediata.value.(regiaoIntermediariaId := None))
    ensures r.Ok? && r.value.regiaoImediata.Some? && r.value.uf.Some? ==>
      (r.value.regiaoIntermediaria.Some? <==>
         Truthy(IntermediariaNode(m)) && ReadIntermediaria(IntermediariaNode(m), r.value.uf.value.id).Ok?)
    ensures r.Ok? && r.value.regiaoIntermediaria.Some? ==>
      r.value.uf.Some? && ReadIntermediaria(IntermediariaNode(m), r.value.uf.value.id) == Ok(r.value.regiaoIntermediaria.value)
  {
    var present :- ChainGuard(m);
    if present then FillLevels(m); Ok(Fill(m)) else Ok(NoHierarchy)
  }

  /** The imperative form: the local `hierarchy` filled field by field, returned as soon as a read raises. */
  method ExtractHierarchy(m: Json) returns (r: Result<Hierarchy, PyError>)
    requires MunicipioTyped(m)
    ensures r == Extract(m)
  {
    var hierarchy := NoHierarchy;
    var present := ChainGuard(m);
    if present.Err? {
      return Err(present.error);
    }
    if present.value {
      var rg := ReadRegiao(RegiaoNode(m));
      if rg.Err? { return Ok(hierarchy); }
      hierarchy := hierarchy.(regiao := Some(rg.value));
      var u := ReadUf(UfNode(m), rg.value.id);
      if u.Err? { return Ok(hierarchy); }
      hierarchy := hierarchy.(uf := Some(u.value));
      var me := ReadMesorregiao(MesoNode(m), u.value.id);
      if me.Err? { return Ok(hierarchy); }
      hierarchy := hierarchy.(mesorregiao := Some(me.value));
      var mi := ReadMicrorregiao(MicroNode(m), me.value.id);
      if mi.Err? { return Ok(hierarchy); }
      hierarchy := hierarchy.(microrregiao := Some(mi.value));
      if Truthy(ImediataNode(m)) {
        var im := ReadImediata(ImediataNode(m));
        if im.Err? { return Ok(hierarchy); }
        hierarchy := hierarchy.(regiaoImediata := Some(im.value));
        if Truthy(IntermediariaNode(m)) {
          var ri := ReadIntermediaria(IntermediariaNode(m), u.value.id);
          if ri.Err? { return Ok(hierarchy); }
          hierarchy := hierarchy.(regiaoIntermediaria := Some(ri.value));
          hierarchy := hierarchy.(regiaoImediata := Some(im.value.(regiaoIntermediariaId := Some(ri.value.id))));
        }
      }
    }
    return Ok(hierarchy);
  }
}
