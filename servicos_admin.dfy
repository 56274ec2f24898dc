/** backend/servicos_api.php: the admin CRUD over the `servicos` table shown
    on the site: list with filters, fetch one, create with the next display
    order, partial update, delete, and reorder inside one transaction. */
module ServicosAdmin {
  import opened Common
  import opened Sorting
  import opened Text

  /** One `servicos` row. The optional text columns are NULL when absent. */
  datatype Service = Service(
    titulo: string,
    descricao: string,
    icone: Option<string>,
    categoria: string,
    link: Option<string>,
    telefone: Option<string>,
    email: Option<string>,
    horario: Option<string>,
    endereco: Option<string>,
    ativo: int,
    ordem: int,
    dataCriacao: int,
    dataAtualizacao: Option<int>)

  /** A JSON request body for `criar` and `atualizar`: each field is None
      when absent or null. Integer fields are already converted by intval. */
  datatype ServiceInput = ServiceInput(
    id: Option<int>,
    titulo: Option<string>,
    descricao: Option<string>,
    icone: Option<string>,
    categoria: Option<string>,
    link: Option<string>,
    telefone: Option<string>,
    email: Option<string>,
    horario: Option<string>,
    endereco: Option<string>,
    ativo: Option<int>,
    ordem: Option<int>)

  type Listed = Keyed<Service>

  /** Where a reorder transaction throws: at the update of one position, or
      at commit. */
  datatype ReorderFault = UpdateFails(index: nat) | CommitFails

  const InvalidId := "ID inválido"
  const NotFound := "Serviço não encontrado"
  const InvalidFormat := "Formato inválido. Envie um array com a nova ordem"
  const MethodNotAllowed := "Método não permitido"
  const InvalidAction := "Ação inválida. Use: listar, buscar, criar, atualizar, deletar ou reordenar"
  const CreateError := "Erro ao criar serviço: "
  const UpdateError := "Erro ao atualizar serviço: "
  const DeleteError := "Erro ao deletar serviço: "
  const ReorderError := "Erro ao reordenar serviços: "
  const UpdatedMessage := "Serviço atualizado com sucesso"
  const DeletedMessage := "Serviço deletado com sucesso"
  const ReorderedMessage := "Ordem dos serviços atualizada com sucesso"

  // ---------------------------------------------------------------
  // Binding the UPDATE statement

  /** A prepared statement takes its variables only when the type string
      has one letter per bound variable. */
  predicate BindAccepts(types: string, variables: nat)
  {
    |types| == variables
  }

  /** The UPDATE binds the eleven columns and the id. */
  const UpdateVariables: nat := 12
  /** The type string the update handler passes. */
  const UpdateTypesAsWritten := "sssssssssiiii"
  /** Nine strings, then `ativo`, `ordem` and the id. */
  const UpdateTypesIntended := "sssssssssiii"

  /** The handler's type string has one letter too many, so its bind is
      refused; the intended one is taken. */
  lemma UpdateBindAsWrittenRefused()
    ensures !BindAccepts(UpdateTypesAsWritten, UpdateVariables)
    ensures BindAccepts(UpdateTypesIntended, UpdateVariables)
  {
    assert |UpdateTypesAsWritten| == 13;
    assert |UpdateTypesIntended| == 12;
  }

  function RequiredMessage(campo: string): string
  {
    "O campo '" + campo + "' é obrigatório"
  }

  // ---------------------------------------------------------------
  // Validation and derived values

  /** A required field is missing when absent or blank after trimming. */
  predicate Blank(v: Option<string>)
  {
    v.None? || Trim(v.value) == ""
  }

  /** The first required field, in the order titulo, descricao, categoria,
      that is missing. */
  function FirstMissing(input: ServiceInput): (r: Option<string>)
    ensures r.None? <==> !Blank(input.titulo) && !Blank(input.descricao) && !Blank(input.categoria)
    ensures r == Some("titulo") <==> Blank(input.titulo)
    ensures r == Some("descricao") <==> !Blank(input.titulo) && Blank(input.descricao)
    ensures r == Some("categoria") <==> !Blank(input.titulo) && !Blank(input.descricao) && Blank(input.categoria)
  {
    if Blank(input.titulo) then Some("titulo")
    else if Blank(input.descricao) then Some("descricao")
    else if Blank(input.categoria) then Some("categoria")
    else None
  }

  function TrimOpt(v: Option<string>): Option<string>
  {
    if v.Some? then Some(Trim(v.value)) else None
  }

  /** SELECT MAX(ordem) over the rows with keys in `keys`: NULL on none. */
  function MaxOrdem(m: map<int, Service>, keys: seq<int>): (r: Option<int>)
    requires forall k :: k in keys ==> k in m
    ensures r.None? <==> keys == []
    ensures r.Some? ==> (forall k :: k in keys ==> m[k].ordem <= r.value) && exists k :: k in keys && m[k].ordem == r.value
  {
    if keys == [] then None
    else
      var last := keys[|keys| - 1];
      var rest := MaxOrdem(m, keys[..|keys| - 1]);
      assert forall k :: k in keys ==> k in keys[..|keys| - 1] || k == last;
      if rest.None? || m[last].ordem > rest.value then Some(m[last].ordem) else rest
  }

  /** The display order a new service receives: one above the largest
      order in the table, or 1 on an empty table. */
  function NextOrdem(m: map<int, Service>, next: int): (o: int)
    requires IdsBelow(m, next)
    ensures m == map[] ==> o == 1
    ensures forall k :: k in m ==> m[k].ordem < o
    ensures m != map[] ==> exists k :: k in m && m[k].ordem == o - 1
  {
    KeysBelowComplete(m, next);
    var keys := KeysBelow(m, next);
    assert m != map[] ==> keys != [] by {
      if m != map[] {
        var k :| k in m;
        assert k in keys;
      }
    }
    match MaxOrdem(m, keys)
    case None => 1
    case Some(x) => x + 1
  }

  /** The row a successful `criar` inserts. */
  function NewService(input: ServiceInput, ordem: int, now: int): Service
    requires FirstMissing(input).None?
  {
    Service(Trim(input.titulo.value), Trim(input.descricao.value), TrimOpt(input.icone),
            Trim(input.categoria.value), TrimOpt(input.link), TrimOpt(input.telefone),
            TrimOpt(input.email), TrimOpt(input.horario), TrimOpt(input.endereco),
            input.ativo.GetOr(1), ordem, now, None)
  }

  /** COALESCE(new, old): a supplied value wins, an absent one keeps the
      column. */
  function Coalesce<T>(v: Option<T>, current: T): T
  {
    if v.Some? then v.value else current
  }

  function CoalesceOpt<T>(v: Option<T>, current: Option<T>): Option<T>
  {
    if v.Some? then v else current
  }

  /** The row after `atualizar`: each supplied field trimmed and written,
      the others kept, the modification time refreshed. */
  function Updated(s: Service, input: ServiceInput, now: int): (r: Service)
  {
    Service(
      Coalesce(TrimOpt(input.titulo), s.titulo),
      Coalesce(TrimOpt(input.descricao), s.descricao),
      CoalesceOpt(TrimOpt(input.icone), s.icone),
      Coalesce(TrimOpt(input.categoria), s.categoria),
      CoalesceOpt(TrimOpt(input.link), s.link),
      CoalesceOpt(TrimOpt(input.telefone), s.telefone),
      CoalesceOpt(TrimOpt(input.email), s.email),
      CoalesceOpt(TrimOpt(input.horario), s.horario),
      CoalesceOpt(TrimOpt(input.endereco), s.endereco),
      Coalesce(input.ativo, s.ativo),
      Coalesce(input.ordem, s.ordem),
      s.dataCriacao,
      Some(now))
  }

  function NoFields(id: Option<int>): ServiceInput
  {
    ServiceInput(id, None, None, None, None, None, None, None, None, None, None, None)
  }

  /** A partial update changes only what it supplies: with no fields it
      only refreshes the modification time, a supplied title is stored
      trimmed, and the creation time never changes. */
  lemma UpdatedChangesOnlySupplied(s: Service, input: ServiceInput, now: int)
    ensures Updated(s, NoFields(input.id), now) == s.(dataAtualizacao := Some(now))
    ensures input.titulo.Some? ==> Updated(s, input, now).titulo == Trim(input.titulo.value)
    ensures input.titulo.None? ==> Updated(s, input, now).titulo == s.titulo
    ensures input.ordem.None? ==> Updated(s, input, now).ordem == s.ordem
    ensures input.ativo.None? ==> Updated(s, input, now).ativo == s.ativo
    ensures Updated(s, input, now).dataCriacao == s.dataCriacao
  {
  }

  /** Applying the same partial update twice is the same as applying it
      once, up to the modification time. */
  lemma UpdatedIdempotent(s: Service, input: ServiceInput, t1: int, t2: int)
    ensures Updated(Updated(s, input, t1), input, t2) == Updated(s, input, t2)
  {
  }

  // ---------------------------------------------------------------
  // Reordering

  function SetOrdem(m: map<int, Service>, id: int, ordem: int): (r: map<int, Service>)
    ensures r.Keys == m.Keys
  {
    if id in m then m[id := m[id].(ordem := ordem)] else m
  }

  /** The table after `UPDATE servicos SET ordem = i + 1 WHERE id = ids[i]`
      for i = 0, 1, ... in turn. */
  function Reordered(m: map<int, Service>, ids: seq<int>): (r: map<int, Service>)
    ensures r.Keys == m.Keys
  {
    if ids == [] then m
    else SetOrdem(Reordered(m, ids[..|ids| - 1]), ids[|ids| - 1], |ids|)
  }

  /** Reordering touches only `ordem`, and only of listed ids. */
  lemma {:induction false} ReorderedKeepsOtherColumns(m: map<int, Service>, ids: seq<int>, id: int)
    requires id in m
    ensures Reordered(m, ids)[id] == m[id].(ordem := Reordered(m, ids)[id].ordem)
    ensures id !in ids ==> Reordered(m, ids)[id] == m[id]
  {
    if ids != [] {
      var init := ids[..|ids| - 1];
      ReorderedKeepsOtherColumns(m, init, id);
      assert id !in ids ==> id !in init;
    }
  }

  /** A listed id gets its position plus one; when it is listed more than
      once, its last position wins. */
  lemma {:induction false} ReorderedLastPositionWins(m: map<int, Service>, ids: seq<int>, k: int)
    requires 0 <= k < |ids| && ids[k] in m
    requires forall j :: k < j < |ids| ==> ids[j] != ids[k]
    ensures Reordered(m, ids)[ids[k]].ordem == k + 1
  {
    var init := ids[..|ids| - 1];
    if k < |ids| - 1 {
      assert init[k] == ids[k];
      ReorderedLastPositionWins(m, init, k);
    }
  }

  /** For a list without repeats every listed service gets exactly its
      position plus one. */
  lemma ReorderedDistinct(m: map<int, Service>, ids: seq<int>)
    requires Distinct(ids)
    ensures forall k :: 0 <= k < |ids| && ids[k] in m ==> Reordered(m, ids)[ids[k]].ordem == k + 1
  {
    forall k | 0 <= k < |ids| && ids[k] in m
      ensures Reordered(m, ids)[ids[k]].ordem == k + 1
    {
      ReorderedLastPositionWins(m, ids, k);
    }
  }

  // ---------------------------------------------------------------
  // Listing

  predicate MatchesFilters(categoria: Option<string>, ativo: Option<int>, s: Service)
  {
    && (categoria.Some? ==> s.categoria == categoria.value)
    && (ativo.Some? ==> s.ativo == ativo.value)
  }

  /** ORDER BY ordem ASC, id ASC. */
  predicate ListedLe(a: Listed, b: Listed)
  {
    a.row.ordem < b.row.ordem || (a.row.ordem == b.row.ordem && a.id <= b.id)
  }

  /** `listar`: the rows matching the optional filters, by order then id. */
  function ListServices(m: map<int, Service>, next: int, categoria: Option<string>, ativo: Option<int>): seq<Listed>
    requires IdsBelow(m, next)
  {
    var rows := AsListed(m, KeysBelow(m, next));
    SortBy(Filter(rows, (l: Listed) => MatchesFilters(categoria, ativo, l.row)),
           (a: Listed, b: Listed) => ListedLe(a, b))
  }

  /** The listing holds exactly the matching rows, each with its own key. */
  lemma ListServicesMembers(m: map<int, Service>, next: int, categoria: Option<string>, ativo: Option<int>)
    requires IdsBelow(m, next)
    ensures var r := ListServices(m, next, categoria, ativo);
      forall l :: l in r <==> l.id in m && l.row == m[l.id] && MatchesFilters(categoria, ativo, l.row)
  {
    var keys := KeysBelow(m, next);
    KeysBelowComplete(m, next);
    AsListedMembers(m, keys);
    AsListedDistinct(m, keys);
    var f := Filter(AsListed(m, keys), (l: Listed) => MatchesFilters(categoria, ativo, l.row));
    var le := (a: Listed, b: Listed) => ListedLe(a, b);
    forall l ensures l in SortBy(f, le) <==> l in f {
      SortByMembers(f, le, l);
    }
  }

  /** The listing is strictly increasing by (ordem, id), so no row appears
      twice. */
  lemma ListServicesOrder(m: map<int, Service>, next: int, categoria: Option<string>, ativo: Option<int>)
    requires IdsBelow(m, next)
    ensures var r := ListServices(m, next, categoria, ativo);
      forall i, j :: 0 <= i < j < |r| ==>
        r[i].row.ordem < r[j].row.ordem || (r[i].row.ordem == r[j].row.ordem && r[i].id < r[j].id)
  {
    var keys := KeysBelow(m, next);
    KeysBelowComplete(m, next);
    AsListedMembers(m, keys);
    AsListedDistinct(m, keys);
    var rows := AsListed(m, keys);
    var f := Filter(rows, (l: Listed) => MatchesFilters(categoria, ativo, l.row));
    var le := (a: Listed, b: Listed) => ListedLe(a, b);
    var r := SortBy(f, le);
    DistinctSubMultiset(rows, f);
    DistinctSubMultiset(f, r);
    UniqueKeysStrict(rows, f, r);
  }

  lemma UniqueKeysStrict(rows: seq<Listed>, f: seq<Listed>, r: seq<Listed>)
    requires forall l :: l in rows ==> forall l2 :: l2 in rows && l2.id == l.id ==> l2 == l
    requires multiset(f) <= multiset(rows) && multiset(r) == multiset(f)
    requires Distinct(r) && Sorted(r, (a: Listed, b: Listed) => ListedLe(a, b))
    ensures forall i, j :: 0 <= i < j < |r| ==>
      r[i].row.ordem < r[j].row.ordem || (r[i].row.ordem == r[j].row.ordem && r[i].id < r[j].id)
  {
    forall i, j | 0 <= i < j < |r|
      ensures r[i].row.ordem < r[j].row.ordem || (r[i].row.ordem == r[j].row.ordem && r[i].id < r[j].id)
    {
      assert r[i] in multiset(r) && r[j] in multiset(r);
      assert r[i] in rows && r[j] in rows;
      assert ListedLe(r[i], r[j]) && r[i] != r[j];
    }
  }

  // ---------------------------------------------------------------
  // Routing

  datatype Operation = List | Fetch | Create | Update | Delete | Reorder

  /** `action` selects the handler; the four writing actions need POST.
      `action` absent is the empty string. */
  function Route(action: string, httpMethod: string): (r: Response<Operation>)
    ensures r == Success(200, List) <==> action == "listar"
    ensures r == Success(200, Fetch) <==> action == "buscar"
    ensures r == Success(200, Create) <==> action == "criar" && httpMethod == "POST"
    ensures r == Success(200, Update) <==> action == "atualizar" && httpMethod == "POST"
    ensures r == Success(200, Delete) <==> action == "deletar" && httpMethod == "POST"
    ensures r == Success(200, Reorder) <==> action == "reordenar" && httpMethod == "POST"
    ensures r == Error(405, MethodNotAllowed) <==>
      action in {"criar", "atualizar", "deletar", "reordenar"} && httpMethod != "POST"
    ensures r == Error(400, InvalidAction) <==>
      action !in {"listar", "buscar", "criar", "atualizar", "deletar", "reordenar"}
  {
    match action
    case "listar" => Success(200, List)
    case "buscar" => Success(200, Fetch)
    case "criar" => if httpMethod == "POST" then Success(200, Create) else Error(405, MethodNotAllowed)
    case "atualizar" => if httpMethod == "POST" then Success(200, Update) else Error(405, MethodNotAllowed)
    case "deletar" => if httpMethod == "POST" then Success(200, Delete) else Error(405, MethodNotAllowed)
    case "reordenar" => if httpMethod == "POST" then Success(200, Reorder) else Error(405, MethodNotAllowed)
    case _ => Error(400, InvalidAction)
  }

  // ---------------------------------------------------------------
  // The endpoint over its table

  class ServicosAdminApi {
    var servicos: map<int, Service>
    var nextId: int

    ghost predicate Valid()
      reads this
    {
      nextId >= 1 && IdsBelow(servicos, nextId)
    }

    constructor ()
      ensures Valid() && servicos == map[]
    {
      servicos, nextId := map[], 1;
    }

    /** `listar`. */
    function Listar(categoria: Option<string>, ativo: Option<int>): seq<Listed>
      reads this
      requires Valid()
    {
      ListServices(servicos, nextId, categoria, ativo)
    }

    /** `buscar`: a missing or non-positive id is a 400, an unknown id a
        404. */
    function Buscar(id: Option<int>): (r: Response<Service>)
      reads this
      ensures r.Success? <==> id.GetOr(0) > 0 && id.GetOr(0) in servicos
      ensures r.Success? ==> r.data == servicos[id.value]
      ensures id.GetOr(0) <= 0 ==> r == Error(400, InvalidId)
      ensures id.GetOr(0) > 0 && id.GetOr(0) !in servicos ==> r == Error(404, NotFound)
    {
      var i := id.GetOr(0);
      if i <= 0 then Error(400, InvalidId)
      else if i !in servicos then Error(404, NotFound)
      else Success(200, servicos[i])
    }

    /** `criar`. `insertFails` makes the INSERT fail. */
    method Criar(input: ServiceInput, now: int, insertFails: bool) returns (resp: Response<int>)
      requires Valid()
      modifies this
      ensures Valid()
      ensures FirstMissing(input).Some? ==>
        resp == Error(400, RequiredMessage(FirstMissing(input).value)) && unchanged(this)
      ensures FirstMissing(input).None? && insertFails ==>
        resp == Error(500, CreateError) && servicos == old(servicos)
      ensures FirstMissing(input).None? && !insertFails ==>
        && resp == Success(200, old(nextId))
        && old(nextId) !in old(servicos)
        && servicos == old(servicos)[old(nextId) := NewService(input, NextOrdem(old(servicos), old(nextId)), now)]
        && nextId == old(nextId) + 1
    {
      var missing := FirstMissing(input);
      if missing.Some? {
        return Error(400, RequiredMessage(missing.value));
      }
      var ordem := NextOrdem(servicos, nextId);
      if insertFails {
        return Error(500, CreateError);
      }
      var id := nextId;
      servicos := servicos[id := NewService(input, ordem, now)];
      nextId := nextId + 1;
      resp := Success(200, id);
    }

    /** `atualizar` with the statement bound by `types`: a refused bind
        leaves the statement without its variables, so the UPDATE fails like
        one the database refuses. */
    method AtualizarBound(input: ServiceInput, now: int, updateFails: bool, types: string)
      returns (resp: Response<string>)
      requires Valid()
      modifies this`servicos
      ensures Valid()
      ensures input.id.GetOr(0) <= 0 ==> resp == Error(400, InvalidId) && servicos == old(servicos)
      ensures input.id.GetOr(0) > 0 && input.id.value !in old(servicos) ==>
        resp == Error(404, NotFound) && servicos == old(servicos)
      ensures input.id.GetOr(0) > 0 && input.id.value in old(servicos) &&
              (updateFails || !BindAccepts(types, UpdateVariables)) ==>
        resp == Error(500, UpdateError) && servicos == old(servicos)
      ensures input.id.GetOr(0) > 0 && input.id.value in old(servicos) &&
              !updateFails && BindAccepts(types, UpdateVariables) ==>
        var id := input.id.value;
        resp == Success(200, UpdatedMessage) && servicos == old(servicos)[id := Updated(old(servicos)[id], input, now)]
    {
      if input.id.None? || input.id.value <= 0 {
        return Error(400, InvalidId);
      }
      var id := input.id.value;
      if id !in servicos {
        return Error(404, NotFound);
      }
      if updateFails || !BindAccepts(types, UpdateVariables) {
        return Error(500, UpdateError);
      }
      servicos := servicos[id := Updated(servicos[id], input, now)];
      resp := Success(200, UpdatedMessage);
    }

    /** `atualizar` as written: every stored service's update fails with a
        500 and leaves the table as it was. */
    method AtualizarAsWritten(input: ServiceInput, now: int, updateFails: bool) returns (resp: Response<string>)
      requires Valid()
      modifies this`servicos
      ensures Valid()
      ensures input.id.GetOr(0) <= 0 ==> resp == Error(400, InvalidId) && servicos == old(servicos)
      ensures input.id.GetOr(0) > 0 && input.id.value !in old(servicos) ==>
        resp == Error(404, NotFound) && servicos == old(servicos)
      ensures input.id.GetOr(0) > 0 && input.id.value in old(servicos) ==>
        resp == Error(500, UpdateError) && servicos == old(servicos)
    {
      UpdateBindAsWrittenRefused();
      resp := AtualizarBound(input, now, updateFails, UpdateTypesAsWritten);
    }

    /** `atualizar` with the intended type string: the stored service takes
        the submitted fields. */
    method Atualizar(input: ServiceInput, now: int, updateFails: bool) returns (resp: Response<string>)
      requires Valid()
      modifies this`servicos
      ensures Valid()
      ensures input.id.GetOr(0) <= 0 ==> resp == Error(400, InvalidId) && servicos == old(servicos)
      ensures input.id.GetOr(0) > 0 && input.id.value !in old(servicos) ==>
        resp == Error(404, NotFound) && servicos == old(servicos)
      ensures input.id.GetOr(0) > 0 && input.id.value in old(servicos) && updateFails ==>
        resp == Error(500, UpdateError) && servicos == old(servicos)
      ensures input.id.GetOr(0) > 0 && input.id.value in old(servicos) && !updateFails ==>
        var id := input.id.value;
        resp == Success(200, UpdatedMessage) && servicos == old(servicos)[id := Updated(old(servicos)[id], input, now)]
    {
      UpdateBindAsWrittenRefused();
      resp := AtualizarBound(input, now, updateFails, UpdateTypesIntended);
    }

    /** `deletar`. */
    method Deletar(id: Option<int>, deleteFails: bool) returns (resp: Response<string>)
      requires Valid()
      modifies this`servicos
      ensures Valid()
      ensures id.GetOr(0) <= 0 ==> resp == Error(400, InvalidId) && servicos == old(servicos)
      ensures id.GetOr(0) > 0 && id.value !in old(servicos) ==> resp == Error(404, NotFound) && servicos == old(servicos)
      ensures id.GetOr(0) > 0 && id.value in old(servicos) && deleteFails ==>
        resp == Error(500, DeleteError) && servicos == old(servicos)
      ensures id.GetOr(0) > 0 && id.value in old(servicos) && !deleteFails ==>
        resp == Success(200, DeletedMessage) && servicos == old(servicos) - {id.value}
    {
      var i := id.GetOr(0);
      if i <= 0 {
        return Error(400, InvalidId);
      }
      if i !in servicos {
        return Error(404, NotFound);
      }
      if deleteFails {
        return Error(500, DeleteError);
      }
      servicos := servicos - {i};
      resp := Success(200, DeletedMessage);
    }

    /** `reordenar`: `ordem` is None when the body has no array under
        `ordem`. Each position is written in turn; a failure rolls all of
        them back. */
    method Reordenar(ordem: Option<seq<int>>, fault: Option<ReorderFault>) returns (resp: Response<string>)
      requires Valid()
      modifies this`servicos
      ensures Valid()
      ensures ordem.None? ==> resp == Error(400, InvalidFormat) && servicos == old(servicos)
      ensures ordem.Some? && fault.Some? && (fault.value.CommitFails? || fault.value.index < |ordem.value|) ==>
        resp == Error(500, ReorderError) && servicos == old(servicos)
      ensures ordem.Some? && (fault.None? || (fault.value.UpdateFails? && fault.value.index >= |ordem.value|)) ==>
        resp == Success(200, ReorderedMessage) && servicos == Reordered(old(servicos), ordem.value)
    {
      if ordem.None? {
        return Error(400, InvalidFormat);
      }
      var ids := ordem.value;
      // begin_transaction
      var saved := servicos;
      var i := 0;
      while i < |ids|
        invariant 0 <= i <= |ids|
        invariant servicos == Reordered(saved, ids[..i])
        invariant fault.Some? && fault.value.UpdateFails? ==> i <= fault.value.index
        invariant Valid()
      {
        if fault == Some(UpdateFails(i)) {
          servicos := saved;
          return Error(500, ReorderError);
        }
        assert ids[..i + 1][..i] == ids[..i];
        servicos := SetOrdem(servicos, ids[i], i + 1);
        i := i + 1;
      }
      assert ids[..i] == ids;
      if fault == Some(CommitFails) {
        servicos := saved;
        return Error(500, ReorderError);
      }
      resp := Success(200, ReorderedMessage);
    }
  }
}
