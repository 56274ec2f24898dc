/** backend/demandas_admin_api.php: the admin view of the contact-form
    demands: a filtered, paginated listing, fetching one demand (which marks
    it read), status changes from a fixed whitelist, read flags, append-only
    internal notes, and deletion. */
module DemandasAdmin {
  import opened Common
  import opened Sorting
  import opened Text

  /** One `demandas` row. `dataEnvio` is the submission time; `dia` is the
      calendar day DATE(data_envio) of it. */
  datatype Demand = Demand(
    nome: string,
    email: string,
    telefone: Option<string>,
    assunto: string,
    mensagem: string,
    status: string,
    prioridade: string,
    lida: int,
    notasInternas: Option<string>,
    dataEnvio: int,
    dia: int,
    dataAtualizacao: Option<int>)

  type Listed = Keyed<Demand>

  /** The query string of `listar`; integers already converted by intval,
      dates already read as day numbers. */
  datatype ListQuery = ListQuery(
    status: Option<string>,
    lida: Option<int>,
    dataInicio: Option<int>,
    dataFim: Option<int>,
    busca: Option<string>,
    limite: Option<int>,
    pagina: Option<int>)

  datatype Page = Page(
    demandas: seq<Listed>,
    paginaAtual: int,
    totalRegistros: nat,
    registrosPorPagina: int,
    totalPaginas: int)

  const DefaultLimit := 50
  const DefaultPage := 1

  const InvalidId := "ID inválido"
  const NotFound := "Demanda não encontrada"
  const IdAndStatusRequired := "ID e status são obrigatórios"
  const InvalidStatus := "Status inválido. Use: pendente, em_andamento, resolvido, cancelado"
  const IdAndNoteRequired := "ID e nota são obrigatórios"
  const MethodNotAllowed := "Método não permitido"
  const InvalidAction := "Ação inválida"
  const DeleteError := "Erro ao deletar demanda"
  const DeletedMessage := "Demanda deletada com sucesso"
  /** LIMIT or OFFSET below zero, or a division of the page count by zero,
      ends the script with an uncaught error. */
  const QueryFailed := "Erro interno"

  // ---------------------------------------------------------------
  // Filters

  predicate MatchesSearch(busca: string, d: Demand)
  {
    LikeContains(d.nome, busca) || LikeContains(d.email, busca)
    || LikeContains(d.assunto, busca) || LikeContains(d.mensagem, busca)
  }

  /** The WHERE clause of `listar`: every supplied filter holds; the search
      text is trimmed before it is matched. */
  predicate MatchesQuery(q: ListQuery, d: Demand)
  {
    && (q.status.Some? ==> d.status == q.status.value)
    && (q.lida.Some? ==> d.lida == q.lida.value)
    && (q.dataInicio.Some? ==> d.dia >= q.dataInicio.value)
    && (q.dataFim.Some? ==> d.dia <= q.dataFim.value)
    && (q.busca.Some? ==> MatchesSearch(Trim(q.busca.value), d))
  }

  /** An empty search matches every row. */
  lemma EmptySearchMatchesAll(d: Demand)
    ensures MatchesSearch("", d)
  {
    EmptyLikeContains(d.nome);
  }

  /** ORDER BY data_envio DESC. */
  predicate NewestFirst(a: Listed, b: Listed)
  {
    a.row.dataEnvio >= b.row.dataEnvio
  }

  function ByNewest(): (Listed, Listed) -> bool
  {
    (a: Listed, b: Listed) => NewestFirst(a, b)
  }

  lemma ByNewestIsPreorder()
    ensures TotalPreorder(ByNewest())
  {
  }

  // ---------------------------------------------------------------
  // Pagination

  /** OFFSET (pagina - 1) * limite. */
  function Offset(pagina: int, limite: int): int
  {
    (pagina - 1) * limite
  }

  /** ceil(total / limite) for a positive limit. */
  function TotalPages(total: nat, limite: int): (n: nat)
    requires limite > 0
    ensures n * limite >= total
    ensures n > 0 ==> (n - 1) * limite < total
    ensures n == 0 <==> total == 0
  {
    (total + limite - 1) / limite
  }

  /** The rows LIMIT limite OFFSET offset keeps. */
  function PageOf<T>(s: seq<T>, pagina: int, limite: int): (r: seq<T>)
    requires pagina >= 1 && limite > 0
    ensures |r| <= limite
  {
    var from := Offset(pagina, limite);
    if from >= |s| then []
    else if from + limite >= |s| then s[from..]
    else s[from..from + limite]
  }

  /** Every page up to the page count is non-empty, every later page is
      empty, and the pages in order rebuild the whole sorted listing. */
  lemma PagesPartition<T>(s: seq<T>, limite: int)
    requires limite > 0
    ensures forall p :: 1 <= p <= TotalPages(|s|, limite) ==> PageOf(s, p, limite) != []
    ensures forall p :: p > TotalPages(|s|, limite) ==> PageOf(s, p, limite) == []
    ensures Pages(s, limite, TotalPages(|s|, limite)) == s
  {
    var n := TotalPages(|s|, limite);
    forall p | 1 <= p <= n ensures PageOf(s, p, limite) != [] {
      assert Offset(p, limite) <= (n - 1) * limite;
    }
    forall p | p > n ensures PageOf(s, p, limite) == [] {
      assert Offset(p, limite) >= n * limite;
    }
    PagesPrefix(s, limite, n);
    assert s[..|s|] == s;
  }

  /** Pages 1..n concatenated. */
  function Pages<T>(s: seq<T>, limite: int, n: nat): seq<T>
    requires limite > 0
  {
    if n == 0 then [] else Pages(s, limite, n - 1) + PageOf(s, n, limite)
  }

  lemma {:induction false} PagesPrefix<T>(s: seq<T>, limite: int, n: nat)
    requires limite > 0
    ensures Pages(s, limite, n) == s[..if n * limite < |s| then n * limite else |s|]
  {
    if n > 0 {
      PagesPrefix(s, limite, n - 1);
      assert (n - 1) * limite + limite == n * limite;
    }
  }

  // ---------------------------------------------------------------
  // Notes and statuses

  /** One line of the internal notes, stamped with the time and the
      admin's name. */
  function NoteEntry(dataHora: string, adminNome: string, nota: string): string
  {
    "\n[" + dataHora + "] " + adminNome + ": " + nota
  }

  /** `adicionar_nota`: the notes so far (NULL reads as empty) followed by
      one new entry. */
  function AppendNote(existing: Option<string>, dataHora: string, adminNome: string, nota: string): (r: string)
    ensures |r| > |existing.GetOr("")|
    ensures r[..|existing.GetOr("")|] == existing.GetOr("")
    ensures r[|existing.GetOr("")|..] == NoteEntry(dataHora, adminNome, nota)
  {
    existing.GetOr("") + NoteEntry(dataHora, adminNome, nota)
  }

  /** Notes are append-only: after two additions the notes before both are
      still a prefix, followed by the two entries in order. */
  lemma NotesAppendOnly(existing: Option<string>, t1: string, a1: string, n1: string, t2: string, a2: string, n2: string)
    ensures var twice := AppendNote(Some(AppendNote(existing, t1, a1, n1)), t2, a2, n2);
      twice == existing.GetOr("") + NoteEntry(t1, a1, n1) + NoteEntry(t2, a2, n2)
  {
    var once := AppendNote(existing, t1, a1, n1);
    assert once == existing.GetOr("") + NoteEntry(t1, a1, n1);
  }

  const AllowedStatuses: seq<string> := ["pendente", "em_andamento", "resolvido", "cancelado"]

  /** The answer of `atualizar_status` before it writes: None when the
      update goes ahead. */
  function StatusRejection(id: int, status: string): (r: Option<string>)
    ensures r.None? <==> id > 0 && status in AllowedStatuses
    ensures r == Some(IdAndStatusRequired) <==> id <= 0 || PhpEmpty(status)
  {
    if id <= 0 || PhpEmpty(status) then Some(IdAndStatusRequired)
    else if status !in AllowedStatuses then Some(InvalidStatus)
    else None
  }

  /** The read flag a `buscar` leaves: an unread demand becomes read. */
  function MarkedRead(d: Demand, now: int): (r: Demand)
    ensures r.lida != 0
    ensures d.lida != 0 ==> r == d
  {
    if d.lida == 0 then d.(lida := 1, dataAtualizacao := Some(now)) else d
  }

  lemma MarkedReadIdempotent(d: Demand, t1: int, t2: int)
    ensures MarkedRead(MarkedRead(d, t1), t2) == MarkedRead(d, t1)
  {
  }

  // ---------------------------------------------------------------
  // Routing

  datatype Operation = List | Fetch | UpdateStatus | MarkRead | AddNote | Delete

  function Route(action: string, httpMethod: string): (r: Response<Operation>)
    ensures r == Success(200, List) <==> action == "listar"
    ensures r == Success(200, Fetch) <==> action == "buscar"
    ensures r == Success(200, UpdateStatus) <==> action == "atualizar_status" && httpMethod == "POST"
    ensures r == Success(200, MarkRead) <==> action == "marcar_lida" && httpMethod == "POST"
    ensures r == Success(200, AddNote) <==> action == "adicionar_nota" && httpMethod == "POST"
    ensures r == Success(200, Delete) <==> action == "deletar" && httpMethod == "POST"
    ensures r == Error(405, MethodNotAllowed) <==>
      action in {"atualizar_status", "marcar_lida", "adicionar_nota", "deletar"} && httpMethod != "POST"
    ensures r == Error(400, InvalidAction) <==>
      action !in {"listar", "buscar", "atualizar_status", "marcar_lida", "adicionar_nota", "deletar"}
  {
    match action
    case "listar" => Success(200, List)
    case "buscar" => Success(200, Fetch)
    case "atualizar_status" => if httpMethod == "POST" then Success(200, UpdateStatus) else Error(405, MethodNotAllowed)
    case "marcar_lida" => if httpMethod == "POST" then Success(200, MarkRead) else Error(405, MethodNotAllowed)
    case "adicionar_nota" => if httpMethod == "POST" then Success(200, AddNote) else Error(405, MethodNotAllowed)
    case "deletar" => if httpMethod == "POST" then Success(200, Delete) else Error(405, MethodNotAllowed)
    case _ => Error(400, InvalidAction)
  }

  // ---------------------------------------------------------------
  // The listing

  /** Every row matching the query, newest first, before the page cut. */
  function Matching(m: map<int, Demand>, next: int, q: ListQuery): seq<Listed>
    requires IdsBelow(m, next)
  {
    ByNewestIsPreorder();
    SortBy(Filter(AsListed(m, KeysBelow(m, next)), (l: Listed) => MatchesQuery(q, l.row)), ByNewest())
  }

  /** `listar`: a non-positive limit or a page below 1 ends in an error;
      otherwise one page and the totals of the whole match. */
  function ListDemands(m: map<int, Demand>, next: int, q: ListQuery): (r: Response<Page>)
    requires IdsBelow(m, next)
    ensures r.Error? <==> q.limite.GetOr(DefaultLimit) <= 0 || q.pagina.GetOr(DefaultPage) < 1
    ensures r.Success? ==>
      && r.data.totalRegistros == |Matching(m, next, q)|
      && r.data.totalPaginas == TotalPages(r.data.totalRegistros, q.limite.GetOr(DefaultLimit))
      && r.data.demandas == PageOf(Matching(m, next, q), q.pagina.GetOr(DefaultPage), q.limite.GetOr(DefaultLimit))
      && |r.data.demandas| <= q.limite.GetOr(DefaultLimit)
  {
    var limite := q.limite.GetOr(DefaultLimit);
    var pagina := q.pagina.GetOr(DefaultPage);
    if limite <= 0 || pagina < 1 then Error(500, QueryFailed)
    else
      var all := Matching(m, next, q);
      Success(200, Page(PageOf(all, pagina, limite), pagina, |all|, limite, TotalPages(|all|, limite)))
  }

  /** The full match holds exactly the rows satisfying every filter, each
      with its own key. */
  lemma MatchingMembers(m: map<int, Demand>, next: int, q: ListQuery)
    requires IdsBelow(m, next)
    ensures forall l :: l in Matching(m, next, q) <==> l.id in m && l.row == m[l.id] && MatchesQuery(q, l.row)
  {
    var keys := KeysBelow(m, next);
    KeysBelowComplete(m, next);
    AsListedMembers(m, keys);
    var f := Filter(AsListed(m, keys), (l: Listed) => MatchesQuery(q, l.row));
    var le := ByNewest();
    ByNewestIsPreorder();
    forall l ensures l in SortBy(f, le) <==> l in f {
      SortByMembers(f, le, l);
    }
  }

  /** The full match is newest first, and its size is the number of rows
      the filters accept, which is what the COUNT query reports. */
  lemma MatchingOrderAndCount(m: map<int, Demand>, next: int, q: ListQuery)
    requires IdsBelow(m, next)
    ensures var all := Matching(m, next, q);
      && (forall i, j :: 0 <= i < j < |all| ==> all[i].row.dataEnvio >= all[j].row.dataEnvio)
      && |all| == Count(AsListed(m, KeysBelow(m, next)), (l: Listed) => MatchesQuery(q, l.row))
  {
    var f := Filter(AsListed(m, KeysBelow(m, next)), (l: Listed) => MatchesQuery(q, l.row));
    var le := ByNewest();
    ByNewestIsPreorder();
    var all := SortBy(f, le);
    forall i, j | 0 <= i < j < |all| ensures all[i].row.dataEnvio >= all[j].row.dataEnvio {
      assert le(all[i], all[j]);
    }
  }

  /** A page is a run of consecutive rows of the full listing. */
  lemma PageOfSubset<T>(s: seq<T>, pagina: int, limite: int)
    requires pagina >= 1 && limite > 0
    ensures forall i :: 0 <= i < |PageOf(s, pagina, limite)| ==>
      0 <= Offset(pagina, limite) + i < |s| && PageOf(s, pagina, limite)[i] == s[Offset(pagina, limite) + i]
  {
    var from := Offset(pagina, limite);
    assert from >= 0;
    var r := PageOf(s, pagina, limite);
    if from < |s| {
      if from + limite >= |s| {
        assert r == s[from..];
      } else {
        assert r == s[from..from + limite];
      }
    }
  }

  /** Every row on a page satisfies every supplied filter. */
  lemma PageRowsMatch(m: map<int, Demand>, next: int, q: ListQuery)
    requires IdsBelow(m, next)
    ensures var r := ListDemands(m, next, q);
      r.Success? ==> forall l :: l in r.data.demandas ==> l.id in m && l.row == m[l.id] && MatchesQuery(q, l.row)
  {
    var r := ListDemands(m, next, q);
    if r.Success? {
      MatchingMembers(m, next, q);
      var all := Matching(m, next, q);
      PageMembers(all, q.pagina.GetOr(DefaultPage), q.limite.GetOr(DefaultLimit));
    }
  }

  /** Whatever a page shows comes from the full listing. */
  lemma PageMembers<T>(s: seq<T>, pagina: int, limite: int)
    requires pagina >= 1 && limite > 0
    ensures forall x :: x in PageOf(s, pagina, limite) ==> x in s
  {
    PageOfSubset(s, pagina, limite);
    var p := PageOf(s, pagina, limite);
    forall x | x in p ensures x in s {
      var i :| 0 <= i < |p| && p[i] == x;
      assert s[Offset(pagina, limite) + i] == x;
    }
  }

  // ---------------------------------------------------------------
  // The endpoint over its table

  class DemandasAdminApi {
    var demandas: map<int, Demand>
    /** Rows are inserted by the public form; this endpoint never inserts. */
    var nextId: int

    ghost predicate Valid()
      reads this
    {
      nextId >= 1 && IdsBelow(demandas, nextId)
    }

    constructor (demandas: map<int, Demand>, nextId: int)
      requires nextId >= 1 && IdsBelow(demandas, nextId)
      ensures Valid() && this.demandas == demandas && this.nextId == nextId
    {
      this.demandas, this.nextId := demandas, nextId;
    }

    /** `listar`. */
    function Listar(q: ListQuery): Response<Page>
      reads this
      requires Valid()
    {
      ListDemands(demandas, nextId, q)
    }

    /** `buscar`: returns the demand with `lida = 1` and marks an unread
        demand read in the table. The reply carries the row as it was read,
        so its modification time is the old one. */
    method Buscar(id: Option<int>, now: int) returns (resp: Response<Demand>)
      requires Valid()
      modifies this`demandas
      ensures Valid()
      ensures id.GetOr(0) <= 0 ==> resp == Error(400, InvalidId) && demandas == old(demandas)
      ensures id.GetOr(0) > 0 && id.value !in old(demandas) ==> resp == Error(404, NotFound) && demandas == old(demandas)
      ensures id.GetOr(0) > 0 && id.value in old(demandas) ==>
        var d := old(demandas)[id.value];
        && demandas == old(demandas)[id.value := MarkedRead(d, now)]
        && resp == Success(200, if d.lida == 0 then d.(lida := 1) else d)
    {
      var i := id.GetOr(0);
      if i <= 0 {
        return Error(400, InvalidId);
      }
      if i !in demandas {
        return Error(404, NotFound);
      }
      var d := demandas[i];
      if d.lida == 0 {
        demandas := demandas[i := d.(lida := 1, dataAtualizacao := Some(now))];
        d := d.(lida := 1);
      }
      resp := Success(200, d);
    }

    /** `atualizar_status`. The UPDATE reports success even when no row has
        that id. */
    method AtualizarStatus(id: Option<int>, status: Option<string>, now: int, updateFails: bool)
      returns (resp: Response<string>)
      requires Valid()
      modifies this`demandas
      ensures Valid()
      ensures var s := Trim(status.GetOr(""));
        var rejection := StatusRejection(id.GetOr(0), s);
        && (rejection.Some? ==> resp == Error(400, rejection.value) && demandas == old(demandas))
        && (rejection.None? && updateFails ==> resp.Error? && resp.code == 500 && demandas == old(demandas))
        && (rejection.None? && !updateFails ==>
              && resp == Success(200, s)
              && (id.value in old(demandas) ==>
                    demandas == old(demandas)[id.value := old(demandas)[id.value].(status := s, dataAtualizacao := Some(now))])
              && (id.value !in old(demandas) ==> demandas == old(demandas)))
    {
      var i := id.GetOr(0);
      var s := Trim(status.GetOr(""));
      var rejection := StatusRejection(i, s);
      if rejection.Some? {
        return Error(400, rejection.value);
      }
      if updateFails {
        return Error(500, "Erro ao atualizar status");
      }
      if i in demandas {
        demandas := demandas[i := demandas[i].(status := s, dataAtualizacao := Some(now))];
      }
      resp := Success(200, s);
    }

    /** `marcar_lida`: `lida` defaults to 1. */
    method MarcarLida(id: Option<int>, lida: Option<int>, now: int, updateFails: bool)
      returns (resp: Response<string>)
      requires Valid()
      modifies this`demandas
      ensures Valid()
      ensures id.GetOr(0) <= 0 ==> resp == Error(400, InvalidId) && demandas == old(demandas)
      ensures id.GetOr(0) > 0 && updateFails ==> resp.Error? && resp.code == 500 && demandas == old(demandas)
      ensures id.GetOr(0) > 0 && !updateFails ==>
        var flag := lida.GetOr(1);
        && resp == Success(200, "Demanda marcada como " + (if flag != 0 then "lida" else "não lida"))
        && (id.value in old(demandas) ==>
              demandas == old(demandas)[id.value := old(demandas)[id.value].(lida := flag, dataAtualizacao := Some(now))])
        && (id.value !in old(demandas) ==> demandas == old(demandas))
    {
      var i := id.GetOr(0);
      if i <= 0 {
        return Error(400, InvalidId);
      }
      if updateFails {
        return Error(500, "Erro ao atualizar demanda");
      }
      var flag := if lida.Some? then lida.value else 1;
      if i in demandas {
        demandas := demandas[i := demandas[i].(lida := flag, dataAtualizacao := Some(now))];
      }
      resp := Success(200, "Demanda marcada como " + (if flag != 0 then "lida" else "não lida"));
    }

    /** `adicionar_nota`. A note that trims to "" or to "0" counts as empty.
        `dataHora` is the clock as Y-m-d H:i:s and `adminNome` the session's
        admin name. */
    method AdicionarNota(id: Option<int>, nota: Option<string>, dataHora: string, adminNome: string,
                         now: int, updateFails: bool)
      returns (resp: Response<string>)
      requires Valid()
      modifies this`demandas
      ensures Valid()
      ensures var n := Trim(nota.GetOr(""));
        && (id.GetOr(0) <= 0 || PhpEmpty(n) ==> resp == Error(400, IdAndNoteRequired) && demandas == old(demandas))
        && (id.GetOr(0) > 0 && !PhpEmpty(n) && id.value !in old(demandas) ==>
              resp == Error(404, NotFound) && demandas == old(demandas))
        && (id.GetOr(0) > 0 && !PhpEmpty(n) && id.value in old(demandas) && updateFails ==>
              resp.Error? && resp.code == 500 && demandas == old(demandas))
        && (id.GetOr(0) > 0 && !PhpEmpty(n) && id.value in old(demandas) && !updateFails ==>
              var d := old(demandas)[id.value];
              var notes := AppendNote(d.notasInternas, dataHora, adminNome, n);
              resp == Success(200, notes)
              && demandas == old(demandas)[id.value := d.(notasInternas := Some(notes), dataAtualizacao := Some(now))])
    {
      var i := id.GetOr(0);
      var n := Trim(nota.GetOr(""));
      if i <= 0 || PhpEmpty(n) {
        return Error(400, IdAndNoteRequired);
      }
      if i !in demandas {
        return Error(404, NotFound);
      }
      var d := demandas[i];
      var notes := AppendNote(d.notasInternas, dataHora, adminNome, n);
      if updateFails {
        return Error(500, "Erro ao adicionar nota");
      }
      demandas := demandas[i := d.(notasInternas := Some(notes), dataAtualizacao := Some(now))];
      resp := Success(200, notes);
    }

    /** `deletar`: succeeds for any positive id, whether or not it exists. */
    method Deletar(id: Option<int>, deleteFails: bool) returns (resp: Response<string>)
      requires Valid()
      modifies this`demandas
      ensures Valid()
      ensures id.GetOr(0) <= 0 ==> resp == Error(400, InvalidId) && demandas == old(demandas)
      ensures id.GetOr(0) > 0 && deleteFails ==> resp == Error(500, DeleteError) && demandas == old(demandas)
      ensures id.GetOr(0) > 0 && !deleteFails ==>
        resp == Success(200, DeletedMessage) && demandas == old(demandas) - {id.value}
    {
      var i := id.GetOr(0);
      if i <= 0 {
        return Error(400, InvalidId);
      }
      if deleteFails {
        return Error(500, DeleteError);
      }
      demandas := demandas - {i};
      resp := Success(200, DeletedMessage);
    }
  }
}
