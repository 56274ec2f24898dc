/** api/alertas.php: the public alert endpoint. POST `criar` opens an alert
    with its first location inside one transaction, POST
    `atualizar-localizacao` appends a ping to an active alert, PUT `cancelar`
    clears `ativo`, and GET lists the active alerts. */
module Alertas {
  import opened Common
  import opened Sorting
  import opened AlertTables

  // ---------------------------------------------------------------
  // Requests, replies and messages

  /** The JSON body of `criar`; a field is None when it is missing or null. */
  datatype CreateRequest = CreateRequest(
    usuarioHash: Option<string>,
    latitude: Option<real>,
    longitude: Option<real>,
    precisao: Option<real>)

  datatype Created = Created(alertaId: int, contatosNotificados: nat, latitude: real, longitude: real)

  /** The JSON body of `atualizar-localizacao`. */
  datatype LocationRequest = LocationRequest(
    alertaId: Option<int>,
    latitude: Option<real>,
    longitude: Option<real>,
    precisao: Option<real>,
    velocidade: Option<real>)

  /** The storage steps of each handler; a fault names the step whose
      statement throws. */
  datatype CreateStep = InsertAlert | InsertFirstPing | SelectContacts | InsertLog | CommitCreate
  datatype LocationStep = SelectAlert | InsertPing | TouchAlert
  datatype CancelStep = UpdateAtivo

  /** One row of the active-alerts listing. */
  datatype ActiveAlert = ActiveAlert(id: int, alert: Alert, totalAtualizacoes: nat, ultimaLocalizacao: Option<Ping>)

  const MissingData := "Dados obrigatórios ausentes"
  const NotFoundMessage := "Alerta não encontrado"
  const AlreadyCancelledMessage := "Alerta já foi cancelado"
  const MissingId := "ID do alerta é obrigatório"
  /** The 500 reply carries this prefix followed by the driver's text. */
  const ProcessingError := "Erro ao processar alerta: "

  datatype Action = Create | UpdateLocation | Cancel | ListActive | NoAction

  /** Dispatch on the HTTP method and the `acao` query parameter; a POST or
      PUT with another `acao` produces no reply body at all. */
  function Route(httpMethod: string, acao: string): (a: Action)
    ensures a == Create <==> httpMethod == "POST" && acao == "criar"
    ensures a == UpdateLocation <==> httpMethod == "POST" && acao == "atualizar-localizacao"
    ensures a == Cancel <==> httpMethod == "PUT" && acao == "cancelar"
    ensures a == ListActive <==> httpMethod == "GET"
  {
    if httpMethod == "POST" then
      if acao == "criar" then Create
      else if acao == "atualizar-localizacao" then UpdateLocation
      else NoAction
    else if httpMethod == "PUT" then
      if acao == "cancelar" then Cancel else NoAction
    else if httpMethod == "GET" then ListActive
    else NoAction
  }

  // ---------------------------------------------------------------
  // The lifecycle as functions of the alert table

  predicate CreateInputPresent(req: CreateRequest)
  {
    req.usuarioHash.Some? && req.latitude.Some? && req.longitude.Some?
  }

  /** What a location update on `id` concludes from the table, before it
      writes anything. */
  datatype Gate = Open | UnknownAlert | CancelledAlert

  function LocationGate(alerts: map<int, Alert>, id: int): Gate
  {
    if id !in alerts then UnknownAlert
    else if !alerts[id].ativo then CancelledAlert
    else Open
  }

  /** `UPDATE alertas_socorro SET ativo = 0 WHERE id = ?`. */
  function CancelTable(alerts: map<int, Alert>, id: int): (r: map<int, Alert>)
    ensures r.Keys == alerts.Keys
    ensures forall k :: k in alerts && k != id ==> r[k] == alerts[k]
    ensures id in alerts ==> r[id] == alerts[id].(ativo := false)
  {
    if id in alerts then alerts[id := alerts[id].(ativo := false)] else alerts
  }

  /** The row count MySQL reports for that UPDATE: rows actually changed,
      so a row that already has `ativo = 0` does not count. */
  function CancelRowCount(alerts: map<int, Alert>, id: int): nat
  {
    if id in alerts && alerts[id].ativo then 1 else 0
  }

  function CancelReply(alerts: map<int, Alert>, id: int): (r: Response<int>)
    ensures r.Success? <==> id in alerts && alerts[id].ativo
    ensures r.Error? ==> r == Error(404, NotFoundMessage)
  {
    if CancelRowCount(alerts, id) > 0 then Success(200, id) else Error(404, NotFoundMessage)
  }

  /** Cancelling is final: once an alert is cancelled, a location update is
      refused, and a second cancel reports 404 and changes nothing. */
  lemma CancelIsFinal(alerts: map<int, Alert>, id: int)
    requires id in alerts
    ensures LocationGate(CancelTable(alerts, id), id) == CancelledAlert
    ensures CancelReply(CancelTable(alerts, id), id) == Error(404, NotFoundMessage)
    ensures CancelTable(CancelTable(alerts, id), id) == CancelTable(alerts, id)
  {
  }

  /** Only an active alert can be cancelled successfully, and cancelling
      keeps every other column of the row. */
  lemma CancelKeepsRow(alerts: map<int, Alert>, id: int)
    requires CancelReply(alerts, id).Success?
    ensures var t := CancelTable(alerts, id);
      && !t[id].ativo
      && t[id].(ativo := true) == alerts[id]
  {
  }

  function IsActiveIn(alerts: map<int, Alert>): int -> bool
  {
    (k: int) => k in alerts && alerts[k].ativo
  }

  function CreatedAtOf(alerts: map<int, Alert>, k: int): int
  {
    if k in alerts then alerts[k].createdAt else 0
  }

  /** ORDER BY created_at DESC on alert ids. */
  function NewestFirst(alerts: map<int, Alert>): (int, int) -> bool
  {
    (a: int, b: int) => CreatedAtOf(alerts, a) >= CreatedAtOf(alerts, b)
  }

  lemma NewestFirstIsPreorder(alerts: map<int, Alert>)
    ensures TotalPreorder(NewestFirst(alerts))
  {
  }

  /** The ids of the active alerts, each once, newest first. */
  function ActiveIdsNewestFirst(alerts: map<int, Alert>, next: int): (r: seq<int>)
    requires IdsBelow(alerts, next)
    ensures forall k :: k in r <==> k in alerts && alerts[k].ativo
    ensures Distinct(r)
    ensures forall i, j :: 0 <= i < j < |r| ==> CreatedAtOf(alerts, r[i]) >= CreatedAtOf(alerts, r[j])
  {
    var keys := KeysBelow(alerts, next);
    var ids := Filter(keys, IsActiveIn(alerts));
    var le := NewestFirst(alerts);
    NewestFirstIsPreorder(alerts);
    var sorted := SortBy(ids, le);
    DistinctSubMultiset(keys, ids);
    DistinctSubMultiset(ids, sorted);
    forall k ensures k in sorted <==> k in ids {
      SortByMembers(ids, le, k);
    }
    KeysBelowComplete(alerts, next);
    assert Sorted(sorted, le);
    sorted
  }

  function Summarize(alerts: map<int, Alert>, pings: seq<Ping>, id: int): ActiveAlert
    requires id in alerts
  {
    ActiveAlert(id, alerts[id], Count(pings, ForAlert(id)), NewestPingOf(pings, id))
  }

  /** GET: the active alerts, each summarised with its pings. */
  function ActiveAlerts(alerts: map<int, Alert>, next: int, pings: seq<Ping>): seq<ActiveAlert>
    requires IdsBelow(alerts, next)
  {
    SummarizeAll(alerts, pings, ActiveIdsNewestFirst(alerts, next))
  }

  function SummarizeAll(alerts: map<int, Alert>, pings: seq<Ping>, ids: seq<int>): seq<ActiveAlert>
    requires forall k :: k in ids ==> k in alerts
  {
    seq(|ids|, i requires 0 <= i < |ids| => Summarize(alerts, pings, ids[i]))
  }

  /** Every row of the listing is an active alert with its own pings. */
  lemma ListingRows(alerts: map<int, Alert>, next: int, pings: seq<Ping>)
    requires IdsBelow(alerts, next)
    ensures var r := ActiveAlerts(alerts, next, pings);
      forall i :: 0 <= i < |r| ==>
        && r[i].id in alerts && r[i].alert == alerts[r[i].id] && r[i].alert.ativo
        && r[i].totalAtualizacoes == Count(pings, ForAlert(r[i].id))
        && r[i].ultimaLocalizacao == NewestPingOf(pings, r[i].id)
  {
  }

  /** Every active alert is listed. */
  lemma ListingComplete(alerts: map<int, Alert>, next: int, pings: seq<Ping>)
    requires IdsBelow(alerts, next)
    ensures var r := ActiveAlerts(alerts, next, pings);
      forall id :: id in alerts && alerts[id].ativo ==> exists i :: 0 <= i < |r| && r[i].id == id
  {
    var ids := ActiveIdsNewestFirst(alerts, next);
    var r := ActiveAlerts(alerts, next, pings);
    forall id | id in alerts && alerts[id].ativo
      ensures exists i :: 0 <= i < |r| && r[i].id == id
    {
      var k :| 0 <= k < |ids| && ids[k] == id;
      assert r[k].id == id;
    }
  }

  /** No alert is listed twice, and the newest comes first. */
  lemma ListingOrder(alerts: map<int, Alert>, next: int, pings: seq<Ping>)
    requires IdsBelow(alerts, next)
    ensures var r := ActiveAlerts(alerts, next, pings);
      forall i, j :: 0 <= i < j < |r| ==> r[i].id != r[j].id && r[i].alert.createdAt >= r[j].alert.createdAt
  {
    var ids := ActiveIdsNewestFirst(alerts, next);
    var r := ActiveAlerts(alerts, next, pings);
    forall i, j | 0 <= i < j < |r|
      ensures r[i].id != r[j].id && r[i].alert.createdAt >= r[j].alert.createdAt
    {
      ListingPair(alerts, ids, pings, r, i, j);
    }
  }

  lemma ListingPair(alerts: map<int, Alert>, ids: seq<int>, pings: seq<Ping>, r: seq<ActiveAlert>, i: int, j: int)
    requires forall k :: k in ids ==> k in alerts
    requires |r| == |ids| && 0 <= i < j < |r|
    requires r[i] == Summarize(alerts, pings, ids[i]) && r[j] == Summarize(alerts, pings, ids[j])
    requires ids[i] != ids[j] && CreatedAtOf(alerts, ids[i]) >= CreatedAtOf(alerts, ids[j])
    ensures r[i].id != r[j].id && r[i].alert.createdAt >= r[j].alert.createdAt
  {
  }

  /** The listing holds the active alerts only, each once, newest first,
      each with its number of pings and its last ping. */
  lemma ActiveAlertsListing(alerts: map<int, Alert>, next: int, pings: seq<Ping>)
    requires IdsBelow(alerts, next)
    ensures var r := ActiveAlerts(alerts, next, pings);
      && (forall i :: 0 <= i < |r| ==> r[i].id in alerts && r[i].alert == alerts[r[i].id] && r[i].alert.ativo)
      && (forall id :: id in alerts && alerts[id].ativo ==> exists i :: 0 <= i < |r| && r[i].id == id)
      && (forall i, j :: 0 <= i < j < |r| ==> r[i].id != r[j].id)
      && (forall i, j :: 0 <= i < j < |r| ==> r[i].alert.createdAt >= r[j].alert.createdAt)
      && (forall i :: 0 <= i < |r| ==> r[i].totalAtualizacoes == Count(pings, ForAlert(r[i].id)))
      && (forall i :: 0 <= i < |r| ==> r[i].ultimaLocalizacao == NewestPingOf(pings, r[i].id))
  {
    ListingRows(alerts, next, pings);
    ListingComplete(alerts, next, pings);
    ListingOrder(alerts, next, pings);
  }

  // ---------------------------------------------------------------
  // The endpoint over its tables

  /** Inserting an alert under the next id, and then a ping for it, keeps
      both table invariants. */
  lemma InsertAlertKeepsTables(alerts: map<int, Alert>, next: int, pings: seq<Ping>, a: Alert, p: Ping)
    requires next >= 1 && IdsBelow(alerts, next) && PingsReferenceAlerts(pings, alerts)
    requires p.alertaId == next
    ensures next !in alerts
    ensures IdsBelow(alerts[next := a], next + 1)
    ensures PingsReferenceAlerts(pings, alerts[next := a])
    ensures PingsReferenceAlerts(pings + [p], alerts[next := a])
  {
  }

  class AlertasApi {
    var alerts: map<int, Alert>
    /** The table's AUTO_INCREMENT counter. */
    var nextAlertId: int
    var pings: seq<Ping>
    var logs: seq<LogEntry>
    /** contatos_emergencia, which this endpoint only reads. */
    const contacts: seq<Contact>

    ghost predicate Valid()
      reads this
    {
      && nextAlertId >= 1
      && IdsBelow(alerts, nextAlertId)
      && PingsReferenceAlerts(pings, alerts)
    }

    constructor (contacts: seq<Contact>)
      ensures Valid()
      ensures alerts == map[] && pings == [] && logs == [] && this.contacts == contacts
    {
      alerts, nextAlertId, pings, logs := map[], 1, [], [];
      this.contacts := contacts;
    }

    /** Restores the rows a transaction had written. InnoDB does not give
        back an auto-increment value, so `nextAlertId` stays where it is. */
    method RollBack(savedAlerts: map<int, Alert>, savedPings: seq<Ping>, savedLogs: seq<LogEntry>)
      requires IdsBelow(savedAlerts, nextAlertId) && nextAlertId >= 1
      requires PingsReferenceAlerts(savedPings, savedAlerts)
      modifies this
      ensures Valid()
      ensures alerts == savedAlerts && pings == savedPings && logs == savedLogs
      ensures nextAlertId == old(nextAlertId)
    {
      alerts, pings, logs := savedAlerts, savedPings, savedLogs;
    }

    /** POST ?acao=criar. */
    method Criar(req: CreateRequest, ip: string, now: int, fault: Option<CreateStep>)
      returns (resp: Response<Created>)
      requires Valid()
      modifies this
      ensures Valid()
      ensures !CreateInputPresent(req) ==>
        resp == Error(400, MissingData) && alerts == old(alerts) && pings == old(pings)
        && logs == old(logs) && nextAlertId == old(nextAlertId)
      ensures CreateInputPresent(req) && fault.Some? ==>
        resp == Error(500, ProcessingError)
        && alerts == old(alerts) && pings == old(pings) && logs == old(logs)
      ensures CreateInputPresent(req) && fault.None? ==>
        var id := old(nextAlertId);
        var hash := req.usuarioHash.value;
        && id !in old(alerts)
        && alerts == old(alerts)[id := Alert(hash, req.latitude, req.longitude, req.precisao, true, now, now)]
        && pings == old(pings) + [Ping(id, req.latitude, req.longitude, req.precisao, None, now)]
        && logs == old(logs) + [LogEntry("alerta", Some(hash), AlertActivated(id), Some(ip), None)]
        && nextAlertId == id + 1
        && resp == Success(201, Created(id, Count(contacts, IsActiveContactOf(hash)), req.latitude.value, req.longitude.value))
    {
      if !CreateInputPresent(req) {
        return Error(400, MissingData);
      }
      var hash := req.usuarioHash.value;
      // beginTransaction: what a rollback restores
      var savedAlerts, savedPings, savedLogs := alerts, pings, logs;
      var failed := fault == Some(InsertAlert);
      var id := nextAlertId;
      InsertAlertKeepsTables(alerts, id, pings, Alert(hash, req.latitude, req.longitude, req.precisao, true, now, now),
        Ping(id, req.latitude, req.longitude, req.precisao, None, now));
      if !failed {
        alerts := alerts[id := Alert(hash, req.latitude, req.longitude, req.precisao, true, now, now)];
        nextAlertId := nextAlertId + 1;
        failed := fault == Some(InsertFirstPing);
      }
      if !failed {
        pings := pings + [Ping(id, req.latitude, req.longitude, req.precisao, None, now)];
        failed := fault == Some(SelectContacts);
      }
      var notified := ContactsToNotify(contacts, hash);
      if !failed {
        failed := fault == Some(InsertLog);
      }
      if !failed {
        logs := logs + [LogEntry("alerta", Some(hash), AlertActivated(id), Some(ip), None)];
        failed := fault == Some(CommitCreate);
      }
      assert fault.Some? ==> failed by {
        if fault.Some? {
          match fault.value
          case InsertAlert =>
          case InsertFirstPing =>
          case SelectContacts =>
          case InsertLog =>
          case CommitCreate =>
        }
      }
      if failed {
        RollBack(savedAlerts, savedPings, savedLogs);
        return Error(500, ProcessingError);
      }
      resp := Success(201, Created(id, |notified|, req.latitude.value, req.longitude.value));
    }

    /** POST ?acao=atualizar-localizacao. The handler opens no transaction:
        when the timestamp update fails, the ping it already inserted stays. */
    method AtualizarLocalizacao(req: LocationRequest, now: int, fault: Option<LocationStep>)
      returns (resp: Response<int>)
      requires Valid()
      modifies this`pings, this`alerts
      ensures Valid()
      ensures logs == old(logs) && nextAlertId == old(nextAlertId)
      ensures req.alertaId.None? || req.latitude.None? || req.longitude.None? ==>
        resp == Error(400, MissingData) && unchanged(this)
      ensures req.alertaId.Some? && req.latitude.Some? && req.longitude.Some? ==>
        var id := req.alertaId.value;
        var ping := Ping(id, req.latitude, req.longitude, req.precisao, Some(req.velocidade.GetOr(0.0)), now);
        && (fault == Some(SelectAlert) ==> resp == Error(500, ProcessingError) && unchanged(this))
        && (fault != Some(SelectAlert) && LocationGate(old(alerts), id) == UnknownAlert ==>
              resp == Error(404, NotFoundMessage) && unchanged(this))
        && (fault != Some(SelectAlert) && LocationGate(old(alerts), id) == CancelledAlert ==>
              resp == Error(400, AlreadyCancelledMessage) && unchanged(this))
        && (fault != Some(SelectAlert) && LocationGate(old(alerts), id) == Open ==>
              && (fault == Some(InsertPing) ==> resp == Error(500, ProcessingError) && unchanged(this))
              && (fault == Some(TouchAlert) ==>
                    resp == Error(500, ProcessingError) && pings == old(pings) + [ping] && alerts == old(alerts))
              && (fault.None? ==>
                    && resp == Success(200, id)
                    && pings == old(pings) + [ping]
                    && alerts == old(alerts)[id := old(alerts)[id].(updatedAt := now)]))
    {
      if req.alertaId.None? || req.latitude.None? || req.longitude.None? {
        return Error(400, MissingData);
      }
      var id := req.alertaId.value;
      if fault == Some(SelectAlert) {
        return Error(500, ProcessingError);
      }
      if id !in alerts {
        return Error(404, NotFoundMessage);
      }
      if !alerts[id].ativo {
        return Error(400, AlreadyCancelledMessage);
      }
      if fault == Some(InsertPing) {
        return Error(500, ProcessingError);
      }
      var velocidade := if req.velocidade.Some? then req.velocidade.value else 0.0;
      pings := pings + [Ping(id, req.latitude, req.longitude, req.precisao, Some(velocidade), now)];
      if fault == Some(TouchAlert) {
        return Error(500, ProcessingError);
      }
      alerts := alerts[id := alerts[id].(updatedAt := now)];
      resp := Success(200, id);
    }

    /** PUT ?acao=cancelar. */
    method Cancelar(alertaId: Option<int>, fault: Option<CancelStep>) returns (resp: Response<int>)
      requires Valid()
      modifies this`alerts
      ensures Valid()
      ensures alertaId.None? ==> resp == Error(400, MissingId) && alerts == old(alerts)
      ensures alertaId.Some? && fault.Some? ==> resp == Error(500, ProcessingError) && alerts == old(alerts)
      ensures alertaId.Some? && fault.None? ==>
        && alerts == CancelTable(old(alerts), alertaId.value)
        && resp == CancelReply(old(alerts), alertaId.value)
    {
      if alertaId.None? {
        return Error(400, MissingId);
      }
      if fault.Some? {
        return Error(500, ProcessingError);
      }
      var id := alertaId.value;
      var changed := CancelRowCount(alerts, id);
      alerts := CancelTable(alerts, id);
      if changed > 0 {
        resp := Success(200, id);
      } else {
        resp := Error(404, NotFoundMessage);
      }
    }

    /** GET: the active alerts for the admin panel. */
    function Listar(): (r: seq<ActiveAlert>)
      reads this
      requires Valid()
    {
      ActiveAlerts(alerts, nextAlertId, pings)
    }
  }
}
