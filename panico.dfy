/** backend/panico_api.php: the panic button's endpoint. POST raises an
    alert for an anonymous, daily-rotating user hash, with a first ping when
    the position is known; PUT appends a position to an alert that is still
    active. It shares the alert, ping and log tables with api/alertas.php. */
module Panico {
  import opened Common
  import opened AlertTables
  import Alertas

  // ---------------------------------------------------------------
  // Requests, replies and messages

  /** The `localizacao` object of a request body. */
  datatype Location = Location(
    latitude: Option<real>,
    longitude: Option<real>,
    accuracy: Option<real>,
    speed: Option<real>)

  /** The POST body: `tipo` and an optional `localizacao`. */
  datatype PanicRequest = PanicRequest(tipo: Option<string>, localizacao: Option<Location>)

  /** The PUT body. */
  datatype UpdateRequest = UpdateRequest(alertaId: Option<int>, localizacao: Option<Location>)

  datatype Links = Links(googleMaps: string, waze: string)

  datatype PanicCreated = PanicCreated(
    alertaId: int,
    usuarioHash: string,
    comLocalizacao: bool,
    links: Option<Links>)

  /** The statements of each handler that can throw. A failed log insert is
      not among them: the logging helper swallows its own errors. */
  datatype PostStep = InsertAlertRow | InsertFirstPing | CommitPost
  /** A fault at a step that the request actually reaches: the first ping
      is only inserted for a located panic. */
  predicate PostFaultFires(fault: Option<PostStep>, located: bool)
  {
    fault.Some? && (fault.value != InsertFirstPing || located)
  }

  datatype PutStep = SelectActive | InsertPing | UpdateAlertRow | CommitPut

  const PostErrorPrefix := "Erro ao registrar alerta: "
  const InvalidType := "Tipo de alerta inválido"
  const PutErrorPrefix := "Erro ao atualizar localização: "
  const Incomplete := "Dados incompletos para atualização"
  const NoLocation := "Localização não fornecida"
  const NotActive := "Alerta não encontrado ou já foi desativado"
  const MethodNotAllowed := "Método não permitido"

  datatype Action = Preflight | RaisePanic | UpdatePosition | RejectMethod

  /** OPTIONS answers 200 with no body; methods other than POST and PUT get
      405. */
  function Route(httpMethod: string): (a: Action)
    ensures a == Preflight <==> httpMethod == "OPTIONS"
    ensures a == RaisePanic <==> httpMethod == "POST"
    ensures a == UpdatePosition <==> httpMethod == "PUT"
    ensures a == RejectMethod <==> httpMethod !in {"OPTIONS", "POST", "PUT"}
  {
    if httpMethod == "OPTIONS" then Preflight
    else if httpMethod == "POST" then RaisePanic
    else if httpMethod == "PUT" then UpdatePosition
    else RejectMethod
  }

  // ---------------------------------------------------------------
  // The anonymous user hash

  /** The seed of the hash: the client address (empty when unknown), the
      user agent and the current date as Y-m-d, concatenated. `sha` stands
      for SHA-256 rendered in hexadecimal. */
  function HashSeed(ip: Option<string>, userAgent: string, day: string): string
  {
    ip.GetOr("") + userAgent + day
  }

  function GerarUsuarioHash(ip: Option<string>, userAgent: string, day: string, sha: string -> string): string
  {
    sha(HashSeed(ip, userAgent, day))
  }

  /** An unknown client address hashes like an empty one. */
  lemma MissingIpIsEmpty(userAgent: string, day: string, sha: string -> string)
    ensures GerarUsuarioHash(None, userAgent, day, sha) == GerarUsuarioHash(Some(""), userAgent, day, sha)
  {
  }

  /** The hash rotates daily: the same client gets different hashes on
      different days, for any injective digest. */
  lemma HashRotatesDaily(ip: Option<string>, userAgent: string, d1: string, d2: string, sha: string -> string)
    requires forall a, b :: sha(a) == sha(b) ==> a == b
    requires d1 != d2
    ensures GerarUsuarioHash(ip, userAgent, d1, sha) != GerarUsuarioHash(ip, userAgent, d2, sha)
  {
    var p := ip.GetOr("") + userAgent;
    assert HashSeed(ip, userAgent, d1) == p + d1;
    assert HashSeed(ip, userAgent, d2) == p + d2;
    assert (p + d1)[|p|..] == d1 && (p + d2)[|p|..] == d2;
  }

  /** The address and the user agent are joined without a separator, so
      two different clients can share one hash whatever the digest. */
  lemma SeedDoesNotSeparateFields(day: string, sha: string -> string)
    ensures GerarUsuarioHash(Some("10.0.0.1"), "1Mozilla", day, sha)
         == GerarUsuarioHash(Some("10.0.0.11"), "Mozilla", day, sha)
  {
    assert HashSeed(Some("10.0.0.1"), "1Mozilla", day) == HashSeed(Some("10.0.0.11"), "Mozilla", day);
  }

  // ---------------------------------------------------------------
  // Locations and map links

  /** PHP truthiness of a JSON number: present and not zero. */
  predicate Truthy(x: Option<real>)
  {
    x.Some? && x.value != 0.0
  }

  predicate HasPosition(loc: Option<Location>)
  {
    loc.Some? && Truthy(loc.value.latitude) && Truthy(loc.value.longitude)
  }

  function LatitudeOf(loc: Option<Location>): Option<real>
  {
    if loc.Some? then loc.value.latitude else None
  }

  function LongitudeOf(loc: Option<Location>): Option<real>
  {
    if loc.Some? then loc.value.longitude else None
  }

  function AccuracyOf(loc: Option<Location>): Option<real>
  {
    if loc.Some? then loc.value.accuracy else None
  }

  const GooglePrefix := "https://www.google.com/maps?q="
  const WazePrefix := "https://www.waze.com/ul?ll="
  const WazeSuffix := "&navigate=yes"

  /** The coordinates as both links carry them: "{lat},{lng}". */
  function Coordinates(lat: string, lng: string): string
  {
    lat + "," + lng
  }

  /** The links of the POST reply; `lat` and `lng` are the coordinates as
      PHP interpolates them into a string. */
  function MapLinks(lat: string, lng: string): Links
  {
    Links(GooglePrefix + Coordinates(lat, lng), WazePrefix + Coordinates(lat, lng) + WazeSuffix)
  }

  /** Splits `s` at its first comma. */
  function SplitAtComma(s: string): (r: Option<(string, string)>)
    ensures r.Some? ==> r.value.0 + "," + r.value.1 == s && ',' !in r.value.0
    ensures r.None? <==> ',' !in s
  {
    if s == [] then None
    else if s[0] == ',' then Some(([], s[1..]))
    else
      match SplitAtComma(s[1..])
      case None => None
      case Some(p) => Some(([s[0]] + p.0, p.1))
  }

  /** What `link` holds between `prefix` and `suffix`, if it has both. */
  function Between(link: string, prefix: string, suffix: string): (r: Option<string>)
    ensures r.Some? ==> prefix + r.value + suffix == link
  {
    var n := |link|;
    if n >= |prefix| + |suffix| && link[..|prefix|] == prefix && link[n - |suffix|..] == suffix
    then
      assert link == link[..|prefix|] + link[|prefix|..n - |suffix|] + link[n - |suffix|..];
      Some(link[|prefix|..n - |suffix|])
    else None
  }

  lemma BetweenOf(prefix: string, m: string, suffix: string)
    ensures Between(prefix + m + suffix, prefix, suffix) == Some(m)
  {
    var w := prefix + m + suffix;
    assert w[..|prefix|] == prefix;
    assert w[|w| - |suffix|..] == suffix;
    assert w[|prefix|..|w| - |suffix|] == m;
  }

  /** Reads the coordinates back out of a Google Maps link. */
  function ParseGoogleLink(link: string): Option<(string, string)>
  {
    match Between(link, GooglePrefix, "")
    case None => None
    case Some(c) => SplitAtComma(c)
  }

  /** Reads the coordinates back out of a Waze link. */
  function ParseWazeLink(link: string): Option<(string, string)>
  {
    match Between(link, WazePrefix, WazeSuffix)
    case None => None
    case Some(c) => SplitAtComma(c)
  }

  lemma {:induction false} SplitAtCommaOfJoin(a: string, b: string)
    requires ',' !in a
    ensures SplitAtComma(a + "," + b) == Some((a, b))
  {
    if a != [] {
      var s := a + "," + b;
      assert s[0] == a[0] && a[0] != ',';
      assert s[1..] == a[1..] + "," + b;
      SplitAtCommaOfJoin(a[1..], b);
      assert [a[0]] + a[1..] == a;
    } else {
      assert (a + "," + b)[1..] == b;
    }
  }

  /** Both links carry the coordinates they were built from: a latitude
      rendered without a comma is read back exactly, together with the
      longitude. */
  lemma MapLinksRoundTrip(lat: string, lng: string)
    requires ',' !in lat
    ensures ParseGoogleLink(MapLinks(lat, lng).googleMaps) == Some((lat, lng))
    ensures ParseWazeLink(MapLinks(lat, lng).waze) == Some((lat, lng))
  {
    var c := Coordinates(lat, lng);
    BetweenOf(GooglePrefix, c, "");
    assert GooglePrefix + c + "" == MapLinks(lat, lng).googleMaps;
    BetweenOf(WazePrefix, c, WazeSuffix);
    SplitAtCommaOfJoin(lat, lng);
  }

  // ---------------------------------------------------------------
  // The PUT preconditions as a function of the alert table

  /** Why a PUT is refused before it writes anything, or None when it goes
      ahead. */
  function PutRejection(alerts: map<int, Alert>, req: UpdateRequest): (r: Option<string>)
    ensures r.None? <==>
      && req.alertaId.Some? && HasPosition(req.localizacao)
      && req.alertaId.value in alerts && alerts[req.alertaId.value].ativo
    ensures r.Some? ==> r.value in {Incomplete, NoLocation, NotActive}
  {
    if req.alertaId.None? || req.localizacao.None? then Some(Incomplete)
    else if !HasPosition(req.localizacao) then Some(NoLocation)
    else if Alertas.LocationGate(alerts, req.alertaId.value) != Alertas.Open then Some(NotActive)
    else None
  }

  /** An alert cancelled through the public endpoint no longer accepts
      positions from the panic endpoint. */
  lemma CancelledAlertRefusesPositions(alerts: map<int, Alert>, id: int, loc: Location)
    ensures PutRejection(Alertas.CancelTable(alerts, id), UpdateRequest(Some(id), Some(loc))).Some?
  {
  }

  // ---------------------------------------------------------------
  // The endpoint over its tables

  class PanicoApi {
    var alerts: map<int, Alert>
    var nextAlertId: int
    var pings: seq<Ping>
    var logs: seq<LogEntry>

    ghost predicate Valid()
      reads this
    {
      && nextAlertId >= 1
      && IdsBelow(alerts, nextAlertId)
      && PingsReferenceAlerts(pings, alerts)
    }

    constructor ()
      ensures Valid()
      ensures alerts == map[] && pings == [] && logs == []
    {
      alerts, nextAlertId, pings, logs := map[], 1, [], [];
    }

    /** Restores the rows a transaction had written; the auto-increment
        counter is not given back. */
    method RollBack(savedAlerts: map<int, Alert>, savedPings: seq<Ping>, savedLogs: seq<LogEntry>)
      requires IdsBelow(savedAlerts, nextAlertId) && nextAlertId >= 1
      requires PingsReferenceAlerts(savedPings, savedAlerts)
      modifies this
      ensures Valid()
      ensures alerts == savedAlerts && pings == savedPings && logs == savedLogs
      ensures nextAlertId == old(nextAlertId)
    {
      alerts, pings, logs := savedAlerts, savedPings, savedLogs;
    }

    /** POST. `ip` and `userAgent` come from the request, `day` and `now`
        from the clock; `render` writes a coordinate as PHP interpolates it;
        `logFails` makes the swallowed log insert fail. */
    method RaisePanic(req: PanicRequest, ip: Option<string>, userAgent: Option<string>,
                      day: string, now: int, sha: string -> string, render: real -> string,
                      fault: Option<PostStep>, logFails: bool)
      returns (resp: Response<PanicCreated>)
      requires Valid()
      modifies this
      ensures Valid()
      ensures req.tipo != Some("panico") ==>
        resp == Error(500, PostErrorPrefix + InvalidType) && unchanged(this)
      ensures req.tipo == Some("panico") && PostFaultFires(fault, HasPosition(req.localizacao)) ==>
        resp.Error? && resp.code == 500
        && alerts == old(alerts) && pings == old(pings) && logs == old(logs)
      ensures req.tipo == Some("panico") && !PostFaultFires(fault, HasPosition(req.localizacao)) ==>
        var id := old(nextAlertId);
        var hash := GerarUsuarioHash(ip, userAgent.GetOr(""), day, sha);
        var loc := req.localizacao;
        var located := HasPosition(loc);
        && id !in old(alerts)
        && nextAlertId == id + 1
        && alerts == old(alerts)[id := Alert(hash, LatitudeOf(loc), LongitudeOf(loc), AccuracyOf(loc), true, now, now)]
        && pings == old(pings) + (if located then [Ping(id, LatitudeOf(loc), LongitudeOf(loc), AccuracyOf(loc), None, now)] else [])
        && logs == old(logs) + (if logFails then [] else
             [LogEntry("alerta", Some(hash), PanicRaised(id, Truthy(LatitudeOf(loc))), ip, userAgent)])
        && resp == Success(200, PanicCreated(id, hash, located,
             if located then Some(MapLinks(render(LatitudeOf(loc).value), render(LongitudeOf(loc).value))) else None))
    {
      if req.tipo != Some("panico") {
        return Error(500, PostErrorPrefix + InvalidType);
      }
      var hash := GerarUsuarioHash(ip, userAgent.GetOr(""), day, sha);
      var loc := req.localizacao;
      var latitude, longitude, precisao := LatitudeOf(loc), LongitudeOf(loc), AccuracyOf(loc);
      // beginTransaction
      var savedAlerts, savedPings, savedLogs := alerts, pings, logs;
      var failed := fault == Some(InsertAlertRow);
      var id := nextAlertId;
      if !failed {
        alerts := alerts[id := Alert(hash, latitude, longitude, precisao, true, now, now)];
        nextAlertId := nextAlertId + 1;
      }
      var located := Truthy(latitude) && Truthy(longitude);
      if !failed && located {
        failed := fault == Some(InsertFirstPing);
      }
      if !failed {
        if located {
          pings := pings + [Ping(id, latitude, longitude, precisao, None, now)];
        }
        if !logFails {
          logs := logs + [LogEntry("alerta", Some(hash), PanicRaised(id, Truthy(latitude)), ip, userAgent)];
        }
        failed := fault == Some(CommitPost);
      }
      assert PostFaultFires(fault, located) ==> failed by {
        if fault.Some? {
          match fault.value
          case InsertAlertRow =>
          case InsertFirstPing =>
          case CommitPost =>
        }
      }
      if failed {
        RollBack(savedAlerts, savedPings, savedLogs);
        return Error(500, PostErrorPrefix);
      }
      var links := if located then Some(MapLinks(render(latitude.value), render(longitude.value))) else None;
      resp := Success(200, PanicCreated(id, hash, located, links));
    }

    /** PUT. Every refusal, validation or storage, is a 500. */
    method UpdatePosition(req: UpdateRequest, ip: Option<string>, userAgent: Option<string>, now: int,
                          fault: Option<PutStep>, logFails: bool)
      returns (resp: Response<int>)
      requires Valid()
      modifies this
      ensures Valid()
      ensures nextAlertId == old(nextAlertId)
      ensures PutRejection(old(alerts), req).Some? ==>
        && resp.Error? && resp.code == 500
        && alerts == old(alerts) && pings == old(pings) && logs == old(logs)
        && (fault != Some(SelectActive) || PutRejection(old(alerts), req) != Some(NotActive) ==>
              resp == Error(500, PutErrorPrefix + PutRejection(old(alerts), req).value))
      ensures PutRejection(old(alerts), req).None? && fault.Some? ==>
        resp.Error? && resp.code == 500
        && alerts == old(alerts) && pings == old(pings) && logs == old(logs)
      ensures PutRejection(old(alerts), req).None? && fault.None? ==>
        var id := req.alertaId.value;
        var loc := req.localizacao.value;
        var row := old(alerts)[id];
        && resp == Success(200, id)
        && pings == old(pings) + [Ping(id, loc.latitude, loc.longitude, loc.accuracy, loc.speed, now)]
        && alerts == old(alerts)[id := row.(latitude := loc.latitude, longitude := loc.longitude,
                                             precisao := loc.accuracy, updatedAt := now)]
        && logs == old(logs) + (if logFails then [] else
             [LogEntry("alerta", Some(row.usuarioHash), LocationRecorded(id), ip, userAgent)])
    {
      if req.alertaId.None? || req.localizacao.None? {
        return Error(500, PutErrorPrefix + Incomplete);
      }
      var id := req.alertaId.value;
      var loc := req.localizacao.value;
      if !Truthy(loc.latitude) || !Truthy(loc.longitude) {
        return Error(500, PutErrorPrefix + NoLocation);
      }
      if fault == Some(SelectActive) {
        return Error(500, PutErrorPrefix);
      }
      if id !in alerts || !alerts[id].ativo {
        return Error(500, PutErrorPrefix + NotActive);
      }
      var row := alerts[id];
      assert PutRejection(old(alerts), req).None?;
      // beginTransaction
      var savedAlerts, savedPings, savedLogs := alerts, pings, logs;
      var failed := fault == Some(InsertPing);
      if !failed {
        pings := pings + [Ping(id, loc.latitude, loc.longitude, loc.accuracy, loc.speed, now)];
        failed := fault == Some(UpdateAlertRow);
      }
      if !failed {
        alerts := alerts[id := row.(latitude := loc.latitude, longitude := loc.longitude,
                                    precisao := loc.accuracy, updatedAt := now)];
        if !logFails {
          logs := logs + [LogEntry("alerta", Some(row.usuarioHash), LocationRecorded(id), ip, userAgent)];
        }
        failed := fault == Some(CommitPut);
      }
      assert fault.Some? ==> failed by {
        if fault.Some? {
          match fault.value
          case SelectActive =>
          case InsertPing =>
          case UpdateAlertRow =>
          case CommitPut =>
        }
      }
      if failed {
        RollBack(savedAlerts, savedPings, savedLogs);
        return Error(500, PutErrorPrefix);
      }
      resp := Success(200, id);
    }
  }
}
