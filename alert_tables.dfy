/** The rows of the tables both panic-alert endpoints work on:
    alertas_socorro (alerts), alertas_localizacoes (location pings),
    contatos_emergencia (emergency contacts, read only) and logs_sistema
    (audit log, append only). */
module AlertTables {
  import opened Common
  import opened Sorting

  /** One alertas_socorro row. `ativo` is the lifecycle state: true while the
      alert is active, false once it has been cancelled. */
  datatype Alert = Alert(
    usuarioHash: string,
    latitude: Option<real>,
    longitude: Option<real>,
    precisao: Option<real>,
    ativo: bool,
    createdAt: int,
    updatedAt: int)

  /** One alertas_localizacoes row: a position sample of one alert. */
  datatype Ping = Ping(
    alertaId: int,
    latitude: Option<real>,
    longitude: Option<real>,
    precisao: Option<real>,
    velocidade: Option<real>,
    createdAt: int)

  /** One contatos_emergencia row. */
  datatype Contact = Contact(usuarioHash: string, nome: string, ordem: int, ativo: bool)

  /** What a logs_sistema row written by the alert endpoints records; the
      human-readable description is rendered from this. */
  datatype LogEvent =
    | AlertActivated(alertaId: int)
    | PanicRaised(alertaId: int, withLocation: bool)
    | LocationRecorded(alertaId: int)

  datatype LogEntry = LogEntry(
    tipo: string,
    usuarioHash: Option<string>,
    event: LogEvent,
    ip: Option<string>,
    userAgent: Option<string>)

  /** Foreign key: every ping belongs to an alert that exists. */
  ghost predicate PingsReferenceAlerts(pings: seq<Ping>, alerts: map<int, Alert>)
  {
    forall i :: 0 <= i < |pings| ==> pings[i].alertaId in alerts
  }

  function ForAlert(id: int): Ping -> bool
  {
    (p: Ping) => p.alertaId == id
  }

  function IsActiveContactOf(hash: string): Contact -> bool
  {
    (c: Contact) => c.usuarioHash == hash && c.ativo
  }

  /** The contacts an alert of `hash` notifies: the active contacts with that
      hash, by ascending `ordem`. */
  function ContactsToNotify(contacts: seq<Contact>, hash: string): (r: seq<Contact>)
    ensures |r| == Count(contacts, IsActiveContactOf(hash))
    ensures forall c :: c in r <==> c in contacts && c.usuarioHash == hash && c.ativo
    ensures forall i, j :: 0 <= i < j < |r| ==> r[i].ordem <= r[j].ordem
  {
    var byOrdem := (a: Contact, b: Contact) => a.ordem <= b.ordem;
    var matching := Filter(contacts, IsActiveContactOf(hash));
    var r := SortBy(matching, byOrdem);
    forall c ensures c in r <==> c in matching {
      SortByMembers(matching, byOrdem, c);
    }
    r
  }

  /** The ping of alert `id` with the newest `created_at`, if any
      (ORDER BY created_at DESC LIMIT 1); of pings with the same time, the
      one stored last. */
  function NewestPingOf(pings: seq<Ping>, id: int): (r: Option<Ping>)
    ensures r.None? <==> Count(pings, ForAlert(id)) == 0
    ensures r.Some? ==> r.value in pings && r.value.alertaId == id
    ensures r.Some? ==> forall p :: p in pings && p.alertaId == id ==> p.createdAt <= r.value.createdAt
  {
    if pings == [] then None
    else
      var init, p := pings[..|pings| - 1], pings[|pings| - 1];
      assert pings == init + [p];
      var rest := NewestPingOf(init, id);
      if p.alertaId == id && (rest.None? || rest.value.createdAt <= p.createdAt) then Some(p)
      else rest
  }
}
