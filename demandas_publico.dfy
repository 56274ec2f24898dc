/** api/demandas.php: the public help-request form. POST stores one demand,
    one link row per violence type and a log line in a single transaction,
    and answers with a zero-padded protocol number; GET lists the latest
    demands, optionally filtered by status and urgency. */
module DemandasPublico {
  import opened Common
  import opened Sorting
  import opened Text

  // ---------------------------------------------------------------
  // JSON scalars and PHP's conversions of them

  /** A scalar of the decoded JSON body. */
  datatype JsonValue = JNull | JBool(b: bool) | JInt(i: int) | JReal(r: real) | JStr(s: string)

  /** PHP truthiness: null, false, 0, 0.0, "" and "0" are false. */
  predicate Truthy(v: JsonValue)
  {
    match v
    case JNull => false
    case JBool(b) => b
    case JInt(i) => i != 0
    case JReal(r) => r != 0.0
    case JStr(s) => !PhpEmpty(s)
  }

  /** PHP's intval of a JSON scalar. A float is truncated toward zero; a
      string is read as a decimal numeral held to the integer range. */
  function IntVal(v: JsonValue): int
  {
    match v
    case JNull => 0
    case JBool(b) => if b then 1 else 0
    case JInt(i) => i
    case JReal(r) => if r >= 0.0 then r.Floor else -((-r).Floor)
    case JStr(s) => PhpIntVal(s)
  }

  // ---------------------------------------------------------------
  // Requests, rows and replies

  /** `tipos_violencia` as decoded: absent or null, some other value, or a
      JSON array. */
  datatype TiposField = Absent | NotArray | Array(items: seq<JsonValue>)

  /** The POST body; each field is None when absent or null. */
  datatype IntakeRequest = IntakeRequest(
    municipioId: Option<int>,
    nome: Option<string>,
    telefone: Option<string>,
    email: Option<string>,
    faixaEtaria: Option<string>,
    situacaoMoradia: Option<string>,
    descricao: Option<string>,
    nivelUrgencia: Option<string>,
    perigoIminente: Option<JsonValue>,
    criancasEnvolvidas: Option<JsonValue>,
    idososEnvolvidos: Option<JsonValue>,
    anonimo: Option<JsonValue>,
    tiposViolencia: TiposField)

  /** One `demandas` row as this endpoint writes it. A flag bound as a
      boolean is stored as the value's truthiness, NULL when absent.
      `status` is the column's default on insert. */
  datatype Intake = Intake(
    municipioId: Option<int>,
    nome: Option<string>,
    telefone: Option<string>,
    email: Option<string>,
    faixaEtaria: Option<string>,
    situacaoMoradia: Option<string>,
    descricao: Option<string>,
    nivelUrgencia: string,
    perigoIminente: Option<bool>,
    criancasEnvolvidas: Option<bool>,
    idososEnvolvidos: Option<bool>,
    anonimo: Option<bool>,
    ipOrigem: string,
    status: string,
    createdAt: int)

  /** One `demandas_tipos_violencia` row. */
  datatype TypeLink = TypeLink(demandaId: int, tipoViolenciaId: int)

  /** One `logs_sistema` row written by this endpoint. */
  datatype LogRow = LogRow(tipo: string, descricao: string, ipOrigem: string)

  datatype Created = Created(demandaId: int, protocolo: string)

  type Listed = Keyed<Intake>

  /** The statements of the POST transaction that can throw; the exception
      message is part of the 500 reply. */
  datatype IntakeStep = InsertDemand | InsertLink(index: nat) | InsertLog | CommitIntake
  datatype IntakeFault = IntakeFault(step: IntakeStep, message: string)

  const MissingUrgency := "Nível de urgência é obrigatório"
  const ProcessingPrefix := "Erro ao processar demanda: "
  const ListLimit: nat := 100
  const ProtocolPrefix := "JG-"
  const ProtocolWidth: nat := 6

  // ---------------------------------------------------------------
  // Pure parts of POST

  /** The client address: X-Forwarded-For when that header is present,
      REMOTE_ADDR otherwise. */
  function IpOrigem(remoteAddr: string, forwardedFor: Option<string>): (ip: string)
    ensures forwardedFor.Some? ==> ip == forwardedFor.value
    ensures forwardedFor.None? ==> ip == remoteAddr
  {
    if forwardedFor.Some? then forwardedFor.value else remoteAddr
  }

  /** The protocol number: "JG-" and the id left-padded with zeros to six
      digits. */
  function Protocolo(id: nat): string
  {
    ProtocolPrefix + PadLeft(NatToString(id), ProtocolWidth, '0')
  }

  /** A protocol is "JG-" and at least six digits that read back as the id;
      ids of six digits or more appear unpadded. */
  lemma ProtocoloRoundTrip(id: nat)
    ensures var p := Protocolo(id);
      && |p| >= 9 && p[..3] == "JG-" && AllDigits(p[3..])
      && DigitsValue(p[3..]) == id
      && (id >= 100000 ==> p == "JG-" + NatToString(id))
  {
    var s := NatToString(id);
    var padded := PadLeft(s, ProtocolWidth, '0');
    var z := |padded| - |s|;
    assert padded == seq(z, _ => '0') + s;
    LeadingZerosValue(z, s);
    NatToStringRoundTrip(id);
    var p := Protocolo(id);
    assert p[3..] == padded;
    if id >= 100000 {
      NumeralLength(id);
    }
  }

  /** A number of six digits or more is written with at least six digits. */
  lemma {:induction false} NumeralLength(n: nat)
    ensures n >= 100000 ==> |NatToString(n)| >= 6
    ensures n >= 10 ==> |NatToString(n)| >= 2
  {
    if n >= 10 {
      NumeralLength(n / 10);
      if n >= 100000 {
        assert n / 10 >= 10000;
        NumeralLengthFive(n / 10);
      }
    }
  }

  lemma {:induction false} NumeralLengthFive(n: nat)
    requires n >= 10000
    ensures |NatToString(n)| >= 5
  {
    assert |NatToString(n / 10)| >= 4 by {
      assert |NatToString(n / 1000)| >= 2 by { NumeralLength(n / 1000); }
      assert NatToString(n / 100) == NatToString(n / 100 / 10) + [DigitChar(n / 100 % 10)];
      assert n / 100 / 10 == n / 1000;
      assert NatToString(n / 10) == NatToString(n / 10 / 10) + [DigitChar(n / 10 % 10)];
      assert n / 10 / 10 == n / 100;
    }
  }

  /** The urgent branch runs exactly when the urgency is "alto" or the
      imminent-danger flag is truthy. */
  predicate IsUrgent(req: IntakeRequest)
  {
    req.nivelUrgencia == Some("alto") || (req.perigoIminente.Some? && Truthy(req.perigoIminente.value))
  }

  function BoolColumn(v: Option<JsonValue>): Option<bool>
  {
    if v.Some? then Some(Truthy(v.value)) else None
  }

  /** The elements the link loop runs over: none unless the field is an
      array. */
  function TypeItems(t: TiposField): seq<JsonValue>
  {
    if t.Array? then t.items else []
  }

  /** The link rows a successful POST inserts for demand `id`. */
  function TypeLinks(id: int, items: seq<JsonValue>): (r: seq<TypeLink>)
    ensures |r| == |items|
    ensures forall i :: 0 <= i < |r| ==> r[i] == TypeLink(id, IntVal(items[i]))
  {
    seq(|items|, i requires 0 <= i < |items| => TypeLink(id, IntVal(items[i])))
  }

  /** Every link belongs to the new demand, one per array element in order,
      and nothing is linked when the field is absent or not an array. */
  lemma TypeLinksShape(id: int, t: TiposField)
    ensures forall l :: l in TypeLinks(id, TypeItems(t)) ==> l.demandaId == id
    ensures t.Array? ==> |TypeLinks(id, TypeItems(t))| == |t.items|
    ensures !t.Array? || t.items == [] ==> TypeLinks(id, TypeItems(t)) == []
    ensures TypeLinks(id, TypeItems(t)) == [] ==> !t.Array? || t.items == []
  {
  }

  /** Links extend one element at a time, as the loop inserts them. */
  lemma TypeLinksSnoc(id: int, items: seq<JsonValue>, i: nat)
    requires i < |items|
    ensures TypeLinks(id, items[..i + 1]) == TypeLinks(id, items[..i]) + [TypeLink(id, IntVal(items[i]))]
  {
    var a := TypeLinks(id, items[..i + 1]);
    var b := TypeLinks(id, items[..i]) + [TypeLink(id, IntVal(items[i]))];
    assert |a| == |b|;
    forall k | 0 <= k < |a| ensures a[k] == b[k] {
      assert items[..i + 1][k] == items[k];
    }
  }

  function NewIntake(req: IntakeRequest, ip: string, status: string, now: int): Intake
    requires req.nivelUrgencia.Some?
  {
    Intake(req.municipioId, req.nome, req.telefone, req.email, req.faixaEtaria, req.situacaoMoradia,
           req.descricao, req.nivelUrgencia.value, BoolColumn(req.perigoIminente),
           BoolColumn(req.criancasEnvolvidas), BoolColumn(req.idososEnvolvidos), BoolColumn(req.anonimo),
           ip, status, now)
  }

  function IntakeLog(id: nat, nivel: string, ip: string): LogRow
  {
    LogRow("demanda", "Nova demanda criada - ID: " + NatToString(id) + " - Urgência: " + nivel, ip)
  }

  // ---------------------------------------------------------------
  // GET

  /** A query-string filter applies only when it is truthy. */
  predicate MatchesFilters(status: Option<string>, urgencia: Option<string>, d: Intake)
  {
    && (status.Some? && !PhpEmpty(status.value) ==> d.status == status.value)
    && (urgencia.Some? && !PhpEmpty(urgencia.value) ==> d.nivelUrgencia == urgencia.value)
  }

  function NewestFirst(): (Listed, Listed) -> bool
  {
    (a: Listed, b: Listed) => a.row.createdAt >= b.row.createdAt
  }

  lemma NewestFirstIsPreorder()
    ensures TotalPreorder(NewestFirst())
  {
  }

  /** The rows the filters accept, each with its key. */
  function Accepted(m: map<int, Intake>, next: int, status: Option<string>, urgencia: Option<string>): seq<Listed>
    requires IdsBelow(m, next)
  {
    Filter(AsListed(m, KeysBelow(m, next)), (l: Listed) => MatchesFilters(status, urgencia, l.row))
  }

  /** GET: the accepted rows, newest first, at most 100 of them. */
  function ListIntakes(m: map<int, Intake>, next: int, status: Option<string>, urgencia: Option<string>): seq<Listed>
    requires IdsBelow(m, next)
  {
    Newest(Accepted(m, next, status, urgencia))
  }

  /** ORDER BY created_at DESC LIMIT 100. */
  function Newest(rows: seq<Listed>): seq<Listed>
  {
    NewestFirstIsPreorder();
    Take(SortBy(rows, NewestFirst()), ListLimit)
  }

  lemma AcceptedMembers(m: map<int, Intake>, next: int, status: Option<string>, urgencia: Option<string>)
    requires IdsBelow(m, next)
    ensures forall l :: l in Accepted(m, next, status, urgencia) <==>
      l.id in m && l.row == m[l.id] && MatchesFilters(status, urgencia, l.row)
  {
    KeysBelowComplete(m, next);
    AsListedMembers(m, KeysBelow(m, next));
  }

  /** Every listed row is a stored demand that passes the filters; the list
      is newest first and holds at most 100 rows. */
  lemma ListIntakesSound(m: map<int, Intake>, next: int, status: Option<string>, urgencia: Option<string>)
    requires IdsBelow(m, next)
    ensures var r := ListIntakes(m, next, status, urgencia);
      && |r| <= ListLimit
      && (forall l :: l in r ==> l.id in m && l.row == m[l.id] && MatchesFilters(status, urgencia, l.row))
      && (forall i, j :: 0 <= i < j < |r| ==> r[i].row.createdAt >= r[j].row.createdAt)
  {
    AcceptedMembers(m, next, status, urgencia);
    NewestSound(Accepted(m, next, status, urgencia));
  }

  /** No accepted demand is left out unless the list is full, and a demand
      left out is no newer than any listed one. */
  lemma ListIntakesKeepsNewest(m: map<int, Intake>, next: int, status: Option<string>, urgencia: Option<string>)
    requires IdsBelow(m, next)
    ensures var r := ListIntakes(m, next, status, urgencia);
      forall l: Listed :: l.id in m && l.row == m[l.id] && MatchesFilters(status, urgencia, l.row) && l !in r ==>
        && |r| == ListLimit
        && forall x :: x in r ==> x.row.createdAt >= l.row.createdAt
  {
    AcceptedMembers(m, next, status, urgencia);
    NewestLeftOut(Accepted(m, next, status, urgencia));
  }

  /** The newest 100 of any rows are drawn from them, newest first. */
  lemma NewestSound(acc: seq<Listed>)
    ensures var r := Newest(acc);
      && |r| <= ListLimit
      && (forall l :: l in r ==> l in acc)
      && (forall i, j :: 0 <= i < j < |r| ==> r[i].row.createdAt >= r[j].row.createdAt)
  {
    var le := NewestFirst();
    NewestFirstIsPreorder();
    TakeSortedMembers(acc, le, ListLimit);
    TakeSortedKeepsSmallest(acc, le, ListLimit);
    var r := Take(SortBy(acc, le), ListLimit);
    forall i, j | 0 <= i < j < |r| ensures r[i].row.createdAt >= r[j].row.createdAt {
      assert le(r[i], r[j]);
    }
  }

  /** A row is left out of the newest 100 only when the list is full, and
      then it is no newer than any row kept. */
  lemma NewestLeftOut(acc: seq<Listed>)
    ensures var r := Newest(acc);
      forall l :: l in acc && l !in r ==> |r| == ListLimit && forall x :: x in r ==> x.row.createdAt >= l.row.createdAt
  {
    var le := NewestFirst();
    NewestFirstIsPreorder();
    TakeSortedLeftOut(acc, le, ListLimit);
    var r := Take(SortBy(acc, le), ListLimit);
    forall l, x | l in acc && l !in r && x in r ensures x.row.createdAt >= l.row.createdAt {
      assert le(x, l);
    }
  }

  // ---------------------------------------------------------------
  // The endpoint over its tables

  class DemandasPublicoApi {
    var demandas: map<int, Intake>
    var nextId: int
    var links: seq<TypeLink>
    var logs: seq<LogRow>
    /** The default of `demandas.status`, which the insert does not set. */
    const defaultStatus: string

    ghost predicate Valid()
      reads this
    {
      nextId >= 1 && IdsBelow(demandas, nextId)
    }

    constructor (defaultStatus: string)
      ensures Valid() && demandas == map[] && nextId == 1 && links == [] && logs == []
      ensures this.defaultStatus == defaultStatus
    {
      this.defaultStatus := defaultStatus;
      demandas, nextId, links, logs := map[], 1, [], [];
    }

    /** GET. */
    function Listar(status: Option<string>, urgencia: Option<string>): seq<Listed>
      reads this
      requires Valid()
    {
      ListIntakes(demandas, nextId, status, urgencia)
    }

    /** POST. `body` is None when the input is not a JSON object. The
        returned flag says whether the urgent branch ran. */
    method Criar(body: Option<IntakeRequest>, remoteAddr: string, forwardedFor: Option<string>,
                 now: int, fault: Option<IntakeFault>)
      returns (resp: Response<Created>, urgent: bool)
      requires Valid()
      requires fault.Some? && fault.value.step.InsertLink? ==>
        body.Some? && fault.value.step.index < |TypeItems(body.value.tiposViolencia)|
      modifies this`demandas, this`nextId, this`links, this`logs
      ensures Valid()
      ensures body.None? || body.value.nivelUrgencia.None? ==>
        resp == Error(400, MissingUrgency) && !urgent
        && demandas == old(demandas) && links == old(links) && logs == old(logs) && nextId == old(nextId)
      ensures body.Some? && body.value.nivelUrgencia.Some? && fault.Some? ==>
        resp == Error(500, ProcessingPrefix + fault.value.message) && !urgent
        && demandas == old(demandas) && links == old(links) && logs == old(logs)
      ensures body.Some? && body.value.nivelUrgencia.Some? && fault.None? ==>
        var req := body.value;
        var id := old(nextId);
        var ip := IpOrigem(remoteAddr, forwardedFor);
        && id !in old(demandas)
        && demandas == old(demandas)[id := NewIntake(req, ip, defaultStatus, now)]
        && nextId == id + 1
        && links == old(links) + TypeLinks(id, TypeItems(req.tiposViolencia))
        && logs == old(logs) + [IntakeLog(id, req.nivelUrgencia.value, ip)]
        && resp == Success(201, Created(id, Protocolo(id)))
        && (urgent <==> IsUrgent(req))
    {
      urgent := false;
      if body.None? || body.value.nivelUrgencia.None? {
        return Error(400, MissingUrgency), false;
      }
      var req := body.value;
      // beginTransaction: what a rollback restores
      var savedDemandas, savedLinks, savedLogs := demandas, links, logs;
      var ip := IpOrigem(remoteAddr, forwardedFor);
      var failed := fault.Some? && fault.value.step == InsertDemand;
      var id := nextId;
      if !failed {
        demandas := demandas[id := NewIntake(req, ip, defaultStatus, now)];
        nextId := nextId + 1;
      }
      var items := TypeItems(req.tiposViolencia);
      var i := 0;
      while i < |items| && !failed
        invariant 0 <= i <= |items|
        invariant nextId >= id && IdsBelow(demandas, nextId) && IdsBelow(savedDemandas, nextId)
        invariant !failed ==> demandas == savedDemandas[id := NewIntake(req, ip, defaultStatus, now)] && nextId == id + 1
        invariant !failed ==> links == savedLinks + TypeLinks(id, items[..i])
        invariant logs == savedLogs
        invariant !failed ==> fault.None? || fault.value.step != InsertDemand
        invariant !failed && fault.Some? && fault.value.step.InsertLink? ==> fault.value.step.index >= i
        invariant failed ==> fault.Some? && (fault.value.step == InsertDemand || fault.value.step.InsertLink?)
        decreases |items| - i
      {
        failed := fault.Some? && fault.value.step == InsertLink(i);
        if !failed {
          links := links + [TypeLink(id, IntVal(items[i]))];
          TypeLinksSnoc(id, items, i);
        }
        i := i + 1;
      }
      if !failed {
        assert items[..i] == items;
        failed := fault.Some? && fault.value.step == InsertLog;
      }
      if !failed {
        logs := logs + [IntakeLog(id, req.nivelUrgencia.value, ip)];
        failed := fault.Some? && fault.value.step == CommitIntake;
      }
      assert fault.Some? ==> failed by {
        if fault.Some? && !failed {
          match fault.value.step
          case InsertDemand =>
          case InsertLink(k) =>
          case InsertLog =>
          case CommitIntake =>
        }
      }
      if failed {
        demandas, links, logs := savedDemandas, savedLinks, savedLogs;
        return Error(500, ProcessingPrefix + fault.value.message), false;
      }
      urgent := IsUrgent(req);
      resp := Success(201, Created(id, Protocolo(id)));
    }
  }
}
