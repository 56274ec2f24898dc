/** backend/login.php: login, logout and session check for the back-office
    API. Every reply is HTTP 200 with a `sucesso` flag; a session that is
    checked stays alive for two hours after its last check. */
module BackendLogin {
  import opened Common
  import opened Text
  import opened Admins

  // ---------------------------------------------------------------
  // Requests, replies, log rows and messages

  /** The decoded JSON body: undecodable, or an object with the two keys
      that may each be missing. */
  datatype LoginBody = InvalidJson | Body(usuario: Option<string>, senha: Option<string>)

  /** An `administradores` row as replied: every column but `senha`. */
  datatype AdminView = AdminView(id: int, usuario: string, nome: string, email: string, ativo: int)

  /** The keys a reply adds to `sucesso` and `mensagem`. In `SessionData`,
      `expirada` false stands for the key being absent. */
  datatype ReplyData =
    | NoData
    | LoginData(admin: AdminView)
    | SessionData(logado: bool, expirada: bool, record: Option<AdminView>)

  datatype AuthReply = AuthReply(sucesso: bool, mensagem: string, data: ReplyData)

  /** A `logs_sistema` row; the client address and user agent are left out. */
  datatype AuthLog = AuthLog(adminId: Option<int>, acao: string, modulo: string, descricao: string)

  const InvalidJsonMsg := "JSON inválido"
  const MissingCredentials := "Usuário e senha são obrigatórios"
  const BadCredentials := "Usuário ou senha incorretos"
  const InactiveUser := "Usuário inativo"
  const LoginError := "Erro ao processar login"
  const LoginOk := "Login realizado com sucesso"
  const LogoutOk := "Logout realizado com sucesso"
  const NoSession := "Não há sessão ativa"
  const SessionExpired := "Sessão expirada"
  const UserDisabled := "Usuário desativado"
  const UserNotFound := "Usuário não encontrado"
  const SessionActive := "Sessão ativa"
  const CheckError := "Erro ao verificar sessão"
  const NoDatabaseMsg := "Erro ao conectar com banco de dados"
  const InvalidActionMsg := "Ação inválida"

  /** Two hours of inactivity, in seconds. */
  const MaxIdle := 2 * 60 * 60

  function View(a: Admin): AdminView
  {
    AdminView(a.id, a.usuario, a.nome, a.email, a.ativo)
  }

  // ---------------------------------------------------------------
  // The login decision

  /** The login name as compared: the trimmed `usuario`, "" when absent. */
  function UsuarioOf(body: LoginBody): string
    requires body.Body?
  {
    Trim(body.usuario.GetOr(""))
  }

  /** The password as compared: `senha` untrimmed, "" when absent. */
  function SenhaOf(body: LoginBody): string
    requires body.Body?
  {
    body.senha.GetOr("")
  }

  predicate MissingFields(body: LoginBody)
    requires body.Body?
  {
    PhpEmpty(UsuarioOf(body)) || PhpEmpty(SenhaOf(body))
  }

  /** How a login request ends, before any storage fault. */
  datatype Verdict =
    | BadJson
    | Incomplete
    | UnknownUser
    | Inactive(admin: Admin)
    | WrongPassword(admin: Admin)
    | Accepted(admin: Admin)

  /** The checks of the login handler in their order: the body, the two
      fields, the row with that login name, its active flag, and only then
      the password. `verify` stands for password_verify(). */
  function Decide(body: LoginBody, admins: seq<Admin>, verify: (string, string) -> bool): (v: Verdict)
    ensures v == BadJson <==> body.InvalidJson?
    ensures v == Incomplete <==> body.Body? && MissingFields(body)
    ensures v == UnknownUser <==>
      body.Body? && !MissingFields(body) && forall i :: 0 <= i < |admins| ==> admins[i].usuario != UsuarioOf(body)
    ensures (v.Inactive? || v.WrongPassword? || v.Accepted?) ==>
      body.Body? && !MissingFields(body) && v.admin in admins && v.admin.usuario == UsuarioOf(body)
    ensures v.Inactive? ==> v.admin.ativo != 1
    ensures v.WrongPassword? ==> v.admin.ativo == 1 && !verify(SenhaOf(body), v.admin.senha)
    ensures v.Accepted? ==> v.admin.ativo == 1 && verify(SenhaOf(body), v.admin.senha)
  {
    if body.InvalidJson? then BadJson
    else if MissingFields(body) then Incomplete
    else
      var u := UsuarioOf(body);
      match FirstWhere(admins, (a: Admin) => a.usuario == u)
      case None => UnknownUser
      case Some(a) =>
        if a.ativo != 1 then Inactive(a)
        else if !verify(SenhaOf(body), a.senha) then WrongPassword(a)
        else Accepted(a)
  }

  /** The reply to a login that met no storage fault. */
  function LoginReply(v: Verdict): AuthReply
  {
    match v
    case BadJson => AuthReply(false, InvalidJsonMsg, NoData)
    case Incomplete => AuthReply(false, MissingCredentials, NoData)
    case UnknownUser => AuthReply(false, BadCredentials, NoData)
    case Inactive(_) => AuthReply(false, InactiveUser, NoData)
    case WrongPassword(_) => AuthReply(false, BadCredentials, NoData)
    case Accepted(a) => AuthReply(true, LoginOk, LoginData(View(a)))
  }

  /** The log row a login writes, if any. */
  function LoginLog(v: Verdict, u: string): Option<AuthLog>
  {
    match v
    case BadJson => None
    case Incomplete => None
    case UnknownUser => Some(AuthLog(None, "login_falha", "login", "Usuário inexistente: " + u))
    case Inactive(a) => Some(AuthLog(Some(a.id), "login_falha", "login", "Usuário inativo: " + u))
    case WrongPassword(a) => Some(AuthLog(Some(a.id), "login_falha", "login", "Senha incorreta: " + u))
    case Accepted(a) => Some(AuthLog(Some(a.id), "login_sucesso", "login", "Login bem-sucedido"))
  }

  /** The session a successful login leaves: every key set, the clock
      started at `now`. */
  function LoginSession(a: Admin, now: int): (s: Session)
    ensures LoggedIn(s) && s.adminId == Some(a.id) && s.loginTimestamp == Some(now)
  {
    Session(Some(true), Some(a.id), Some(a.usuario), Some(a.nome), Some(a.email), Some(now))
  }

  /** An unknown login name and a wrong password get the same reply, so
      the reply does not tell which login names exist. */
  lemma UnknownAndWrongPasswordAlike(body: LoginBody, admins: seq<Admin>, verify: (string, string) -> bool,
                                      otherAdmins: seq<Admin>, otherVerify: (string, string) -> bool)
    requires Decide(body, admins, verify) == UnknownUser
    requires Decide(body, otherAdmins, otherVerify).WrongPassword?
    ensures LoginReply(Decide(body, admins, verify)) == LoginReply(Decide(body, otherAdmins, otherVerify))
  {
  }

  /** The active flag is checked before the password: an inactive account
      gets the same verdict whatever the password check would say, so its
      existence shows without the password. */
  lemma InactiveBeforePassword(body: LoginBody, admins: seq<Admin>,
                               verify: (string, string) -> bool, otherVerify: (string, string) -> bool)
    requires Decide(body, admins, verify).Inactive?
    ensures Decide(body, admins, otherVerify) == Decide(body, admins, verify)
    ensures LoginReply(Decide(body, admins, otherVerify)).mensagem == InactiveUser
  {
  }

  /** The login name is trimmed: surrounding blanks do not change the
      verdict. */
  lemma UsuarioIsTrimmed(u: string, senha: Option<string>, admins: seq<Admin>, verify: (string, string) -> bool)
    ensures Decide(Body(Some(" " + u + " "), senha), admins, verify) == Decide(Body(Some(u), senha), admins, verify)
  {
    TrimPadded(u);
    DecideByFields(Body(Some(" " + u + " "), senha), Body(Some(u), senha), admins, verify);
  }

  /** The verdict on a well-formed body depends only on the trimmed login
      name and the password. */
  lemma DecideByFields(b1: LoginBody, b2: LoginBody, admins: seq<Admin>, verify: (string, string) -> bool)
    requires b1.Body? && b2.Body?
    requires UsuarioOf(b1) == UsuarioOf(b2) && SenhaOf(b1) == SenhaOf(b2)
    ensures Decide(b1, admins, verify) == Decide(b2, admins, verify)
  {
  }

  lemma TrimPadded(u: string)
    ensures Trim(" " + u + " ") == Trim(u)
  {
    assert " " + u + " " == [' '] + (u + [' ']);
    TrimCons(' ', u + [' ']);
    TrimSnoc(u, ' ');
  }

  // ---------------------------------------------------------------
  // The session check

  /** SELECT ... WHERE id = :id LIMIT 1. */
  function AdminById(admins: seq<Admin>, id: int): (r: Option<Admin>)
    ensures r.Some? ==> r.value in admins && r.value.id == id
    ensures r.None? <==> forall i :: 0 <= i < |admins| ==> admins[i].id != id
  {
    FirstWhere(admins, (a: Admin) => a.id == id)
  }

  /** The clock was started and more than two hours have gone by. */
  predicate Expired(s: Session, now: int)
  {
    s.loginTimestamp.Some? && now - s.loginTimestamp.value > MaxIdle
  }

  /** What a check leaves: the session as stored afterwards, the reply and
      the log row it writes, if any. */
  datatype CheckResult = CheckResult(session: Session, reply: AuthReply, log: Option<AuthLog>)

  /** The session check. A session is destroyed when it has expired, when
      its row is inactive or when its row is gone; otherwise its clock is
      restarted, even when the lookup then fails. */
  function CheckSession(s: Session, admins: seq<Admin>, now: int, selectFails: bool): (r: CheckResult)
    ensures !LoggedIn(s) ==> r == CheckResult(s, AuthReply(true, NoSession, SessionData(false, false, None)), None)
    ensures LoggedIn(s) && Expired(s, now) ==>
      r == CheckResult(EmptySession, AuthReply(true, SessionExpired, SessionData(false, true, None)),
                       Some(AuthLog(s.adminId, "sessao_expirada", "login", SessionExpired)))
    ensures LoggedIn(s) && !Expired(s, now) ==>
      r.log.None? && (r.session == EmptySession || r.session == s.(loginTimestamp := Some(now)))
    ensures r.reply.data.SessionData? && r.reply.data.logado <==>
      && LoggedIn(s) && !Expired(s, now) && !selectFails && s.adminId.Some?
      && AdminById(admins, s.adminId.value).Some? && AdminById(admins, s.adminId.value).value.ativo == 1
    ensures r.reply.data.SessionData? && r.reply.data.logado ==>
      r.session == s.(loginTimestamp := Some(now)) && r.reply.mensagem == SessionActive
  {
    if !LoggedIn(s) then CheckResult(s, AuthReply(true, NoSession, SessionData(false, false, None)), None)
    else if Expired(s, now) then
      CheckResult(EmptySession, AuthReply(true, SessionExpired, SessionData(false, true, None)),
                  Some(AuthLog(s.adminId, "sessao_expirada", "login", SessionExpired)))
    else
      var touched := s.(loginTimestamp := Some(now));
      if selectFails then CheckResult(touched, AuthReply(false, CheckError, NoData), None)
      else
        var row := if s.adminId.Some? then AdminById(admins, s.adminId.value) else None;
        match row
        case None => CheckResult(EmptySession, AuthReply(true, UserNotFound, SessionData(false, false, None)), None)
        case Some(a) =>
          if a.ativo != 1 then
            CheckResult(EmptySession, AuthReply(true, UserDisabled, SessionData(false, false, None)), None)
          else CheckResult(touched, AuthReply(true, SessionActive, SessionData(true, false, Some(View(a)))), None)
  }

  /** The check replied `logado: true`. */
  predicate ReportsActive(r: CheckResult)
  {
    r.reply.data.SessionData? && r.reply.data.logado
  }

  /** The window slides: a check that finds the session active restarts
      its clock, so a further check within two hours of it finds the
      session active again, and one later than that finds it expired. */
  lemma SlidingWindow(s: Session, admins: seq<Admin>, t1: int, t2: int)
    requires ReportsActive(CheckSession(s, admins, t1, false))
    ensures t2 - t1 <= MaxIdle ==>
      CheckSession(CheckSession(s, admins, t1, false).session, admins, t2, false).reply
        == CheckSession(s, admins, t1, false).reply
    ensures t2 - t1 > MaxIdle ==>
      var r := CheckSession(CheckSession(s, admins, t1, false).session, admins, t2, false);
      r.session == EmptySession && r.reply.mensagem == SessionExpired
  {
    var r1 := CheckSession(s, admins, t1, false);
    assert r1.session == s.(loginTimestamp := Some(t1));
    var s1 := r1.session;
    assert LoggedIn(s1) && s1.adminId == s.adminId;
  }

  /** Right after a successful login, a check within two hours finds the
      session active and replies with the same record the login did, as
      long as the row is the first with its id and is still active. */
  lemma LoginThenCheck(a: Admin, admins: seq<Admin>, t: int, t2: int)
    requires AdminById(admins, a.id) == Some(a) && a.ativo == 1
    requires t2 - t <= MaxIdle
    ensures var r := CheckSession(LoginSession(a, t), admins, t2, false);
      r.reply == AuthReply(true, SessionActive, SessionData(true, false, Some(View(a))))
      && r.session == LoginSession(a, t2)
  {
  }

  /** A session whose clock was never started never expires. */
  lemma NoTimestampNeverExpires(s: Session, admins: seq<Admin>, now: int, selectFails: bool)
    requires s.loginTimestamp.None?
    ensures CheckSession(s, admins, now, selectFails).reply.mensagem != SessionExpired
  {
  }

  // ---------------------------------------------------------------
  // Routing

  datatype Action = Preflight | NoDatabase | DoLogin | DoLogout | DoCheck | InvalidAction

  /** OPTIONS is answered before the connection is opened; a failed
      connection answers every other request. */
  function Route(httpMethod: string, action: string, connected: bool): (a: Action)
    ensures a == Preflight <==> httpMethod == "OPTIONS"
    ensures a == NoDatabase <==> httpMethod != "OPTIONS" && !connected
    ensures a == DoLogin <==> httpMethod != "OPTIONS" && connected && action == "login"
    ensures a == DoLogout <==> httpMethod != "OPTIONS" && connected && action == "logout"
    ensures a == DoCheck <==> httpMethod != "OPTIONS" && connected && action in {"verificar", "check"}
    ensures a == InvalidAction <==>
      httpMethod != "OPTIONS" && connected && action !in {"login", "logout", "verificar", "check"}
  {
    if httpMethod == "OPTIONS" then Preflight
    else if !connected then NoDatabase
    else if action == "login" then DoLogin
    else if action == "logout" then DoLogout
    else if action == "verificar" || action == "check" then DoCheck
    else InvalidAction
  }

  function RouteReply(a: Action): (r: Option<AuthReply>)
    ensures r.None? <==> a in {Preflight, DoLogin, DoLogout, DoCheck}
  {
    match a
    case NoDatabase => Some(AuthReply(false, NoDatabaseMsg, NoData))
    case InvalidAction => Some(AuthReply(false, InvalidActionMsg, NoData))
    case _ => None
  }

  // ---------------------------------------------------------------
  // The endpoint over the session and its tables

  class BackendAuth {
    var session: Session
    var admins: seq<Admin>
    var logs: seq<AuthLog>

    constructor (admins0: seq<Admin>)
      ensures session == EmptySession && admins == admins0 && logs == []
    {
      session, admins, logs := EmptySession, admins0, [];
    }

    /** Appends a log row unless the insert fails; the failure is
        swallowed. */
    method RegistrarLog(entry: AuthLog, logFails: bool)
      modifies this`logs
      ensures logs == old(logs) + (if logFails then [] else [entry])
    {
      if !logFails {
        logs := logs + [entry];
      }
    }

    /** action=login. `selectFails` and `updateFails` make the lookup or
        the last-access update throw; `logFails` makes every log insert
        fail. A failing update comes after the session was written, so the
        session stays logged in although the reply is an error. */
    method FazerLogin(body: LoginBody, verify: (string, string) -> bool, now: int,
                      selectFails: bool, updateFails: bool, logFails: bool)
      returns (reply: AuthReply)
      modifies this
      ensures var v := Decide(body, old(admins), verify);
        && (v in {BadJson, Incomplete} ==> reply == LoginReply(v) && unchanged(this))
        && (v !in {BadJson, Incomplete} && selectFails ==>
              reply == AuthReply(false, LoginError, NoData) && unchanged(this))
        && (v !in {BadJson, Incomplete} && !selectFails && !v.Accepted? ==>
              && reply == LoginReply(v) && session == old(session) && admins == old(admins)
              && logs == old(logs) + (if logFails then [] else [LoginLog(v, UsuarioOf(body)).value]))
        && (v.Accepted? && !selectFails && updateFails ==>
              && reply == AuthReply(false, LoginError, NoData)
              && session == LoginSession(v.admin, now) && admins == old(admins) && logs == old(logs))
        && (v.Accepted? && !selectFails && !updateFails ==>
              && reply == LoginReply(v) && session == LoginSession(v.admin, now)
              && admins == TouchLastAccess(old(admins), v.admin.id, now)
              && logs == old(logs) + (if logFails then [] else [LoginLog(v, UsuarioOf(body)).value]))
    {
      var v := Decide(body, admins, verify);
      if body.InvalidJson? {
        return AuthReply(false, InvalidJsonMsg, NoData);
      }
      var usuario := Trim(body.usuario.GetOr(""));
      var senha := body.senha.GetOr("");
      if PhpEmpty(usuario) || PhpEmpty(senha) {
        return AuthReply(false, MissingCredentials, NoData);
      }
      if selectFails {
        return AuthReply(false, LoginError, NoData);
      }
      var row := FirstWhere(admins, (a: Admin) => a.usuario == usuario);
      if row.None? {
        RegistrarLog(AuthLog(None, "login_falha", "login", "Usuário inexistente: " + usuario), logFails);
        return AuthReply(false, BadCredentials, NoData);
      }
      var admin := row.value;
      if admin.ativo != 1 {
        RegistrarLog(AuthLog(Some(admin.id), "login_falha", "login", "Usuário inativo: " + usuario), logFails);
        return AuthReply(false, InactiveUser, NoData);
      }
      if !verify(senha, admin.senha) {
        RegistrarLog(AuthLog(Some(admin.id), "login_falha", "login", "Senha incorreta: " + usuario), logFails);
        return AuthReply(false, BadCredentials, NoData);
      }
      session := Session(Some(true), Some(admin.id), Some(admin.usuario), Some(admin.nome),
                         Some(admin.email), Some(now));
      if updateFails {
        return AuthReply(false, LoginError, NoData);
      }
      admins := TouchLastAccess(admins, admin.id, now);
      RegistrarLog(AuthLog(Some(admin.id), "login_sucesso", "login", "Login bem-sucedido"), logFails);
      reply := AuthReply(true, LoginOk, LoginData(View(admin)));
    }

    /** action=logout: logs when an admin id is in the session, then
        empties it. */
    method FazerLogout(logFails: bool) returns (reply: AuthReply)
      modifies this`session, this`logs
      ensures session == EmptySession && !LoggedIn(session)
      ensures logs == old(logs) +
        (if old(session).adminId.Some? && !logFails
         then [AuthLog(old(session).adminId, "logout", "login", "Logout realizado")] else [])
      ensures reply == AuthReply(true, LogoutOk, NoData)
    {
      if session.adminId.Some? {
        RegistrarLog(AuthLog(session.adminId, "logout", "login", "Logout realizado"), logFails);
      }
      session := EmptySession;
      reply := AuthReply(true, LogoutOk, NoData);
    }

    /** action=verificar or action=check. */
    method VerificarSessao(now: int, selectFails: bool, logFails: bool) returns (reply: AuthReply)
      modifies this`session, this`logs
      ensures var r := CheckSession(old(session), admins, now, selectFails);
        && session == r.session && reply == r.reply
        && logs == old(logs) + (if r.log.Some? && !logFails then [r.log.value] else [])
    {
      if session.adminLogado != Some(true) {
        return AuthReply(true, NoSession, SessionData(false, false, None));
      }
      if session.loginTimestamp.Some? && now - session.loginTimestamp.value > MaxIdle {
        RegistrarLog(AuthLog(session.adminId, "sessao_expirada", "login", SessionExpired), logFails);
        session := EmptySession;
        return AuthReply(true, SessionExpired, SessionData(false, true, None));
      }
      session := session.(loginTimestamp := Some(now));
      if selectFails {
        return AuthReply(false, CheckError, NoData);
      }
      var row := if session.adminId.Some? then AdminById(admins, session.adminId.value) else None;
      if row.Some? {
        if row.value.ativo != 1 {
          session := EmptySession;
          return AuthReply(true, UserDisabled, SessionData(false, false, None));
        }
        return AuthReply(true, SessionActive, SessionData(true, false, Some(View(row.value))));
      }
      session := EmptySession;
      reply := AuthReply(true, UserNotFound, SessionData(false, false, None));
    }
  }

  /** Logging out and then checking finds no session. */
  lemma LogoutThenCheck(admins: seq<Admin>, now: int, selectFails: bool)
    ensures CheckSession(EmptySession, admins, now, selectFails).reply.data == SessionData(false, false, None)
  {
  }
}
