/** admin/login.php: login, logout and check for the administration panel,
    with the guard other endpoints call before serving a request. Unlike
    backend/login.php it answers with HTTP status codes, trims the password
    too, and looks only at active rows. */
module AdminLogin {
  import opened Common
  import opened Text
  import opened Admins
  import BackendLogin

  // ---------------------------------------------------------------
  // Replies and messages

  /** The admin record a successful login replies with. */
  datatype AdminRecord = AdminRecord(id: int, usuario: string, nome: string, email: string)

  /** The admin record a check replies with, read back from the session:
      a key that is not set reads as null. */
  datatype SessionRecord = SessionRecord(
    id: Option<int>, usuario: Option<string>, nome: Option<string>, email: Option<string>)

  datatype ReplyBody =
    | Outcome(sucesso: bool, mensagem: string)
    | LoginOk(mensagem: string, admin: AdminRecord)
    | LoggedInBody(record: SessionRecord)
    | NotLoggedIn(mensagem: string)

  datatype Reply = Reply(code: int, body: ReplyBody)

  const MissingCredentials := "Usuário e senha são obrigatórios"
  const BadCredentials := "Usuário ou senha incorretos"
  const LoginOkMsg := "Login realizado com sucesso"
  const LogoutOk := "Logout realizado com sucesso"
  const NotAuthenticated := "Não autenticado"
  const Unauthorized := "Acesso não autorizado. Faça login primeiro."
  const MethodNotAllowed := "Método não permitido"
  const InvalidActionMsg := "Ação inválida. Use: login, logout ou check"

  function Record(a: Admin): AdminRecord
  {
    AdminRecord(a.id, a.usuario, a.nome, a.email)
  }

  // ---------------------------------------------------------------
  // The login decision

  /** A field as compared: trimmed, "" when absent or when the body did
      not decode. */
  function Field(f: Option<string>): string
  {
    Trim(f.GetOr(""))
  }

  function UsuarioOf(body: BackendLogin.LoginBody): string
  {
    if body.Body? then Field(body.usuario) else ""
  }

  function SenhaOf(body: BackendLogin.LoginBody): string
  {
    if body.Body? then Field(body.senha) else ""
  }

  datatype Verdict = Missing | Rejected | Accepted(admin: Admin)

  /** Row `i` is the first active row, in storage order, with login name `u`. */
  predicate FirstActive(admins: seq<Admin>, u: string, i: int)
  {
    && 0 <= i < |admins| && admins[i].usuario == u && admins[i].ativo == 1
    && forall k :: 0 <= k < i ==> !(admins[k].usuario == u && admins[k].ativo == 1)
  }

  /** The lookup is restricted to active rows; the password is checked
      against the first active row with that login name. `verify` stands
      for password_verify(). */
  function Decide(body: BackendLogin.LoginBody, admins: seq<Admin>, verify: (string, string) -> bool): (v: Verdict)
    ensures v == Missing <==> PhpEmpty(UsuarioOf(body)) || PhpEmpty(SenhaOf(body))
    ensures v == Rejected <==>
      && !PhpEmpty(UsuarioOf(body)) && !PhpEmpty(SenhaOf(body))
      && (|| (forall i :: 0 <= i < |admins| && admins[i].usuario == UsuarioOf(body) ==> admins[i].ativo != 1)
          || (exists i :: FirstActive(admins, UsuarioOf(body), i) && !verify(SenhaOf(body), admins[i].senha)))
    ensures v.Accepted? ==>
      exists i :: FirstActive(admins, UsuarioOf(body), i) && admins[i] == v.admin && verify(SenhaOf(body), v.admin.senha)
    ensures v == Rejected ==>
      || (forall i :: 0 <= i < |admins| && admins[i].usuario == UsuarioOf(body) ==> admins[i].ativo != 1)
      || (exists i :: 0 <= i < |admins| && admins[i].usuario == UsuarioOf(body) && admins[i].ativo == 1
                                       && !verify(SenhaOf(body), admins[i].senha))
    ensures v.Accepted? ==>
      && v.admin in admins && v.admin.usuario == UsuarioOf(body) && v.admin.ativo == 1
      && verify(SenhaOf(body), v.admin.senha)
  {
    var u, p := UsuarioOf(body), SenhaOf(body);
    if PhpEmpty(u) || PhpEmpty(p) then Missing
    else
      match FirstWhere(admins, (a: Admin) => a.usuario == u && a.ativo == 1)
      case None => Rejected
      case Some(a) => if verify(p, a.senha) then Accepted(a) else Rejected
  }

  function LoginReply(v: Verdict): (r: Reply)
    ensures r.code == 200 <==> v.Accepted?
  {
    match v
    case Missing => Reply(400, Outcome(false, MissingCredentials))
    case Rejected => Reply(401, Outcome(false, BadCredentials))
    case Accepted(a) => Reply(200, LoginOk(LoginOkMsg, Record(a)))
  }

  /** The session a successful login leaves: the flag and the four admin
      keys set, every other key (the login clock of backend/login.php)
      as it was. */
  function LoginSession(s: Session, a: Admin): (r: Session)
    ensures LoggedIn(r) && r.adminId == Some(a.id) && r.loginTimestamp == s.loginTimestamp
  {
    s.(adminLogado := Some(true), adminId := Some(a.id), adminUsuario := Some(a.usuario),
       adminNome := Some(a.nome), adminEmail := Some(a.email))
  }

  /** An account that exists only as inactive rows is turned away exactly
      like a login name that does not exist, whatever the password. */
  lemma InactiveLikeUnknown(body: BackendLogin.LoginBody, admins: seq<Admin>, verify: (string, string) -> bool)
    requires !PhpEmpty(UsuarioOf(body)) && !PhpEmpty(SenhaOf(body))
    requires forall i :: 0 <= i < |admins| && admins[i].usuario == UsuarioOf(body) ==> admins[i].ativo != 1
    ensures Decide(body, admins, verify) == Rejected
    ensures LoginReply(Decide(body, admins, verify)) == LoginReply(Decide(body, [], verify))
  {
  }

  /** The password is trimmed before it is checked, like the login name. */
  lemma PasswordIsTrimmed(u: Option<string>, p: string, admins: seq<Admin>, verify: (string, string) -> bool)
    ensures Decide(BackendLogin.Body(u, Some(" " + p + " ")), admins, verify)
         == Decide(BackendLogin.Body(u, Some(p)), admins, verify)
  {
    BackendLogin.TrimPadded(p);
    var b1, b2 := BackendLogin.Body(u, Some(" " + p + " ")), BackendLogin.Body(u, Some(p));
    assert UsuarioOf(b1) == UsuarioOf(b2) && SenhaOf(b1) == SenhaOf(b2);
  }

  /** A body that does not decode is answered like one without the
      fields. */
  lemma InvalidJsonIsMissing(admins: seq<Admin>, verify: (string, string) -> bool)
    ensures LoginReply(Decide(BackendLogin.InvalidJson, admins, verify)) == Reply(400, Outcome(false, MissingCredentials))
  {
  }

  // ---------------------------------------------------------------
  // Check and guard

  /** action=check: the session's admin keys when logged in, 401
      otherwise. */
  function CheckReply(s: Session): (r: Reply)
    ensures r.code == 200 <==> LoggedIn(s)
    ensures r.code != 200 ==> r == Reply(401, NotLoggedIn(NotAuthenticated))
  {
    if LoggedIn(s) then
      Reply(200, LoggedInBody(SessionRecord(s.adminId, s.adminUsuario, s.adminNome, s.adminEmail)))
    else Reply(401, NotLoggedIn(NotAuthenticated))
  }

  /** verificarAutenticacao(): the reply that stops the request, or None
      when it may go on. */
  function Guard(s: Session): (r: Option<Reply>)
    ensures r.None? <==> LoggedIn(s)
    ensures r.Some? ==> r.value == Reply(401, Outcome(false, Unauthorized))
  {
    if LoggedIn(s) then None else Some(Reply(401, Outcome(false, Unauthorized)))
  }

  /** The guard lets a request through exactly when a check would report
      the session as logged in. */
  lemma GuardAgreesWithCheck(s: Session)
    ensures Guard(s).None? <==> CheckReply(s).code == 200
  {
  }

  /** After a successful login a check replies with the admin's own
      record, and the guard lets requests through. */
  lemma LoginThenCheck(s: Session, a: Admin)
    ensures CheckReply(LoginSession(s, a))
         == Reply(200, LoggedInBody(SessionRecord(Some(a.id), Some(a.usuario), Some(a.nome), Some(a.email))))
    ensures Guard(LoginSession(s, a)).None?
  {
  }

  /** After logout a check replies 401 and the guard stops requests. */
  lemma LogoutThenCheck()
    ensures CheckReply(EmptySession) == Reply(401, NotLoggedIn(NotAuthenticated))
    ensures Guard(EmptySession) == Some(Reply(401, Outcome(false, Unauthorized)))
  {
  }

  /** Both login endpoints share the session keys, but a session opened
      here from an empty session carries no login clock, so the two-hour
      timeout of backend/login.php never ends it. */
  lemma PanelSessionNeverExpires(a: Admin, admins: seq<Admin>, now: int, selectFails: bool)
    ensures BackendLogin.CheckSession(LoginSession(EmptySession, a), admins, now, selectFails).reply.mensagem
         != BackendLogin.SessionExpired
  {
    BackendLogin.NoTimestampNeverExpires(LoginSession(EmptySession, a), admins, now, selectFails);
  }

  // ---------------------------------------------------------------
  // Routing

  datatype Action = Preflight | DoLogin | DoLogout | DoCheck | WrongMethod | InvalidAction

  /** OPTIONS answers 200 with no body; login and logout need POST, check
      takes any method. */
  function Route(httpMethod: string, action: string): (a: Action)
    ensures a == Preflight <==> httpMethod == "OPTIONS"
    ensures a == DoLogin <==> httpMethod == "POST" && action == "login"
    ensures a == DoLogout <==> httpMethod == "POST" && action == "logout"
    ensures a == DoCheck <==> httpMethod != "OPTIONS" && action == "check"
    ensures a == WrongMethod <==> httpMethod !in {"OPTIONS", "POST"} && action in {"login", "logout"}
    ensures a == InvalidAction <==> httpMethod != "OPTIONS" && action !in {"login", "logout", "check"}
  {
    if httpMethod == "OPTIONS" then Preflight
    else if action == "login" || action == "logout" then
      if httpMethod != "POST" then WrongMethod
      else if action == "login" then DoLogin
      else DoLogout
    else if action == "check" then DoCheck
    else InvalidAction
  }

  function RouteReply(a: Action): (r: Option<Reply>)
    ensures r.Some? <==> a in {WrongMethod, InvalidAction}
  {
    match a
    case WrongMethod => Some(Reply(405, Outcome(false, MethodNotAllowed)))
    case InvalidAction => Some(Reply(400, Outcome(false, InvalidActionMsg)))
    case _ => None
  }

  // ---------------------------------------------------------------
  // The endpoint over the session and the table

  class AdminAuth {
    var session: Session
    var admins: seq<Admin>

    constructor (admins0: seq<Admin>)
      ensures session == EmptySession && admins == admins0
    {
      session, admins := EmptySession, admins0;
    }

    /** action=login with POST. */
    method FazerLogin(body: BackendLogin.LoginBody, verify: (string, string) -> bool, now: int)
      returns (reply: Reply)
      modifies this
      ensures var v := Decide(body, old(admins), verify);
        && reply == LoginReply(v)
        && (v.Accepted? ==>
              session == LoginSession(old(session), v.admin)
              && admins == TouchLastAccess(old(admins), v.admin.id, now))
        && (!v.Accepted? ==> session == old(session) && admins == old(admins))
    {
      var usuario := if body.Body? then Trim(body.usuario.GetOr("")) else "";
      var senha := if body.Body? then Trim(body.senha.GetOr("")) else "";
      if PhpEmpty(usuario) || PhpEmpty(senha) {
        return Reply(400, Outcome(false, MissingCredentials));
      }
      var row := FirstWhere(admins, (a: Admin) => a.usuario == usuario && a.ativo == 1);
      if row.None? {
        return Reply(401, Outcome(false, BadCredentials));
      }
      var admin := row.value;
      if !verify(senha, admin.senha) {
        return Reply(401, Outcome(false, BadCredentials));
      }
      session := session.(adminLogado := Some(true));
      session := session.(adminId := Some(admin.id));
      session := session.(adminUsuario := Some(admin.usuario));
      session := session.(adminNome := Some(admin.nome));
      session := session.(adminEmail := Some(admin.email));
      admins := TouchLastAccess(admins, admin.id, now);
      reply := Reply(200, LoginOk(LoginOkMsg, Record(admin)));
    }

    /** action=logout with POST: every session key is dropped. */
    method FazerLogout() returns (reply: Reply)
      modifies this`session
      ensures session == EmptySession && CheckReply(session).code == 401
      ensures reply == Reply(200, Outcome(true, LogoutOk))
    {
      session := EmptySession;
      reply := Reply(200, Outcome(true, LogoutOk));
    }

    /** action=check. */
    method VerificarLogin() returns (reply: Reply)
      ensures reply.code == 200 <==> LoggedIn(session)
      ensures reply == CheckReply(session)
    {
      if session.adminLogado == Some(true) {
        reply := Reply(200, LoggedInBody(SessionRecord(session.adminId, session.adminUsuario,
                                                       session.adminNome, session.adminEmail)));
      } else {
        reply := Reply(401, NotLoggedIn(NotAuthenticated));
      }
    }

    /** verificarAutenticacao(): `stop` is the reply that ends the request,
        or None when the caller may go on. */
    method VerificarAutenticacao() returns (stop: Option<Reply>)
      ensures stop.None? <==> LoggedIn(session)
      ensures stop == Guard(session)
    {
      if session.adminLogado != Some(true) {
        return Some(Reply(401, Outcome(false, Unauthorized)));
      }
      stop := None;
    }
  }
}
