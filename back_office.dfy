/** How a request reaches the four back-office endpoints
    (backend/servicos_api.php, backend/demandas_admin_api.php,
    backend/upload_imagem_api.php and backend/dashboard_api.php). Each one
    opens with `require_once 'login.php'`, which loads the authentication
    endpoint in the same directory, then calls `verificarAutenticacao`,
    answers OPTIONS, and dispatches on the `action` query parameter.

    The included file is not a library: its top-level code is a router over
    the same `action` parameter, and every path through it ends the request
    (OPTIONS with `exit()`, everything else through `enviarResposta`, which
    exits after writing its reply). So as written no back-office handler is
    ever reached. The session check the endpoints expect is the one the
    session-based login endpoint defines (AdminLogin.Guard). */
module BackOffice {
  import opened Common
  import Admins
  import BackendLogin
  import AdminLogin
  import ServicosAdmin
  import DemandasAdmin
  import Upload
  import Dashboard

  datatype Endpoint = Services | Demands | Images | Stats

  /** What an endpoint's own router makes of a request; an absent `action`
      is the empty string in all four. */
  datatype Dispatch =
    | ServicesRoute(services: Response<ServicosAdmin.Operation>)
    | DemandsRoute(demands: Response<DemandasAdmin.Operation>)
    | ImagesRoute(images: Response<Upload.Operation>)
    | StatsRoute(stats: Response<Dashboard.Operation>)

  function OwnRoute(e: Endpoint, httpMethod: string, action: string): Dispatch
  {
    match e
    case Services => ServicesRoute(ServicosAdmin.Route(action, httpMethod))
    case Demands => DemandsRoute(DemandasAdmin.Route(action, httpMethod))
    case Images => ImagesRoute(Upload.Route(Some(action), httpMethod))
    case Stats => StatsRoute(Dashboard.Route(Some(action)))
  }

  /** The endpoint's router selects one of its handlers. */
  predicate Selects(d: Dispatch)
  {
    match d
    case ServicesRoute(r) => r.Success?
    case DemandsRoute(r) => r.Success?
    case ImagesRoute(r) => r.Success?
    case StatsRoute(r) => r.Success?
  }

  /** The action names the four endpoints answer to. */
  const BackOfficeActions: set<string> := {
    "listar", "buscar", "criar", "atualizar", "deletar", "reordenar",
    "atualizar_status", "marcar_lida", "adicionar_nota",
    "upload",
    "resumo", "demandas_recentes", "estatisticas_periodo", "grafico_demandas"}

  /** Every action name an endpoint selects a handler for is one of the
      back-office names. */
  lemma SelectedActionsAreBackOffice(e: Endpoint, httpMethod: string, action: string)
    requires Selects(OwnRoute(e, httpMethod, action))
    ensures action in BackOfficeActions
  {
  }

  /** How one back-office request ends. */
  datatype Handling =
    | AnsweredByLogin(login: BackendLogin.Action)
    | Refused(reply: AdminLogin.Reply)
    | PreflightOk
    | Dispatched(route: Dispatch)

  /** The request as written: the included router decides it, with the
      same method and `action`; `connected` is whether its own database
      connection opened. Only the login endpoint's own actions run a handler
      at all, and that handler is a login one. */
  function HandleAsWritten(e: Endpoint, httpMethod: string, action: string, connected: bool): (h: Handling)
    ensures h.AnsweredByLogin?
    ensures BackendLogin.RouteReply(h.login).None? <==>
      httpMethod == "OPTIONS" || (connected && action in {"login", "logout", "verificar", "check"})
  {
    AnsweredByLogin(BackendLogin.Route(httpMethod, action, connected))
  }

  /** The request as intended: the session guard, then the preflight, then
      the endpoint's own router. */
  function HandleIntended(e: Endpoint, httpMethod: string, action: string, s: Admins.Session): (h: Handling)
    ensures h.Refused? <==> !Admins.LoggedIn(s)
    ensures h.Refused? ==> h.reply == AdminLogin.Reply(401, AdminLogin.Outcome(false, AdminLogin.Unauthorized))
    ensures h == PreflightOk <==> Admins.LoggedIn(s) && httpMethod == "OPTIONS"
    ensures h.Dispatched? <==> Admins.LoggedIn(s) && httpMethod != "OPTIONS"
    ensures h.Dispatched? ==> h.route == OwnRoute(e, httpMethod, action)
  {
    match AdminLogin.Guard(s)
    case Some(reply) => Refused(reply)
    case None => if httpMethod == "OPTIONS" then PreflightOk else Dispatched(OwnRoute(e, httpMethod, action))
  }

  /** As written, a request naming any of the endpoint's own actions is
      answered by the login router (outside a preflight): "Ação inválida"
      once the database is up, whatever the session. As intended, a
      logged-in session reaches the handler. */
  lemma BackOfficeActionsRefusedAsWritten(
    e: Endpoint, httpMethod: string, action: string, s: Admins.Session)
    requires Selects(OwnRoute(e, httpMethod, action)) && httpMethod != "OPTIONS"
    ensures HandleAsWritten(e, httpMethod, action, true) == AnsweredByLogin(BackendLogin.InvalidAction)
    ensures BackendLogin.RouteReply(BackendLogin.InvalidAction) ==
      Some(BackendLogin.AuthReply(false, BackendLogin.InvalidActionMsg, BackendLogin.NoData))
    ensures Admins.LoggedIn(s) ==>
      HandleIntended(e, httpMethod, action, s) == Dispatched(OwnRoute(e, httpMethod, action))
  {
    SelectedActionsAreBackOffice(e, httpMethod, action);
  }

  /** One request: a logged-in admin asking the dashboard for its summary. */
  lemma DashboardSummaryExample(s: Admins.Session)
    requires Admins.LoggedIn(s)
    ensures HandleAsWritten(Stats, "GET", "resumo", true) == AnsweredByLogin(BackendLogin.InvalidAction)
    ensures HandleIntended(Stats, "GET", "resumo", s) == Dispatched(StatsRoute(Success(200, Dashboard.Summary)))
  {
  }
}
