# Juntas Goiás back end — a verified model

This project models the PHP back end of Juntas Goiás, a support site for women
facing violence. The site has:

- a public panic button and a public alert API, which share one table of
  alerts and one table of location pings;
- a public directory of support services;
- a public help-request form;
- an administration panel, which manages services and requests, uploads
  images, shows a dashboard and runs behind two login endpoints.

The model is written in Dafny, one module per endpoint, and proves what
each endpoint does with its tables and its session.

How the model represents the system:

- **Tables.** A table with an auto-increment key is a `map<int, Row>` and
  a next-id counter. The administrators table is a sequence, so that a
  `SELECT ... LIMIT 1` is the first matching row in storage order.
- **Endpoints.** An endpoint that writes is a class whose fields are its
  tables. Each handler is a method whose postcondition gives the new
  tables and the reply. Read-only queries and pure helpers are functions.
- **Transactions.** A transaction is one method that either applies every
  write or restores the saved tables.
- **Storage failures.** A failing statement is a parameter that names the
  step which throws, for example `fault: Option<Step>` or
  `updateFails: bool`.
- **External functions.** The clock, SHA-256, `password_verify`, `uniqid`,
  the spherical distance and `encodeURIComponent` are parameters.

Shared modules:

- `Common`: `Option`, `Response`, counting and filtering.
- `Text`: PHP's `trim`, `empty`, `intval` and `str_pad`, and decimal
  numerals.
- `Sorting`: a stable insertion sort under a total preorder, with a
  top-k cut.
- `AlertTables`: the alert, ping, contact and log rows.
- `Admins`: the administrators table and the PHP session keys.

The four back-office endpoints (services, demands, image upload and
dashboard) each include `backend/login.php` for an authentication helper,
then call `verificarAutenticacao`. The included file is itself an
endpoint: as soon as it is included it dispatches on the same `action`
parameter and ends the request on every path, so a request such as
`dashboard_api.php?action=resumo` is answered "Ação inválida". Nor does
that file define `verificarAutenticacao`; only admin/login.php does.
The module `BackOffice` proves this as written (see Findings). The
handlers of the four endpoints are modelled as intended, behind the guard
of admin/login.php.

Where the system's specification and its code differ, the model follows
the code:

- In api/alertas.php, cancelling an alert a second time answers 404.
  MySQL counts changed rows, not matched rows, so the second UPDATE
  changes none.
- A location update through api/alertas.php opens no transaction. It
  leaves the alert's stored coordinates alone and touches only
  `updated_at`.
- Every refusal of a PUT in backend/panico_api.php is an exception, and
  so a 500.

## Model

| member | source | states |
|---|---|---|
| AlertTables.ContactsToNotify | api/alertas.php:54-60 | the contacts notified are exactly the active contacts with the alert's user hash, in `ordem` order; their number is the count of such rows |
| AlertTables.NewestPingOf | api/alertas.php:168-169 | the last ping of an alert is None exactly when it has no pings, else one of that alert's own pings with the newest `created_at` among them |
| Alertas.Route | api/alertas.php:21-179 | POST with `acao=criar` creates, POST with `acao=atualizar-localizacao` updates the location, PUT with `acao=cancelar` cancels, and GET lists (each an if-and-only-if) |
| Alertas.CancelTable | api/alertas.php:148-151 | the cancel UPDATE keeps every key, changes no other row and sets `ativo` to false on the target |
| Alertas.CancelReply | api/alertas.php:153-160 | cancel succeeds exactly when the alert exists and is still active; otherwise it answers 404 "Alerta não encontrado" |
| Alertas.CancelIsFinal | api/alertas.php:105-111 | after a cancel, a location update meets a cancelled alert, a second cancel answers 404, and cancelling again changes nothing |
| Alertas.CancelKeepsRow | api/alertas.php:148-160 | a successful cancel leaves the row in place, with only `ativo` cleared |
| Alertas.NewestFirstIsPreorder | api/alertas.php:174 | ORDER BY created_at DESC is a total preorder on alert ids |
| Alertas.ActiveIdsNewestFirst | api/alertas.php:163-174 | the listed ids are exactly the active alerts, each once, newest first |
| Alertas.ListingRows | api/alertas.php:163-179 | every listed row is an active alert with its own stored row, its ping count and its last ping |
| Alertas.ListingComplete | api/alertas.php:163-179 | every active alert is listed |
| Alertas.ListingOrder | api/alertas.php:174 | no alert is listed twice, and the listing is newest first |
| Alertas.ActiveAlertsListing | api/alertas.php:163-179 | the listing holds exactly the active alerts, each once, newest first, with `total_atualizacoes` equal to its ping count |
| Alertas.AlertasApi.Criar | api/alertas.php:21-90 | a missing hash, latitude or longitude gives 400 and no write; any failing step gives 500 and restores the alert, ping and log tables; success adds one alert and one ping with the same coordinates, one log row, and replies 201 with the count of active contacts |
| Alertas.AlertasApi.AtualizarLocalizacao | api/alertas.php:92-136 | missing fields give 400; an unknown alert gives 404 and a cancelled one 400, with no ping added; an active alert gets exactly one ping, `velocidade` defaulting to 0, and only `updated_at` changes on the alert |
| Alertas.AlertasApi.Cancelar | api/alertas.php:139-161 | a missing id gives 400; a failure gives 500 with nothing changed; otherwise the table becomes CancelTable and the reply is CancelReply |
| Panico.Route | backend/panico_api.php:17-18 | OPTIONS is the preflight, POST raises, PUT updates, and any other method gets 405 (each an if-and-only-if) |
| Panico.MissingIpIsEmpty | backend/panico_api.php:32-39 | an unknown client address hashes like an empty one |
| Panico.HashRotatesDaily | backend/panico_api.php:32-39 | with an injective digest, the same client gets different hashes on different days |
| Panico.SeedDoesNotSeparateFields | backend/panico_api.php:32-39 | the address and the user agent are joined without a separator, so two different clients can share a hash |
| Panico.MapLinksRoundTrip | backend/panico_api.php:175-181 | the Google Maps and Waze links carry back the latitude and longitude they were built from |
| Panico.PutRejection | backend/panico_api.php:225-251 | a PUT goes ahead exactly when the id and the location are present, both coordinates are truthy and the alert exists and is active; otherwise it names one of the three refusal messages |
| Panico.CancelledAlertRefusesPositions | backend/panico_api.php:241-251 | an alert cancelled through api/alertas.php refuses further positions here |
| Panico.PanicoApi.RaisePanic | backend/panico_api.php:92-216 | a `tipo` other than "panico" gives 500 and no write; a failing step gives 500 and restores the tables; success inserts one active alert, a first ping exactly when both coordinates are truthy, and the links only then; a failed log insert is swallowed |
| Panico.PanicoApi.UpdatePosition | backend/panico_api.php:218-317 | a refused PUT gives 500 and no write; a failing step rolls back; success appends one ping with the speed and overwrites the alert's coordinates and precision; a failed log insert is swallowed |
| ServicosPublico.MunicipalityLeIsPreorder | api/servicos.php:52 | for any collation sort key, the `por-municipio` ordering is a total preorder |
| ServicosPublico.DeamLeIsPreorder | api/servicos.php:116 | for any collation sort key, the `deams` ordering is a total preorder |
| ServicosPublico.ListingLeIsPreorder | api/servicos.php:134 | for any collation sort key, the default listing's ordering is a total preorder |
| ServicosPublico.RouteAction | api/servicos.php:14 | `acao` defaults to `listar`, and any unknown value lists too |
| ServicosPublico.ListCategories | api/servicos.php:20-27 | `categorias` returns every category, as a permutation, by ascending `ordem` |
| ServicosPublico.ByMunicipality | api/servicos.php:31-36 | a missing or non-positive municipality id answers 400, and only then |
| ServicosPublico.ByMunicipalityRows | api/servicos.php:29-65 | the rows are exactly the active services of the municipality, restricted to the category when it is non-zero; 24-hour services come first, then category order, then name as the collation's sort key orders it |
| ServicosPublico.Candidates | api/servicos.php:76-93 | a candidate is an active service with both coordinates whose distance is strictly below the radius, paired with that distance |
| ServicosPublico.Nearest | api/servicos.php:67-106 | as intended, with the two latitude placeholders named apart: missing or zero coordinates answer 400, and only they do; a result holds at most 30 rows |
| ServicosPublico.NearbyPlaceholdersChecked | api/servicos.php:83-85 | the query's placeholders as written repeat `:lat`, which a native prepare refuses; the intended names are distinct |
| ServicosPublico.NearestPrepared | api/servicos.php:96-101 | zero coordinates answer 400, and only they do; past that check a query whose placeholder names repeat answers 500, and only such a query does; a query with distinct names answers as intended |
| ServicosPublico.NearestAsWritten | api/servicos.php:83-85 | as written `proximos` never succeeds: zero coordinates answer 400, and every other request answers 500 from the catch |
| ServicosPublico.NearestIntended | api/servicos.php:66-106 | the query with distinct placeholder names answers exactly as `Nearest` |
| ServicosPublico.NearestIsCappedSort | api/servicos.php:94-95 | `proximos` is the candidates sorted by distance, cut at 30 |
| ServicosPublico.NearestMembers | api/servicos.php:90-93 | every returned row is an active located service strictly within the radius, with its own distance |
| ServicosPublico.NearestOrder | api/servicos.php:94-95 | results are nearest first, at most 30, and a candidate is left out only when the list is full of nearer ones |
| ServicosPublico.DefaultRadius | api/servicos.php:71 | without `raio`, no service 10 km away or more is returned |
| ServicosPublico.ListDeams | api/servicos.php:108-122 | `deams` returns exactly the active services of category 1 whose name contains "DEAM", by municipality then name as the collation's sort key orders them |
| ServicosPublico.ListAll | api/servicos.php:124-140 | the default listing returns exactly the active services, each once, by municipality, category order and name, names as the collation's sort key orders them |
| ServicosAdmin.FirstMissing | backend/servicos_api.php:151-162 | `criar` names the first missing or blank field in the order titulo, descricao, categoria (each an if-and-only-if) |
| ServicosAdmin.MaxOrdem | backend/servicos_api.php:177-180 | MAX(ordem) is NULL on an empty table and otherwise the largest `ordem`, reached by a row |
| ServicosAdmin.NextOrdem | backend/servicos_api.php:165-180 | a new service's order is 1 on an empty table, else exactly one above the largest existing order |
| ServicosAdmin.UpdatedChangesOnlySupplied | backend/servicos_api.php:245-271 | an update with no fields changes only `data_atualizacao`; a supplied title is trimmed and written; omitted fields keep their value; `data_criacao` never changes |
| ServicosAdmin.UpdatedIdempotent | backend/servicos_api.php:258-270 | applying the same partial update twice equals applying it once |
| ServicosAdmin.SetOrdem | backend/servicos_api.php:364-371 | one position update keeps every key |
| ServicosAdmin.Reordered | backend/servicos_api.php:364-371 | reordering keeps every key |
| ServicosAdmin.ReorderedKeepsOtherColumns | backend/servicos_api.php:364-371 | reordering changes only `ordem`, and leaves unlisted services as they were |
| ServicosAdmin.ReorderedLastPositionWins | backend/servicos_api.php:364-371 | a listed id gets its last position plus one |
| ServicosAdmin.ReorderedDistinct | backend/servicos_api.php:364-371 | in a list without repeats, every listed service gets its position plus one |
| ServicosAdmin.ListServicesMembers | backend/servicos_api.php:46-68 | `listar` returns exactly the rows matching the optional `categoria` and `ativo` filters, each with its own key |
| ServicosAdmin.ListServicesOrder | backend/servicos_api.php:68 | `listar` is strictly increasing by (`ordem`, `id`) |
| ServicosAdmin.Route | backend/servicos_api.php:393-461 | each handler is selected exactly by its action name, with POST for the four writing ones; 405 answers exactly a writing action with another method, and 400 exactly an unknown action |
| ServicosAdmin.UpdateBindAsWrittenRefused | backend/servicos_api.php:274-278 | the update's type string has 13 letters for 12 bound variables, so the bind is refused; the intended 12-letter string is accepted |
| ServicosAdmin.ServicosAdminApi.Buscar | backend/servicos_api.php:110-146 | a non-positive id answers 400 and an unknown one 404; otherwise the stored row is returned |
| ServicosAdmin.ServicosAdminApi.Criar | backend/servicos_api.php:148-212 | a missing field answers 400 naming it, with no write; a failed insert answers 500 with no write; otherwise one row is added with trimmed fields and the next order |
| ServicosAdmin.ServicosAdminApi.AtualizarBound | backend/servicos_api.php:214-295 | a non-positive id gives 400 and an unknown one 404; a refused bind or a failed UPDATE gives 500; each with no change; otherwise the row becomes the COALESCE update of itself and the reply is "Serviço atualizado com sucesso" |
| ServicosAdmin.ServicosAdminApi.AtualizarAsWritten | backend/servicos_api.php:273-295 | as written, every update of a stored service answers 500 and leaves the table as it was |
| ServicosAdmin.ServicosAdminApi.Atualizar | backend/servicos_api.php:214-295 | with the intended type string: a non-positive id gives 400, an unknown one 404 and a failed UPDATE 500, with no change; otherwise the row becomes the COALESCE update of itself and the reply is "Serviço atualizado com sucesso" |
| ServicosAdmin.ServicosAdminApi.Deletar | backend/servicos_api.php:297-346 | a non-positive id gives 400, an unknown one 404 and a failed DELETE 500, with nothing removed; otherwise exactly that row is removed and the reply is "Serviço deletado com sucesso" |
| ServicosAdmin.ServicosAdminApi.Reordenar | backend/servicos_api.php:348-390 | a body without an array gives 400; a failure gives 500 and rolls back every position; otherwise the table becomes Reordered and the reply is "Ordem dos serviços atualizada com sucesso" |
| DemandasAdmin.EmptySearchMatchesAll | backend/demandas_admin_api.php:88-90 | an empty search matches every demand |
| DemandasAdmin.TotalPages | backend/demandas_admin_api.php:150 | the page count is ceil(total / limit): the pages cover the total, the last page is non-empty, and the count is 0 only when the total is 0 |
| DemandasAdmin.PageOf | backend/demandas_admin_api.php:110 | a page holds at most `limite` rows |
| DemandasAdmin.PagesPartition | backend/demandas_admin_api.php:53-56 | with offset (pagina-1)*limite, every page up to the page count is non-empty, every later page is empty, and the pages together are the whole listing |
| DemandasAdmin.PagesPrefix | backend/demandas_admin_api.php:56 | the first n pages together are the first n*limite rows |
| DemandasAdmin.AppendNote | backend/demandas_admin_api.php:323-333 | the new notes keep the old notes (NULL as empty) as a prefix and append exactly one stamped entry |
| DemandasAdmin.NotesAppendOnly | backend/demandas_admin_api.php:323-333 | after two additions the notes before both are still a prefix, followed by the two entries in order |
| DemandasAdmin.StatusRejection | backend/demandas_admin_api.php:212-230 | a status update goes ahead exactly when the id is positive and the status is one of the four accepted ones |
| DemandasAdmin.MarkedRead | backend/demandas_admin_api.php:188-195 | after `buscar` the demand is read, and an already-read demand is not changed |
| DemandasAdmin.MarkedReadIdempotent | backend/demandas_admin_api.php:188-195 | marking a demand read twice equals marking it once, so the first update time stays |
| DemandasAdmin.Route | backend/demandas_admin_api.php:387-454 | each handler is selected exactly by its action name, with POST for the four writing ones; 405 answers exactly a writing action with another method, and 400 exactly an unknown action |
| DemandasAdmin.ListDemands | backend/demandas_admin_api.php:47-156 | a non-positive limit or a page below 1 is an error, and only then; otherwise the page is the limit-sized slice at the offset, with the full count and the page count |
| DemandasAdmin.MatchingMembers | backend/demandas_admin_api.php:64-96 | the full match holds exactly the stored demands that satisfy every supplied filter, the search being `LIKE '%busca%'` with the search text's own wildcards live |
| DemandasAdmin.MatchingOrderAndCount | backend/demandas_admin_api.php:98-110 | the full match is ordered by `data_envio` descending, and its size is the number of matching demands, whatever the page |
| DemandasAdmin.PageOfSubset | backend/demandas_admin_api.php:110 | a page is a run of consecutive rows of the full listing, starting at the offset |
| DemandasAdmin.PageRowsMatch | backend/demandas_admin_api.php:64-110 | every row on a page is a stored demand that satisfies every supplied filter, and the page is newest first |
| DemandasAdmin.DemandasAdminApi.Buscar | backend/demandas_admin_api.php:158-204 | a non-positive id gives 400 and an unknown one 404, with no change; otherwise the demand is returned with `lida = 1` and an unread row is marked read |
| DemandasAdmin.DemandasAdminApi.AtualizarStatus | backend/demandas_admin_api.php:206-253 | a bad id or a missing or unaccepted (trimmed) status gives 400 with no change; otherwise a stored row gets the status and the update time, and the reply is a success even when no row has that id |
| DemandasAdmin.DemandasAdminApi.MarcarLida | backend/demandas_admin_api.php:255-289 | a non-positive id gives 400 with no change; otherwise a stored row gets `lida` set to the given value, 1 when none is given, and the reply is a success even when no row has that id |
| DemandasAdmin.DemandasAdminApi.AdicionarNota | backend/demandas_admin_api.php:291-352 | an empty note or a bad id gives 400 and an unknown id 404, with no change; otherwise the notes become AppendNote of the old ones |
| DemandasAdmin.DemandasAdminApi.Deletar | backend/demandas_admin_api.php:354-385 | a non-positive id gives 400 and a failed DELETE 500, with nothing removed; otherwise the row is removed if present, and the reply is "Demanda deletada com sucesso" either way |
| DemandasPublico.IpOrigem | api/demandas.php:44-47 | the client address is X-Forwarded-For when that header is present, else REMOTE_ADDR |
| DemandasPublico.ProtocoloRoundTrip | api/demandas.php:101 | the protocol is "JG-" and at least six digits that read back as the id; ids of six digits or more appear unpadded |
| DemandasPublico.NumeralLength | api/demandas.php:101 | an id of six digits or more is written with at least six digits |
| DemandasPublico.TypeLinks | api/demandas.php:73-78 | one link row per array element, in order, each the new id and the element's intval |
| DemandasPublico.TypeLinksShape | api/demandas.php:68-79 | every link belongs to the new demand; nothing is linked exactly when the field is absent, not an array or empty |
| DemandasPublico.ListIntakesSound | api/demandas.php:110-145 | every listed row is a stored demand passing the status and urgency filters; the list is newest first and holds at most 100 rows |
| DemandasPublico.ListIntakesKeepsNewest | api/demandas.php:130 | a matching demand is left out only when the list is full, and then it is no newer than any listed one |
| DemandasPublico.DemandasPublicoApi.Criar | api/demandas.php:15-108 | a missing urgency gives 400 with no write; a failing step gives 500 and restores every table; success adds the demand, its type links and one log row, replies 201 with the protocol, and runs the urgent branch exactly when the urgency is "alto" or the danger flag is truthy |
| Upload.ExtensionOfName | backend/upload_imagem_api.php:90 | the extension of `base.ext` is `ext` whenever `ext` has no dot |
| Upload.Validate | backend/upload_imagem_api.php:52-98 | the checks run in the order missing file, size, MIME type, extension; each message answers exactly when the earlier checks pass and its own fails; success yields the lower-cased allowed extension |
| Upload.SizeLimitInclusive | backend/upload_imagem_api.php:66-73 | exactly 5,242,880 bytes passes the size check, and one byte more does not |
| Upload.ExtensionCaseInsensitive | backend/upload_imagem_api.php:90-98 | "foto.JPG" with a JPEG type is accepted as "jpg" |
| Upload.Sanitize | backend/upload_imagem_api.php:103 | the sanitised name is no longer than the input and keeps exactly the input's characters in [A-Za-z0-9_-] |
| Upload.SanitizeConcat | backend/upload_imagem_api.php:103 | sanitising works character by character |
| Upload.SanitizeClean | backend/upload_imagem_api.php:103 | a name made only of allowed characters is left as it is |
| Upload.SanitizeIdempotent | backend/upload_imagem_api.php:103 | sanitising twice equals sanitising once |
| Upload.BannerDefault | backend/upload_imagem_api.php:111-113 | a banner without a number is named `banner1.{ext}`, whatever the custom name |
| Upload.BannerNumber | backend/upload_imagem_api.php:111-113 | a banner's number appears in its name as posted, up to the largest PHP integer; a longer numeral names it after that integer |
| Upload.CleanCustomName | backend/upload_imagem_api.php:101-104 | a non-empty, clean custom name is kept as it is |
| Upload.NameEndsWithExtension | backend/upload_imagem_api.php:100-113 | every stored name ends in a dot and the validated extension |
| Upload.PathsAgree | backend/upload_imagem_api.php:140-156 | the stored path is "frontend/" followed by the name, and the URL is "../" followed by the stored path |
| Upload.Route | backend/upload_imagem_api.php:268-304 | each handler is selected exactly by its action name, with POST for upload and delete; 405 answers exactly those two with another method, and 400 exactly an unknown or missing action |
| Upload.UploadApi.FazerUpload | backend/upload_imagem_api.php:50-159 | a failed check answers its 400 with no row; a failed move answers 500 with no row; otherwise one row is added with the name, type, path and size, and the reply carries the URL |
| Upload.UploadApi.DeletarImagem | backend/upload_imagem_api.php:203-250 | a non-positive id gives 400 and an unknown one 404, with nothing removed; otherwise exactly that row is removed and the reply is "Imagem deletada com sucesso" |
| Dashboard.ElapsedPriority | backend/dashboard_api.php:324-331 | the day component wins over hours and hours over minutes; the text is "Agora mesmo" exactly when all three are zero |
| Dashboard.ElapsedCountAndPlural | backend/dashboard_api.php:325-329 | the unit is plural exactly when the count is above 1, and the text starts with the count |
| Dashboard.ElapsedUsesOnlyDayHourMinute | backend/dashboard_api.php:319-333 | two intervals with the same day, hour and minute components get the same text |
| Dashboard.MonthOldIsJustNow | backend/dashboard_api.php:324-331 | as written, an interval of exactly one month reads "Agora mesmo" |
| Dashboard.ElapsedTextTotalReportsDays | backend/dashboard_api.php:324-331 | counting total days, anything a day old or more is reported in days, and the text agrees with the code below one month |
| Dashboard.PeriodStart | backend/dashboard_api.php:174-192 | `periodo` defaults to 30dias; 7dias, 90dias and ano pick 7 days, 90 days and 1 year; any other value gives 30 days; the reply echoes `periodo` |
| Dashboard.ChartSeries | backend/dashboard_api.php:249-282 | `tipo` defaults to mes; semana and ano pick their series, and anything else the 30-day daily series |
| Dashboard.Route | backend/dashboard_api.php:336-360 | in this file's own switch, each of the four action names selects its handler and nothing else does; 400 answers exactly any other or missing action |
| Admins.FirstWhere | backend/login.php:119-126 | a LIMIT 1 lookup is None exactly when no row matches, else a matching row of the table |
| Admins.TouchLastAccess | backend/login.php:155-157 | the `ultimo_acesso` update changes only the rows with that id, and only their last access |
| Admins.TouchKeepsCredentials | backend/login.php:155-157 | the update keeps every id, name, password hash and active flag |
| BackendLogin.Decide | backend/login.php:104-143 | the checks run in order: bad JSON, a missing trimmed name or password, an unknown name, an inactive account, then the password |
| BackendLogin.LoginSession | backend/login.php:146-153 | a successful login sets `admin_logado`, the admin id and `login_timestamp` to now |
| BackendLogin.UnknownAndWrongPasswordAlike | backend/login.php:128-143 | an unknown name and a wrong password get the same reply |
| BackendLogin.InactiveBeforePassword | backend/login.php:134-137 | an inactive account gets "Usuário inativo" whatever the password |
| BackendLogin.UsuarioIsTrimmed | backend/login.php:111 | blanks around the login name do not change the decision |
| BackendLogin.AdminById | backend/login.php:214-222 | the lookup by id is None exactly when no row has the id, else a row with that id |
| BackendLogin.CheckSession | backend/login.php:195-240 | no login answers `logado: false`; over two hours destroys the session and reports `expirada`; otherwise the clock is restarted, and a missing or inactive admin destroys the session; `logado` is true exactly when the session was active and the admin is active |
| BackendLogin.SlidingWindow | backend/login.php:200-212 | a check that finds the session active restarts the clock: a second check within two hours is active again, and a later one expires |
| BackendLogin.LoginThenCheck | backend/login.php:146-234 | right after a login, a check within two hours finds the session active with the admin's record |
| BackendLogin.NoTimestampNeverExpires | backend/login.php:200-210 | a session whose clock was never started never expires |
| BackendLogin.Route | backend/login.php:245-269 | OPTIONS is the preflight, a missing connection fails, and login, logout and verificar/check dispatch; anything else is an invalid action |
| BackendLogin.RouteReply | backend/login.php:245-269 | only the database failure and the invalid action answer on their own |
| BackendLogin.BackendAuth.RegistrarLog | backend/login.php:82-99 | a log row is appended unless the insert fails, and the failure is swallowed |
| BackendLogin.BackendAuth.FazerLogin | backend/login.php:104-171 | the reply, the session and the log follow Decide; an accepted login updates the last access, and a failing update still leaves the session logged in with an error reply |
| BackendLogin.BackendAuth.FazerLogout | backend/login.php:176-190 | logout logs when an admin id is set, empties the session, and replies success |
| BackendLogin.BackendAuth.VerificarSessao | backend/login.php:195-240 | the session and reply are those of CheckSession, and an expiry is logged |
| BackendLogin.BackendAuth.LogoutThenCheck | backend/login.php:176-198 | after logout a check reports not logged in |
| AdminLogin.Decide | admin/login.php:39-88 | a missing trimmed name or password is Missing (an if-and-only-if); a rejection (given both fields) happens exactly when no active row has that name or the first active row with that name fails password_verify; acceptance means that first active row, whose hash matches |
| AdminLogin.LoginReply | admin/login.php:47-113 | the reply is 200 exactly on acceptance; a missing field gives 400 and a rejection 401 |
| AdminLogin.LoginSession | admin/login.php:91-95 | a login sets `admin_logado` and the four admin keys, and leaves the clock alone |
| AdminLogin.InactiveLikeUnknown | admin/login.php:57-88 | an account that exists only as inactive rows is answered exactly like an unknown one |
| AdminLogin.PasswordIsTrimmed | admin/login.php:43-44 | blanks around the password do not change the decision |
| AdminLogin.InvalidJsonIsMissing | admin/login.php:40-54 | an undecodable body answers 400 like one without credentials |
| AdminLogin.CheckReply | admin/login.php:137-155 | a check answers 200 exactly when the session is logged in, otherwise 401 |
| AdminLogin.Guard | admin/login.php:161-170 | verificarAutenticacao stops the request with 401 exactly when the session is not logged in |
| AdminLogin.GuardAgreesWithCheck | admin/login.php:137-170 | the guard lets a request through exactly when a check answers 200 |
| AdminLogin.LoginThenCheck | admin/login.php:91-155 | after a login, a check returns the admin's record and the guard lets requests through |
| AdminLogin.LogoutThenCheck | admin/login.php:120-170 | after logout, a check answers 401 and the guard stops requests |
| AdminLogin.PanelSessionNeverExpires | admin/login.php:91-95 | a session opened by the panel login never meets the two-hour timeout of backend/login.php |
| AdminLogin.Route | admin/login.php:173-209 | login and logout need POST, otherwise 405; `check` takes any method; an unknown action gets 400 |
| AdminLogin.RouteReply | admin/login.php:173-209 | only the wrong-method and invalid-action cases answer on their own |
| AdminLogin.AdminAuth.FazerLogin | admin/login.php:39-114 | the reply and the session follow Decide; an accepted login updates the last access |
| AdminLogin.AdminAuth.FazerLogout | admin/login.php:120-131 | logout empties the session, so a following check answers 401 |
| AdminLogin.AdminAuth.VerificarLogin | admin/login.php:137-155 | the check answers 200 exactly when the session is logged in |
| AdminLogin.AdminAuth.VerificarAutenticacao | admin/login.php:161-170 | the guard stops the request exactly when the session is not logged in |
| BackOffice.SelectedActionsAreBackOffice | backend/servicos_api.php:393-461 | every action name a back-office router selects a handler for is one of the fourteen back-office names |
| BackOffice.HandleAsWritten | backend/login.php:245-269 | as written, the included router answers every back-office request; only preflights and its own four action names run a handler, and that handler is a login one |
| BackOffice.HandleIntended | admin/login.php:161-170 | as intended, a session that is not logged in gets 401, a logged-in preflight 200, and every other request the endpoint's own router |
| BackOffice.BackOfficeActionsRefusedAsWritten | backend/login.php:251-269 | as written, a request naming any back-office action, outside a preflight and with the database up, is answered "Ação inválida"; as intended, a logged-in session reaches that action's handler |
| BackOffice.DashboardSummaryExample | backend/dashboard_api.php:21-25 | `action=resumo` from a logged-in admin is answered "Ação inválida" as written and reaches the summary as intended |
| AdminUi.EscapeHtml | backend/admin.js:1270-1278 | the escaped text holds no raw `<`, `>`, `"` or `'`, and is no shorter than the input |
| AdminUi.EscapeConcat | backend/admin.js:1277 | escaping works character by character |
| AdminUi.EscapeClean | backend/admin.js:1270-1278 | a string without the five special characters is left as it is |
| AdminUi.EscapeRoundTrip | backend/admin.js:1270-1278 | reading the entities back gives the original text |
| AdminUi.EscapeInjective | backend/admin.js:1270-1278 | two different texts never escape to the same markup |
| AdminUi.TraduzirStatus | backend/admin.js:1283-1292 | the label differs from the status exactly when the status is one of the four known ones, and is empty only for an empty status |
| AdminUi.LabelsDistinct | backend/admin.js:1283-1292 | the four known statuses get four different labels |
| AdminUi.TranslateIdempotent | backend/admin.js:1283-1292 | no label is itself a status, so translating twice equals translating once |
| AdminUi.FiltrarDemandasUrl | backend/admin.js:598-607 | the URL is the fixed listing URL followed by the status, lida and busca parameters, each only when non-empty, in that order |
| AdminUi.ParamsRoundTrip | backend/admin.js:603-607 | for parameters without `&` or `=`, rendering and parsing the query are inverse |
| AdminUi.FilterUrlReadsBack | backend/admin.js:598-607 | the built URL splits into the listing endpoint and a query that parses back to the fixed parameters and the filters |
| AdminUi.FilterUrlLists | backend/admin.js:603 | the URL's action reaches the listing handler of the demands API |
| AdminUi.SalvarServicoAction | backend/admin.js:1026-1027 | the action is `atualizar` exactly when the id field is non-empty, and `criar` exactly when it is empty |
| AdminUi.SalvarServicoRouted | backend/admin.js:1026-1027 | posted to the service API, the form reaches the update handler when it has an id and the create handler otherwise |
| Text.Trim | backend/servicos_api.php:165-173 | trim returns the input without its leading and trailing blanks: the result is a slice of the input and has no blank at either end |
| Text.PadLeft | api/demandas.php:101 | str_pad with STR_PAD_LEFT returns the input preceded by enough pad characters to reach the width |
| Text.StringIntValOfNumeral | backend/upload_imagem_api.php:112 | intval reads a decimal numeral back as its value |
| Text.PhpIntVal | backend/upload_imagem_api.php:112 | intval of a string stays within the 64-bit range, equals the numeral read when that is in range, and is the nearer end otherwise |
| Text.PhpIntValOfNumeral | backend/upload_imagem_api.php:112 | a numeral up to the largest integer reads back as itself, and a larger one as the largest integer |
| Text.PlainLikeContains | backend/demandas_admin_api.php:89-90 | for a search text without `%`, `_` or a backslash, `LIKE '%text%'` holds exactly when the lower-cased text occurs in the lower-cased field |
| Text.WildcardSearches | backend/demandas_admin_api.php:89-90 | the search text's wildcards stay live: a search for `_` matches every non-empty field and one for `%` every field |
| Text.PercentThen | backend/demandas_admin_api.php:90 | a pattern starting with `%` matches exactly when the rest matches some suffix of the text |
| Text.PlainThenPercent | backend/demandas_admin_api.php:90 | a plain pattern followed by `%` matches exactly the texts it is a prefix of |
| Sorting.SortBy | api/servicos.php:94 | ORDER BY returns a permutation of its rows, sorted under the key |
| Sorting.TakeSortedLeftOut | api/servicos.php:95 | after a sort and a LIMIT, a row is left out only when the limit is reached, and then every kept row is no larger than it |

## Left out

- Database connections, the SQL text and the JSON envelope are not modelled. Tables are maps or sequences, and replies are `Response` values. `config/database.php` and the back office's `db_connect.php` are not part of this model.
- Headers and CORS replies beyond the method dispatch, `session_regenerate_id` and cookies are not modelled, nor the 1-second `sleep` after a failed login in backend/login.php (lines 130 and 141; admin/login.php has none).
- SHA-256, `password_verify`, `uniqid`, the clock and `date('Y-m-d')` are foreign or nondeterministic, so they are parameters of the members that use them.
- The great-circle distance of api/servicos.php uses floating-point trigonometry. The model takes the angle as a given function; it fixes the 6371 km radius but not the rounding.
- `formatarTamanho` (upload and dashboard) and `listarImagens` are left out: both rest on float division and rounding, or only format a SELECT.
- The upload's filesystem effects (`move_uploaded_file`, the banner backup `rename`, `unlink`) and `finfo` sniffing are not modelled. The MIME type is an input, and the move is a `moveFails` flag.
- Upload.UploadApi.FazerUpload: the INSERT's own failure is not modelled; the source does not check it.
- The queries of the dashboard's `resumo`, `demandas_recentes`, `estatisticas_periodo` and `grafico_demandas` (aggregations, and a plain recent-demands SELECT) are not modelled; only the choices around them are.
- The log rows' client address and user agent, and the `timestamp` fields of replies, are not modelled.
- Notification stubs (`enviarNotificacaoEmergencia`, the urgent demand's `error_log`) only log. Api/demandas.php's urgent branch is reported as a flag.
- Races between a cancel and a concurrent location update rely on the database and are not modelled.
- AdminLogin.AdminAuth.FazerLogin: mysqli failures are not modelled; admin/login.php does not catch them.
- MySQL's case-insensitive collation for name lookups is not modelled; comparisons are exact. LIKE is case-insensitive through ASCII `Lower` only; accent-insensitive matching is not modelled.
- ServicosPublico.ByMunicipalityRows, ServicosPublico.ListDeams, ServicosPublico.ListAll: the name columns are ordered by a sort-key parameter standing for utf8mb4_unicode_ci (config/database.php:37), which ignores case and accents; the collation's weight tables are not modelled, so that, for instance, "Águas Lindas de Goiás" comes before "Aparecida de Goiânia" is not derived. Names with equal keys tie and the next column decides; among full ties the model keeps storage order, where MySQL may return any order.
- ServicosPublico.NearestAsWritten: the 500 reply's message is the prefix "Erro ao buscar serviços: "; the driver's own text (SQLSTATE HY093), which the source appends, is not modelled.
- `intval` of a string is modelled for decimal numerals, held to the 64-bit range; exponent and hexadecimal forms are not.
- DemandasPublico.IntVal: a JSON float beyond the 64-bit range is truncated but not reduced to an integer as PHP's conversion does, and a JSON integer is taken as decoded.
- DemandasAdmin.PagesPartition: ORDER BY data_envio DESC leaves demands with equal `data_envio` in an order MySQL does not fix. The model takes one listing for every page, while separate page requests may order such ties differently.
- AlertTables.NewestPingOf: among an alert's pings with equal `created_at`, MySQL may pick any, and the latitude and longitude subqueries may pick different ones; the model picks one ping, the last stored among them.
- ServicosAdmin.ServicosAdminApi.AtualizarAsWritten: under PHP 8 the mismatched `bind_param` throws an ArgumentCountError, which ends the request with a 500 and no JSON body; the model gives the 500 reply of PHP 7, where the bind fails and the execute then fails.
- The `GROUP_CONCAT` of type names and the municipality join in the GET of api/demandas.php are not modelled; the listing returns the stored rows.
- AdminUi.TraduzirStatus: inherited keys of JavaScript objects (such as "constructor") are not modelled; the lookup covers the four own keys.
- AdminUi.EscapeHtml: `String(text)` of non-string arguments is not modelled; the input is a string.
- AdminUi.FiltrarDemandasUrl: `encodeURIComponent` is a parameter; only the parameter order and presence are modelled.
- AdminUi.SalvarServicoAction: the `parseInt` of the id and the fetch are not modelled; only the action choice is.
- The DOM, Chart.js, fetch, alert and clock code of backend/admin.js is not modelled.
- The stub and pass-through endpoints (`api/areas-risco.php`, `api/municipios.php`, `api/tipos-violencia.php`, `backend/demandas.php`, `backend/conteudo_api.php`, `admin/demandas.php`, `admin/alertas.php`, `config/cors.php`, `test-conexao.php`) are not part of this model.

## Findings

| source | as written | input that shows it | evidently intended | confidence | as-written member | corrected member |
|---|---|---|---|---|---|---|
| backend/servicos_api.php:274-278 | `bind_param("sssssssssiiii", …)` passes 13 type letters for the 12 variables and 12 placeholders | any update of a stored service, e.g. `{"id": 1, "titulo": "x"}` for an existing id 1 | the type string "sssssssssiii", so the update is applied | not executed | ServicosAdmin.ServicosAdminApi.AtualizarAsWritten | ServicosAdmin.ServicosAdminApi.Atualizar |
| backend/login.php:251-269 | the four back-office endpoints include `login.php`, whose top-level router reads the same `action` parameter and ends the request on every path | `GET dashboard_api.php?action=resumo` with the database up is answered "Ação inválida" | include only an authentication helper providing `verificarAutenticacao`, as admin/login.php:161-170 defines it, and then dispatch to the endpoint's own handlers | not executed | BackOffice.HandleAsWritten | BackOffice.HandleIntended |
| api/servicos.php:83-85 | the `proximos` query uses the named placeholder `:lat` twice; the connection prepares natively (config/database.php:36) and throws on errors, so the repeated name fails with SQLSTATE HY093 and the catch answers 500 | `GET api/servicos.php?acao=proximos&lat=-16.68&lng=-49.25` is answered 500 | distinct placeholders (`:lat1`, `:lat2`) each bound to the latitude, so the nearest services are returned | not executed | ServicosPublico.NearestAsWritten | ServicosPublico.Nearest |
| backend/dashboard_api.php:324-331 | the elapsed text reads `DateInterval->d`, the day component left after whole months and years | a demand sent exactly one month ago: y=0, m=1, d=0, h=0, i=0, days=30 gives "Agora mesmo" | report the total number of days (`->days`), so a month-old demand reads "30 dias" | not executed | Dashboard.MonthOldIsJustNow | Dashboard.ElapsedTextTotalReportsDays |
