/** api/servicos.php: the public, read-only service directory. Every action
    is a filter, an order and sometimes a cap over the services joined with
    their category and municipality. */
module ServicosPublico {
  import opened Common
  import opened Sorting
  import opened Text

  /** One row of `servicos` joined with its municipality, and with its
      category when that category row exists (`categoriaOrdem` is None
      otherwise, and the INNER JOIN on categories drops the row). */
  datatype ServiceRow = ServiceRow(
    id: int,
    nome: string,
    categoriaId: int,
    categoriaOrdem: Option<int>,
    municipioId: int,
    municipioNome: string,
    ativo: bool,
    atendimento24h: bool,
    latitude: Option<real>,
    longitude: Option<real>)

  /** One `categorias_servicos` row. */
  datatype Category = Category(id: int, nome: string, ordem: int)

  /** A `proximos` result: the service and its distance in kilometres. */
  datatype Nearby = Nearby(service: ServiceRow, distanciaKm: real)

  const EarthRadiusKm: real := 6371.0
  const DefaultRadiusKm: real := 10.0
  const NearbyLimit: nat := 30
  const DeamCategory := 1

  const InvalidMunicipality := "ID do município inválido"
  const InvalidCoordinates := "Coordenadas inválidas"

  predicate Joined(s: ServiceRow)
  {
    s.categoriaOrdem.Some?
  }

  // ---------------------------------------------------------------
  // Orders

  /** ORDER BY ordem ASC on categories. */
  function CategoryLe(): (Category, Category) -> bool
  {
    (a: Category, b: Category) => a.ordem <= b.ordem
  }

  /* Names are ordered by the connection's collation, utf8mb4_unicode_ci,
     which ignores case and accents. `key` is that collation's sort key (what
     MySQL's WEIGHT_STRING returns): two names compare as their keys do in
     code-point order, and names with equal keys tie, so the next column
     decides. */

  /** ORDER BY atendimento_24h DESC, c.ordem ASC, s.nome ASC. */
  predicate MunicipalityLe(key: string -> string, a: ServiceRow, b: ServiceRow)
  {
    if a.atendimento24h != b.atendimento24h then a.atendimento24h
    else if a.categoriaOrdem.GetOr(0) != b.categoriaOrdem.GetOr(0) then a.categoriaOrdem.GetOr(0) < b.categoriaOrdem.GetOr(0)
    else StrLe(key(a.nome), key(b.nome))
  }

  /** ORDER BY m.nome ASC, s.nome ASC. */
  predicate DeamLe(key: string -> string, a: ServiceRow, b: ServiceRow)
  {
    if key(a.municipioNome) != key(b.municipioNome) then StrLe(key(a.municipioNome), key(b.municipioNome))
    else StrLe(key(a.nome), key(b.nome))
  }

  /** ORDER BY m.nome ASC, c.ordem ASC, s.nome ASC. */
  predicate ListingLe(key: string -> string, a: ServiceRow, b: ServiceRow)
  {
    if key(a.municipioNome) != key(b.municipioNome) then StrLe(key(a.municipioNome), key(b.municipioNome))
    else if a.categoriaOrdem.GetOr(0) != b.categoriaOrdem.GetOr(0) then a.categoriaOrdem.GetOr(0) < b.categoriaOrdem.GetOr(0)
    else StrLe(key(a.nome), key(b.nome))
  }

  /** ORDER BY distancia_km ASC. */
  function NearestFirst(): (Nearby, Nearby) -> bool
  {
    (a: Nearby, b: Nearby) => a.distanciaKm <= b.distanciaKm
  }

  /** Two different strings are ordered one way strictly. */
  lemma StrLeStrict(a: string, b: string)
    requires a != b
    ensures StrLe(a, b) != StrLe(b, a)
  {
    StrLeTotal(a, b);
    if StrLe(a, b) && StrLe(b, a) {
      StrLeAntisymmetric(a, b);
    }
  }

  lemma MunicipalityLeIsPreorder(key: string -> string)
    ensures TotalPreorder((a: ServiceRow, b: ServiceRow) => MunicipalityLe(key, a, b))
  {
    forall a: ServiceRow, b: ServiceRow ensures MunicipalityLe(key, a, b) || MunicipalityLe(key, b, a) {
      StrLeTotal(key(a.nome), key(b.nome));
    }
    forall a: ServiceRow, b: ServiceRow, c: ServiceRow | MunicipalityLe(key, a, b) && MunicipalityLe(key, b, c)
      ensures MunicipalityLe(key, a, c)
    {
      if a.atendimento24h == b.atendimento24h == c.atendimento24h
         && a.categoriaOrdem.GetOr(0) == b.categoriaOrdem.GetOr(0) == c.categoriaOrdem.GetOr(0) {
        StrLeTransitive(key(a.nome), key(b.nome), key(c.nome));
      }
    }
  }

  lemma DeamLeIsPreorder(key: string -> string)
    ensures TotalPreorder((a: ServiceRow, b: ServiceRow) => DeamLe(key, a, b))
  {
    forall a: ServiceRow, b: ServiceRow ensures DeamLe(key, a, b) || DeamLe(key, b, a) {
      StrLeTotal(key(a.municipioNome), key(b.municipioNome));
      StrLeTotal(key(a.nome), key(b.nome));
    }
    forall a: ServiceRow, b: ServiceRow, c: ServiceRow | DeamLe(key, a, b) && DeamLe(key, b, c)
      ensures DeamLe(key, a, c)
    {
      NamePairTransitive(key, a, b, c);
    }
  }

  lemma NamePairTransitive(key: string -> string, a: ServiceRow, b: ServiceRow, c: ServiceRow)
    requires DeamLe(key, a, b) && DeamLe(key, b, c)
    ensures DeamLe(key, a, c)
  {
    var x, y, z := key(a.municipioNome), key(b.municipioNome), key(c.municipioNome);
    if x == y && y == z {
      StrLeTransitive(key(a.nome), key(b.nome), key(c.nome));
    } else if x != y && y != z {
      StrLeTransitive(x, y, z);
      StrLeStrict(x, y);
    }
  }

  lemma ListingLeIsPreorder(key: string -> string)
    ensures TotalPreorder((a: ServiceRow, b: ServiceRow) => ListingLe(key, a, b))
  {
    forall a: ServiceRow, b: ServiceRow ensures ListingLe(key, a, b) || ListingLe(key, b, a) {
      StrLeTotal(key(a.municipioNome), key(b.municipioNome));
      StrLeTotal(key(a.nome), key(b.nome));
    }
    forall a: ServiceRow, b: ServiceRow, c: ServiceRow | ListingLe(key, a, b) && ListingLe(key, b, c)
      ensures ListingLe(key, a, c)
    {
      ListingTransitive(key, a, b, c);
    }
  }

  lemma ListingTransitive(key: string -> string, a: ServiceRow, b: ServiceRow, c: ServiceRow)
    requires ListingLe(key, a, b) && ListingLe(key, b, c)
    ensures ListingLe(key, a, c)
  {
    var x, y, z := key(a.municipioNome), key(b.municipioNome), key(c.municipioNome);
    if x == y && y == z {
      if a.categoriaOrdem.GetOr(0) == b.categoriaOrdem.GetOr(0) == c.categoriaOrdem.GetOr(0) {
        StrLeTransitive(key(a.nome), key(b.nome), key(c.nome));
      }
    } else if x != y && y != z {
      StrLeTransitive(x, y, z);
      StrLeStrict(x, y);
    }
  }

  // ---------------------------------------------------------------
  // The actions

  datatype Action = Categorias | PorMunicipio | Proximos | Deams | Listar

  /** `acao` defaults to `listar`, and any unknown value lists too. */
  function RouteAction(acao: Option<string>): (a: Action)
    ensures acao.None? ==> a == Listar
    ensures a == Proximos <==> acao == Some("proximos")
    ensures a == Listar <==> acao !in {Some("categorias"), Some("por-municipio"), Some("proximos"), Some("deams")}
  {
    match acao.GetOr("listar")
    case "categorias" => Categorias
    case "por-municipio" => PorMunicipio
    case "proximos" => Proximos
    case "deams" => Deams
    case _ => Listar
  }

  /** `categorias`: every category by ascending `ordem`. */
  function ListCategories(categories: seq<Category>): (r: seq<Category>)
    ensures multiset(r) == multiset(categories)
    ensures forall i, j :: 0 <= i < j < |r| ==> r[i].ordem <= r[j].ordem
  {
    SortBy(categories, CategoryLe())
  }

  predicate InMunicipality(municipioId: int, categoriaId: Option<int>, s: ServiceRow)
  {
    && s.ativo && Joined(s) && s.municipioId == municipioId
    && (categoriaId.Some? && categoriaId.value != 0 ==> s.categoriaId == categoriaId.value)
  }

  /** `por-municipio`: a missing or non-positive municipality id is refused;
      a zero category id means no category filter. */
  function ByMunicipality(key: string -> string, rows: seq<ServiceRow>, municipioId: Option<int>, categoriaId: Option<int>): (r: Response<seq<ServiceRow>>)
    ensures municipioId.GetOr(0) <= 0 <==> r == Error(400, InvalidMunicipality)
  {
    var m := municipioId.GetOr(0);
    if m <= 0 then Error(400, InvalidMunicipality)
    else
      MunicipalityLeIsPreorder(key);
      Success(200, SortBy(Filter(rows, (s: ServiceRow) => InMunicipality(m, categoriaId, s)),
                          (a: ServiceRow, b: ServiceRow) => MunicipalityLe(key, a, b)))
  }

  /** The rows of `por-municipio` are exactly the matching rows, 24-hour
      services first, then by category order, then by name. */
  lemma ByMunicipalityRows(key: string -> string, rows: seq<ServiceRow>, municipioId: int, categoriaId: Option<int>)
    requires municipioId > 0
    ensures ByMunicipality(key, rows, Some(municipioId), categoriaId).Success?
    ensures var r := ByMunicipality(key, rows, Some(municipioId), categoriaId).data;
      && (forall s :: s in r <==> s in rows && InMunicipality(municipioId, categoriaId, s))
      && (forall i, j :: 0 <= i < j < |r| ==> MunicipalityLe(key, r[i], r[j]))
      && (forall i, j :: 0 <= i < j < |r| && r[j].atendimento24h ==> r[i].atendimento24h)
  {
    MunicipalityLeIsPreorder(key);
    var le := (a: ServiceRow, b: ServiceRow) => MunicipalityLe(key, a, b);
    var f := Filter(rows, (s: ServiceRow) => InMunicipality(municipioId, categoriaId, s));
    var r := ByMunicipality(key, rows, Some(municipioId), categoriaId).data;
    assert r == SortBy(f, le);
    forall s ensures s in r <==> s in f {
      SortByMembers(f, le, s);
    }
    assert Sorted(r, le);
  }

  /** The great-circle distance in kilometres by the spherical law of
      cosines; `angle` is the central angle in radians that the SQL
      computes with acos, cos, sin and radians. */
  function DistanceKm(angle: (real, real, real, real) -> real, lat: real, lng: real, s: ServiceRow): real
    requires s.latitude.Some? && s.longitude.Some?
  {
    EarthRadiusKm * angle(lat, lng, s.latitude.value, s.longitude.value)
  }

  predicate Located(s: ServiceRow)
  {
    s.ativo && Joined(s) && s.latitude.Some? && s.longitude.Some?
  }

  /** The candidates of `proximos` with their distance, in storage order:
      the WHERE clause and the HAVING clause. */
  function Candidates(rows: seq<ServiceRow>, angle: (real, real, real, real) -> real, lat: real, lng: real, raio: real): (r: seq<Nearby>)
    ensures forall n :: n in r <==>
      n.service in rows && Located(n.service)
      && n.distanciaKm == DistanceKm(angle, lat, lng, n.service)
      && n.distanciaKm < raio
  {
    if rows == [] then []
    else
      var init := rows[..|rows| - 1];
      var s := rows[|rows| - 1];
      assert rows == init + [s];
      assert forall x :: x in rows <==> x in init || x == s;
      Candidates(init, angle, lat, lng, raio) +
        (if Located(s) && DistanceKm(angle, lat, lng, s) < raio then [Nearby(s, DistanceKm(angle, lat, lng, s))] else [])
  }

  /** `proximos` as intended, with a query the driver accepts: missing or
      zero coordinates are refused; the radius defaults to 10 km; the
      nearest 30 candidates, nearest first. */
  function Nearest(rows: seq<ServiceRow>, angle: (real, real, real, real) -> real,
                   lat: Option<real>, lng: Option<real>, raio: Option<real>): (r: Response<seq<Nearby>>)
    ensures r.Error? <==> lat.GetOr(0.0) == 0.0 || lng.GetOr(0.0) == 0.0
    ensures r.Error? ==> r == Error(400, InvalidCoordinates)
    ensures r.Success? ==> |r.data| <= NearbyLimit
  {
    var la, ln := lat.GetOr(0.0), lng.GetOr(0.0);
    if la == 0.0 || ln == 0.0 then Error(400, InvalidCoordinates)
    else Success(200, Take(SortBy(Candidates(rows, angle, la, ln, raio.GetOr(DefaultRadiusKm)), NearestFirst()), NearbyLimit))
  }

  /** The prefix of the 500 reply to a query that fails. */
  const NearbyError := "Erro ao buscar serviços: "

  /** The named placeholders of the `proximos` query in order of appearance:
      as written `:lat` appears twice, once in the cosine and once in the
      sine; the intended query names the two uses apart. */
  const NearbyPlaceholdersAsWritten: seq<string> := [":lat", ":lng", ":lat", ":raio"]
  const NearbyPlaceholdersIntended: seq<string> := [":lat1", ":lng", ":lat2", ":raio"]

  /** The connection prepares statements natively (emulation is off), and a
      native prepare takes each named placeholder once; a repeated name
      fails with SQLSTATE HY093, which the connection raises as an
      exception. */
  predicate NativePrepareAccepts(names: seq<string>)
  {
    forall i, j :: 0 <= i < j < |names| ==> names[i] != names[j]
  }

  lemma NearbyPlaceholdersChecked()
    ensures !NativePrepareAccepts(NearbyPlaceholdersAsWritten)
    ensures NativePrepareAccepts(NearbyPlaceholdersIntended)
  {
    assert NearbyPlaceholdersAsWritten[0] == NearbyPlaceholdersAsWritten[2];
  }

  /** `proximos` over the placeholder names its query uses: the coordinate
      check comes first, then a query the driver refuses is caught and
      answered 500, and an accepted one answers as intended. */
  function NearestPrepared(rows: seq<ServiceRow>, angle: (real, real, real, real) -> real,
                           lat: Option<real>, lng: Option<real>, raio: Option<real>,
                           names: seq<string>): (r: Response<seq<Nearby>>)
    ensures r == Error(400, InvalidCoordinates) <==> lat.GetOr(0.0) == 0.0 || lng.GetOr(0.0) == 0.0
    ensures r == Error(500, NearbyError) <==>
      lat.GetOr(0.0) != 0.0 && lng.GetOr(0.0) != 0.0 && !NativePrepareAccepts(names)
    ensures NativePrepareAccepts(names) ==> r == Nearest(rows, angle, lat, lng, raio)
  {
    if lat.GetOr(0.0) == 0.0 || lng.GetOr(0.0) == 0.0 then Error(400, InvalidCoordinates)
    else if !NativePrepareAccepts(names) then Error(500, NearbyError)
    else Nearest(rows, angle, lat, lng, raio)
  }

  /** `proximos` as written never answers 200: coordinates that pass the
      check reach a query the driver refuses. */
  function NearestAsWritten(rows: seq<ServiceRow>, angle: (real, real, real, real) -> real,
                            lat: Option<real>, lng: Option<real>, raio: Option<real>): (r: Response<seq<Nearby>>)
    ensures r.Error?
    ensures r == Error(400, InvalidCoordinates) <==> lat.GetOr(0.0) == 0.0 || lng.GetOr(0.0) == 0.0
    ensures r == Error(500, NearbyError) <==> lat.GetOr(0.0) != 0.0 && lng.GetOr(0.0) != 0.0
  {
    NearbyPlaceholdersChecked();
    NearestPrepared(rows, angle, lat, lng, raio, NearbyPlaceholdersAsWritten)
  }

  /** With distinct placeholder names the query answers as `Nearest`. */
  lemma NearestIntended(rows: seq<ServiceRow>, angle: (real, real, real, real) -> real,
                        lat: Option<real>, lng: Option<real>, raio: Option<real>)
    ensures NearestPrepared(rows, angle, lat, lng, raio, NearbyPlaceholdersIntended) == Nearest(rows, angle, lat, lng, raio)
  {
    NearbyPlaceholdersChecked();
  }

  lemma NearestIsCappedSort(rows: seq<ServiceRow>, angle: (real, real, real, real) -> real, lat: real, lng: real, raio: Option<real>)
    requires lat != 0.0 && lng != 0.0
    ensures Nearest(rows, angle, Some(lat), Some(lng), raio)
         == Success(200, Take(SortBy(Candidates(rows, angle, lat, lng, raio.GetOr(DefaultRadiusKm)), NearestFirst()), NearbyLimit))
  {
  }

  /** Every row `proximos` returns is an active located service strictly
      inside the radius, with its own distance. */
  lemma NearestMembers(rows: seq<ServiceRow>, angle: (real, real, real, real) -> real, lat: real, lng: real, raio: Option<real>)
    requires lat != 0.0 && lng != 0.0
    ensures var resp := Nearest(rows, angle, Some(lat), Some(lng), raio);
      && resp.Success?
      && forall n :: n in resp.data ==>
           n.service in rows && n.service.ativo && n.service.latitude.Some? && n.service.longitude.Some?
           && n.distanciaKm == DistanceKm(angle, lat, lng, n.service) && n.distanciaKm < raio.GetOr(DefaultRadiusKm)
  {
    var cands := Candidates(rows, angle, lat, lng, raio.GetOr(DefaultRadiusKm));
    NearestIsCappedSort(rows, angle, lat, lng, raio);
    TakeSortedKeepsSmallest(cands, NearestFirst(), NearbyLimit);
    CappedRowsAreCandidates(cands, Take(SortBy(cands, NearestFirst()), NearbyLimit));
  }

  /** `proximos` returns its candidates nearest first, at most 30, and none
      left out is nearer than one returned. */
  lemma NearestOrder(rows: seq<ServiceRow>, angle: (real, real, real, real) -> real, lat: real, lng: real, raio: Option<real>)
    requires lat != 0.0 && lng != 0.0
    ensures var resp := Nearest(rows, angle, Some(lat), Some(lng), raio);
      var cands := Candidates(rows, angle, lat, lng, raio.GetOr(DefaultRadiusKm));
      && resp.Success?
      && |resp.data| == (if |cands| < NearbyLimit then |cands| else NearbyLimit)
      && (forall i, j :: 0 <= i < j < |resp.data| ==> resp.data[i].distanciaKm <= resp.data[j].distanciaKm)
      && (forall n, m :: n in resp.data && m in multiset(cands) - multiset(resp.data) ==> n.distanciaKm <= m.distanciaKm)
  {
    NearestIsCappedSort(rows, angle, lat, lng, raio);
    CapNearest(Candidates(rows, angle, lat, lng, raio.GetOr(DefaultRadiusKm)));
  }

  lemma CapNearest(cands: seq<Nearby>)
    ensures var r := Take(SortBy(cands, NearestFirst()), NearbyLimit);
      && |r| == (if |cands| < NearbyLimit then |cands| else NearbyLimit)
      && (forall i, j :: 0 <= i < j < |r| ==> r[i].distanciaKm <= r[j].distanciaKm)
      && (forall n, m :: n in r && m in multiset(cands) - multiset(r) ==> n.distanciaKm <= m.distanciaKm)
  {
    var le := NearestFirst();
    NearestFirstIsPreorder();
    TakeSortedKeepsSmallest(cands, le, NearbyLimit);
    var r := Take(SortBy(cands, le), NearbyLimit);
    forall i, j | 0 <= i < j < |r| ensures r[i].distanciaKm <= r[j].distanciaKm {
      assert le(r[i], r[j]);
    }
    forall n, m | n in r && m in multiset(cands) - multiset(r) ensures n.distanciaKm <= m.distanciaKm {
      assert n in multiset(r);
      assert le(n, m);
    }
  }

  lemma NearestFirstIsPreorder()
    ensures TotalPreorder(NearestFirst())
  {
  }

  lemma CappedRowsAreCandidates(cands: seq<Nearby>, r: seq<Nearby>)
    requires multiset(r) <= multiset(cands)
    ensures forall n :: n in r ==> n in cands
  {
    forall n | n in r ensures n in cands {
      assert n in multiset(r);
    }
  }

  /** With no radius given, a service 10 km away or more is never returned. */
  lemma DefaultRadius(rows: seq<ServiceRow>, angle: (real, real, real, real) -> real, lat: real, lng: real)
    requires lat != 0.0 && lng != 0.0
    ensures forall n :: n in Nearest(rows, angle, Some(lat), Some(lng), None).data ==> n.distanciaKm < 10.0
  {
    NearestMembers(rows, angle, lat, lng, None);
  }

  predicate IsDeam(s: ServiceRow)
  {
    s.ativo && s.categoriaId == DeamCategory && LikeContains(s.nome, "DEAM")
  }

  /** `deams`: active services of category 1 whose name contains DEAM in
      any case, by municipality name then name. This query joins only the
      municipality, so a missing category row does not drop a service. */
  function ListDeams(key: string -> string, rows: seq<ServiceRow>): (r: seq<ServiceRow>)
    ensures forall s :: s in r <==> s in rows && IsDeam(s)
    ensures forall i, j :: 0 <= i < j < |r| ==> DeamLe(key, r[i], r[j])
  {
    DeamLeIsPreorder(key);
    var le := (a: ServiceRow, b: ServiceRow) => DeamLe(key, a, b);
    var f := Filter(rows, IsDeam);
    var r := SortBy(f, le);
    forall s ensures s in r <==> s in f {
      SortByMembers(f, le, s);
    }
    assert Sorted(r, le);
    r
  }

  predicate Listed(s: ServiceRow)
  {
    s.ativo && Joined(s)
  }

  /** The default listing: every active service, by municipality name,
      category order and name. */
  function ListAll(key: string -> string, rows: seq<ServiceRow>): (r: seq<ServiceRow>)
    ensures forall s :: s in r <==> s in rows && Listed(s)
    ensures forall i, j :: 0 <= i < j < |r| ==> ListingLe(key, r[i], r[j])
    ensures |r| == Count(rows, Listed)
  {
    ListingLeIsPreorder(key);
    var le := (a: ServiceRow, b: ServiceRow) => ListingLe(key, a, b);
    var f := Filter(rows, Listed);
    var r := SortBy(f, le);
    forall s ensures s in r <==> s in f {
      SortByMembers(f, le, s);
    }
    assert Sorted(r, le);
    r
  }
}
