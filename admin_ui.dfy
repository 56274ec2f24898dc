/** backend/admin.js: the pieces of the administration panel's script that
    decide what is shown or sent: HTML escaping, status labels, the URL of
    the filtered demand list and the action a service form posts to. */
module AdminUi {
  import DemandasAdmin
  import ServicosAdmin
  import opened Common

  // ---------------------------------------------------------------
  // escapeHtml

  /** The entity each of the five special characters is replaced with;
      every other character stands for itself. */
  function EscapeChar(c: char): string
  {
    match c
    case '&' => "&amp;"
    case '<' => "&lt;"
    case '>' => "&gt;"
    case '"' => "&quot;"
    case '\'' => "&#039;"
    case _ => [c]
  }

  predicate IsSpecial(c: char)
  {
    c == '&' || c == '<' || c == '>' || c == '"' || c == '\''
  }

  /** A character that would open or close a tag or an attribute value. */
  predicate IsMarkup(c: char)
  {
    c == '<' || c == '>' || c == '"' || c == '\''
  }

  /** escapeHtml(): every special character replaced by its entity, in one
      left-to-right pass. The result holds no character that could open a
      tag or leave an attribute value, and is never shorter. */
  function EscapeHtml(s: string): (r: string)
    ensures forall i :: 0 <= i < |r| ==> !IsMarkup(r[i])
    ensures |r| >= |s|
  {
    if s == [] then [] else EscapeChar(s[0]) + EscapeHtml(s[1..])
  }

  /** Escaping works character by character. */
  lemma {:induction false} EscapeConcat(a: string, b: string)
    ensures EscapeHtml(a + b) == EscapeHtml(a) + EscapeHtml(b)
  {
    if a != [] {
      var e := EscapeChar(a[0]);
      assert (a + b)[0] == a[0];
      assert (a + b)[1..] == a[1..] + b;
      EscapeConcat(a[1..], b);
      assert EscapeHtml(a + b) == e + (EscapeHtml(a[1..]) + EscapeHtml(b));
      assert EscapeHtml(a) == e + EscapeHtml(a[1..]);
    } else {
      assert a + b == b;
    }
  }

  /** A string without special characters is left as it is. */
  lemma {:induction false} EscapeClean(s: string)
    requires forall i :: 0 <= i < |s| ==> !IsSpecial(s[i])
    ensures EscapeHtml(s) == s
  {
    if s != [] {
      EscapeClean(s[1..]);
    }
  }

  /** The entity `s` starts with, as the character it stands for and its
      length. */
  function EntityAt(s: string): (r: Option<(char, nat)>)
    ensures r.Some? ==> 0 < r.value.1 <= |s|
  {
    if |s| >= 5 && s[0] == '&' && s[1] == 'a' && s[2] == 'm' && s[3] == 'p' && s[4] == ';' then Some(('&', 5))
    else if |s| >= 4 && s[0] == '&' && s[1] == 'l' && s[2] == 't' && s[3] == ';' then Some(('<', 4))
    else if |s| >= 4 && s[0] == '&' && s[1] == 'g' && s[2] == 't' && s[3] == ';' then Some(('>', 4))
    else if |s| >= 6 && s[0] == '&' && s[1] == 'q' && s[2] == 'u' && s[3] == 'o' && s[4] == 't' && s[5] == ';'
    then Some(('"', 6))
    else if |s| >= 6 && s[0] == '&' && s[1] == '#' && s[2] == '0' && s[3] == '3' && s[4] == '9' && s[5] == ';'
    then Some(('\'', 6))
    else None
  }

  /** Reads the five entities back; the partner of EscapeHtml. */
  function Unescape(s: string): string
    decreases |s|
  {
    if s == [] then []
    else
      match EntityAt(s)
      case Some((c, n)) => [c] + Unescape(s[n..])
      case None => [s[0]] + Unescape(s[1..])
  }

  lemma UnescapeStep(c: char, t: string)
    ensures Unescape(EscapeChar(c) + t) == [c] + Unescape(t)
  {
    var e := EscapeChar(c);
    var s := e + t;
    assert s[|e|..] == t;
    if IsSpecial(c) {
      assert forall i :: 0 <= i < |e| ==> s[i] == e[i];
      assert EntityAt(s) == Some((c, |e|));
    } else {
      assert s[0] == c && s[1..] == t;
    }
  }

  /** Escaping loses nothing: the entities read back to the original. */
  lemma {:induction false} EscapeRoundTrip(s: string)
    ensures Unescape(EscapeHtml(s)) == s
  {
    if s != [] {
      UnescapeStep(s[0], EscapeHtml(s[1..]));
      EscapeRoundTrip(s[1..]);
    }
  }

  /** Two different texts never show as the same markup. */
  lemma EscapeInjective(a: string, b: string)
    requires EscapeHtml(a) == EscapeHtml(b)
    ensures a == b
  {
    EscapeRoundTrip(a);
    EscapeRoundTrip(b);
  }

  // ---------------------------------------------------------------
  // traduzirStatus

  /** The label of a demand status: the four statuses the demand API
      accepts get their own label, any other value is shown as it is. */
  function TraduzirStatus(status: string): (shown: string)
    ensures shown == status <==> status !in DemandasAdmin.AllowedStatuses
    ensures shown != "" <==> status != ""
  {
    match status
    case "pendente" => "Pendente"
    case "em_andamento" => "Em Andamento"
    case "resolvido" => "Resolvido"
    case "cancelado" => "Cancelado"
    case _ => status
  }

  /** Different accepted statuses get different labels. */
  lemma LabelsDistinct(a: string, b: string)
    requires a in DemandasAdmin.AllowedStatuses && b in DemandasAdmin.AllowedStatuses
    requires a != b
    ensures TraduzirStatus(a) != TraduzirStatus(b)
  {
  }

  /** A label is never itself an accepted status, so translating twice
      changes nothing. */
  lemma TranslateIdempotent(status: string)
    ensures TraduzirStatus(TraduzirStatus(status)) == TraduzirStatus(status)
    ensures TraduzirStatus(status) !in DemandasAdmin.AllowedStatuses
  {
  }

  // ---------------------------------------------------------------
  // The URL of filtrarDemandas

  const ApiBase := "./backend/"
  const ListEndpoint := ApiBase + "demandas_admin_api.php"
  const ListUrl := ListEndpoint + "?" + FixedQuery

  datatype Param = Param(key: string, value: string)

  /** One parameter as it is appended to the URL. */
  function RenderParam(p: Param): string
  {
    "&" + p.key + "=" + p.value
  }

  /** Parameters rendered one after the other. */
  function RenderParams(ps: seq<Param>): string
  {
    if ps == [] then "" else RenderParam(ps[0]) + RenderParams(ps[1..])
  }

  /** The parameters `filtrarDemandas` adds to the fixed listing URL:
      status, lida and busca, in that order, each only when the field is
      non-empty; `encode` stands for encodeURIComponent(), which only the
      search text goes through. */
  function FilterParams(status: string, lida: string, busca: string, encode: string -> string): seq<Param>
  {
    (if status != "" then [Param("status", status)] else [])
    + (if lida != "" then [Param("lida", lida)] else [])
    + (if busca != "" then [Param("busca", encode(busca))] else [])
  }

  lemma {:induction false} RenderConcat(a: seq<Param>, b: seq<Param>)
    ensures RenderParams(a + b) == RenderParams(a) + RenderParams(b)
  {
    if a != [] {
      assert (a + b)[0] == a[0];
      assert (a + b)[1..] == a[1..] + b;
      RenderConcat(a[1..], b);
    } else {
      assert a + b == b;
    }
  }

  lemma AppendParam(base: string, url: string, added: seq<Param>, p: Param)
    requires url == base + RenderParams(added)
    ensures url + RenderParam(p) == base + RenderParams(added + [p])
  {
    RenderConcat(added, [p]);
    RenderSingle(p);
    AppendAssoc(base, RenderParams(added), RenderParam(p));
  }

  lemma AppendAssoc<T>(a: seq<T>, b: seq<T>, c: seq<T>)
    ensures (a + b) + c == a + (b + c)
  {
  }

  lemma RenderSingle(p: Param)
    ensures RenderParams([p]) == RenderParam(p)
  {
    assert [p][1..] == [];
  }

  /** filtrarDemandas() building its URL with `url +=`. */
  method FiltrarDemandasUrl(status: string, lida: string, busca: string, encode: string -> string)
    returns (url: string)
    ensures url == ListUrl + RenderParams(FilterParams(status, lida, busca, encode))
  {
    url := ListUrl;
    ghost var added: seq<Param> := [];
    if status != "" {
      AppendParam(ListUrl, url, added, Param("status", status));
      assert "&status=" + status == RenderParam(Param("status", status));
      url := url + ("&status=" + status);
      added := added + [Param("status", status)];
    }
    if lida != "" {
      AppendParam(ListUrl, url, added, Param("lida", lida));
      assert "&lida=" + lida == RenderParam(Param("lida", lida));
      url := url + ("&lida=" + lida);
      added := added + [Param("lida", lida)];
    }
    if busca != "" {
      AppendParam(ListUrl, url, added, Param("busca", encode(busca)));
      assert "&busca=" + encode(busca) == RenderParam(Param("busca", encode(busca)));
      url := url + ("&busca=" + encode(busca));
      added := added + [Param("busca", encode(busca))];
    }
    assert added == FilterParams(status, lida, busca, encode);
  }

  /** The position of the first `c` in `s`, or |s|. */
  function IndexOf(s: string, c: char): (k: nat)
    ensures k <= |s|
    ensures forall i :: 0 <= i < k ==> s[i] != c
    ensures k < |s| ==> s[k] == c
  {
    if s == [] || s[0] == c then 0 else 1 + IndexOf(s[1..], c)
  }

  /** Reads "&key=value" parameters back, as a server splits a query
      string at '&' and each piece at its first '='. */
  function ParseParams(s: string): seq<Param>
    decreases |s|
  {
    if s == [] || s[0] != '&' then []
    else
      var rest := s[1..];
      var n := IndexOf(rest, '&');
      [PieceParam(rest[..n])] + ParseParams(rest[n..])
  }

  /** One "key=value" piece split at its first '='; a piece without one
      is a key with an empty value. */
  function PieceParam(piece: string): Param
  {
    var e := IndexOf(piece, '=');
    Param(piece[..e], if e < |piece| then piece[e + 1..] else "")
  }

  lemma PieceOfPlain(p: Param)
    requires '=' !in p.key
    ensures PieceParam(p.key + ("=" + p.value)) == p
  {
    var kv := p.key + ("=" + p.value);
    IndexOfPrefix(p.key, "=" + p.value, '=');
    assert kv[..|p.key|] == p.key;
    assert kv[|p.key| + 1..] == p.value;
  }

  lemma IndexOfPrefix(a: string, b: string, c: char)
    requires c !in a
    requires b == [] || b[0] == c
    ensures IndexOf(a + b, c) == |a|
  {
    assert forall i :: 0 <= i < |a| ==> (a + b)[i] == a[i] && a[i] in a;
    if b != [] {
      assert (a + b)[|a|] == c;
    }
  }

  /** A parameter that can travel in a query string unharmed. */
  predicate Plain(p: Param)
  {
    '&' !in p.key && '=' !in p.key && '&' !in p.value
  }

  lemma RenderStartsWithAmp(ps: seq<Param>)
    ensures RenderParams(ps) == [] || RenderParams(ps)[0] == '&'
  {
  }

  /** One plain parameter followed by further parameters parses as that
      parameter followed by the parse of the rest. */
  lemma ParseStep(p: Param, tail: string)
    requires Plain(p)
    requires tail == [] || tail[0] == '&'
    ensures ParseParams(RenderParam(p) + tail) == [p] + ParseParams(tail)
  {
    var kv := p.key + ("=" + p.value);
    var rest := kv + tail;
    var s := RenderParam(p) + tail;
    assert s == "&" + rest;
    assert s[1..] == rest;
    assert '&' !in kv;
    IndexOfPrefix(kv, tail, '&');
    assert rest[..|kv|] == kv && rest[|kv|..] == tail;
    PieceOfPlain(p);
  }

  /** Rendering and parsing are inverse for plain parameters. */
  lemma {:induction false} ParamsRoundTrip(ps: seq<Param>)
    requires forall i :: 0 <= i < |ps| ==> Plain(ps[i])
    ensures ParseParams(RenderParams(ps)) == ps
  {
    if ps != [] {
      var tail := RenderParams(ps[1..]);
      assert RenderParams(ps) == RenderParam(ps[0]) + tail;
      RenderStartsWithAmp(ps[1..]);
      ParseStep(ps[0], tail);
      ParamsRoundTrip(ps[1..]);
      assert ps == [ps[0]] + ps[1..];
    }
  }

  const FixedQuery := "action=listar&limite=50"
  const FixedParams := [Param("action", "listar"), Param("limite", "50")]

  lemma FixedQueryRendered()
    ensures "&" + FixedQuery == RenderParams(FixedParams)
  {
    assert RenderParams(FixedParams[1..]) == "&limite=50";
  }

  /** The filtered URL is the listing endpoint followed by a query that
      reads back as the listing action, the page size and exactly the
      non-empty filters in order, as long as the status and read-flag
      values hold no '&' and the encoded search holds none either
      (encodeURIComponent escapes it). */
  lemma FilterUrlReadsBack(status: string, lida: string, busca: string, encode: string -> string)
    requires '&' !in status && '&' !in lida && '&' !in encode(busca)
    ensures var url := ListUrl + RenderParams(FilterParams(status, lida, busca, encode));
      && url == ListEndpoint + "?" + url[|ListEndpoint| + 1..]
      && ParseParams("&" + url[|ListEndpoint| + 1..]) == FixedParams + FilterParams(status, lida, busca, encode)
  {
    var fs := FilterParams(status, lida, busca, encode);
    UrlSplits(RenderParams(fs));
    FixedQueryRendered();
    RenderConcat(FixedParams, fs);
    AppendAssoc("&", FixedQuery, RenderParams(fs));
    AllPlain(status, lida, busca, encode);
    ParamsRoundTrip(FixedParams + fs);
  }

  lemma UrlSplits(r: string)
    ensures var url := ListUrl + r;
      url == ListEndpoint + "?" + url[|ListEndpoint| + 1..] && url[|ListEndpoint| + 1..] == FixedQuery + r
  {
    var head := ListEndpoint + "?";
    var url := ListUrl + r;
    assert url == head + (FixedQuery + r);
    assert url[|head|..] == FixedQuery + r;
  }

  lemma AllPlain(status: string, lida: string, busca: string, encode: string -> string)
    requires '&' !in status && '&' !in lida && '&' !in encode(busca)
    ensures var all := FixedParams + FilterParams(status, lida, busca, encode);
      forall i :: 0 <= i < |all| ==> Plain(all[i])
  {
    assert Plain(Param("action", "listar")) && Plain(Param("limite", "50"));
    assert Plain(Param("status", status)) && Plain(Param("lida", lida)) && Plain(Param("busca", encode(busca)));
  }

  /** The action the URL carries is the listing one of the demand API. */
  lemma FilterUrlLists(httpMethod: string)
    ensures DemandasAdmin.Route("listar", httpMethod) == Success(200, DemandasAdmin.List)
  {
  }

  // ---------------------------------------------------------------
  // salvarServico

  /** The action a service form posts to: an update when the hidden id
      field is filled, a creation otherwise. */
  function SalvarServicoAction(id: string): (action: string)
    ensures action == "atualizar" <==> id != ""
    ensures action == "criar" <==> id == ""
  {
    if id != "" then "atualizar" else "criar"
  }

  /** Posted to the service API, the form reaches the update handler
      exactly when it carries an id. */
  lemma SalvarServicoRouted(id: string)
    ensures ServicosAdmin.Route(SalvarServicoAction(id), "POST")
         == Success(200, if id != "" then ServicosAdmin.Update else ServicosAdmin.Create)
  {
  }
}
