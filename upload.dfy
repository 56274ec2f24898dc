/** backend/upload_imagem_api.php: image uploads for the site. An upload
    passes four checks in a fixed order, gets a file name (a sanitised
    custom name, a generated one, or a fixed banner name) and is recorded in
    the `imagens` table; deletion checks the id first. */
module Upload {
  import opened Common
  import opened Text

  /** The uploaded file as PHP reports it. `name` is already reduced to its
      last path component; `mime` is the type sniffed from the content. */
  datatype UploadedFile = UploadedFile(name: string, size: int, mime: string)

  /** One `imagens` row. */
  datatype Image = Image(nomeArquivo: string, tipo: string, caminho: string, tamanho: int,
                         adminId: int, dataUpload: int)

  /** The `arquivo` object of a successful reply. */
  datatype Stored = Stored(nome: string, tipo: string, caminho: string, tamanho: int, url: string)

  const MaxFileSize := 5 * 1024 * 1024
  const AllowedTypes: seq<string> := ["image/jpeg", "image/jpg", "image/png", "image/gif", "image/webp"]
  const AllowedExtensions: seq<string> := ["jpg", "jpeg", "png", "gif", "webp"]
  const UploadDir := "../frontend/"
  const StoredDir := "frontend/"

  const NoFile := "Nenhum arquivo foi enviado ou ocorreu um erro no upload"
  const TooLarge := "O arquivo é muito grande. Tamanho máximo: 5MB"
  const BadType := "Tipo de arquivo não permitido. Use JPG, PNG, GIF ou WebP"
  const BadExtension := "Extensão de arquivo não permitida"
  const SaveFailed := "Erro ao salvar o arquivo no servidor"
  const InvalidId := "ID inválido"
  const NotFound := "Imagem não encontrada"
  const MethodNotAllowed := "Método não permitido"
  const InvalidAction := "Ação inválida. Use: upload, listar ou deletar"
  const DeletedMessage := "Imagem deletada com sucesso"

  // ---------------------------------------------------------------
  // The extension and the checks

  /** What follows the last occurrence of `c`, or all of `s` without one. */
  function AfterLast(s: string, c: char): (r: string)
    ensures |r| <= |s| && r == s[|s| - |r|..]
    ensures c !in r
    ensures |r| < |s| ==> s[|s| - |r| - 1] == c
  {
    if s == [] || s[|s| - 1] == c then []
    else
      var r := AfterLast(s[..|s| - 1], c) + [s[|s| - 1]];
      assert s[..|s| - 1][|s| - |r|..] + [s[|s| - 1]] == s[|s| - |r|..];
      r
  }

  /** pathinfo(name, PATHINFO_EXTENSION): what follows the last dot, or
      the empty string when there is no dot. */
  function Extension(name: string): string
  {
    if '.' in name then AfterLast(name, '.') else ""
  }

  /** The extension of `base.ext` is `ext` whenever `ext` has no dot. */
  lemma {:induction false} ExtensionOfName(base: string, ext: string)
    requires '.' !in ext
    ensures Extension(base + "." + ext) == ext
  {
    var s := base + "." + ext;
    assert s[|base|] == '.';
    AfterLastOfSuffix(base + ".", ext);
  }

  lemma {:induction false} AfterLastOfSuffix(p: string, ext: string)
    requires p != [] && p[|p| - 1] == '.' && '.' !in ext
    ensures AfterLast(p + ext, '.') == ext
    decreases |ext|
  {
    if ext == [] {
      assert p + ext == p;
    } else {
      var s := p + ext;
      assert s[..|s| - 1] == p + ext[..|ext| - 1];
      assert ext[|ext| - 1] in ext;
      AfterLastOfSuffix(p, ext[..|ext| - 1]);
      assert ext[..|ext| - 1] + [ext[|ext| - 1]] == ext;
    }
  }

  /** The checks of `fazerUpload`, in order: a file was received, it is at
      most 5 MB, its sniffed type is an image type, and its lower-cased
      extension is an image extension. The first failure decides the 400
      reply; success yields the lower-cased extension. */
  function Validate(file: Option<UploadedFile>): (r: Response<string>)
    ensures r == Error(400, NoFile) <==> file.None?
    ensures r == Error(400, TooLarge) <==> file.Some? && file.value.size > MaxFileSize
    ensures r == Error(400, BadType) <==>
      file.Some? && file.value.size <= MaxFileSize && file.value.mime !in AllowedTypes
    ensures r == Error(400, BadExtension) <==>
      file.Some? && file.value.size <= MaxFileSize && file.value.mime in AllowedTypes
      && Lower(Extension(file.value.name)) !in AllowedExtensions
    ensures r.Success? ==> r.data == Lower(Extension(file.value.name)) && r.data in AllowedExtensions
  {
    if file.None? then Error(400, NoFile)
    else if file.value.size > MaxFileSize then Error(400, TooLarge)
    else if file.value.mime !in AllowedTypes then Error(400, BadType)
    else
      var ext := Lower(Extension(file.value.name));
      if ext !in AllowedExtensions then Error(400, BadExtension) else Success(200, ext)
  }

  /** The size limit is inclusive: exactly 5,242,880 bytes passes it, one
      byte more does not. */
  lemma SizeLimitInclusive(name: string, mime: string)
    ensures Validate(Some(UploadedFile(name, 5242880, mime))) != Error(400, TooLarge)
    ensures Validate(Some(UploadedFile(name, 5242881, mime))) == Error(400, TooLarge)
  {
  }

  /** The extension check ignores case: "foto.JPG" is accepted as "jpg". */
  lemma ExtensionCaseInsensitive(base: string, size: int)
    requires size <= MaxFileSize
    ensures Validate(Some(UploadedFile(base + ".JPG", size, "image/jpeg"))) == Success(200, "jpg")
  {
    assert base + ".JPG" == base + "." + "JPG";
    ExtensionOfName(base, "JPG");
    LowerJpg();
    assert "jpg" == AllowedExtensions[0];
    assert "image/jpeg" == AllowedTypes[0];
  }

  lemma LowerJpg()
    ensures Lower("JPG") == "jpg"
  {
    var r := Lower("JPG");
    assert r[0] == 'j' && r[1] == 'p' && r[2] == 'g';
  }

  // ---------------------------------------------------------------
  // File names

  /** The characters the custom name may keep: [a-zA-Z0-9_-]. */
  predicate IsNameChar(c: char)
  {
    ('a' <= c <= 'z') || ('A' <= c <= 'Z') || ('0' <= c <= '9') || c == '_' || c == '-'
  }

  /** preg_replace('/[^a-zA-Z0-9_-]/', '', s): drops every other
      character and keeps the rest in order. */
  function Sanitize(s: string): (r: string)
    ensures |r| <= |s|
    ensures forall c :: c in r <==> c in s && IsNameChar(c)
  {
    if s == [] then []
    else (if IsNameChar(s[0]) then [s[0]] else []) + Sanitize(s[1..])
  }

  /** Sanitising works character by character. */
  lemma {:induction false} SanitizeConcat(a: string, b: string)
    ensures Sanitize(a + b) == Sanitize(a) + Sanitize(b)
  {
    if a != [] {
      assert (a + b)[0] == a[0] && (a + b)[1..] == a[1..] + b;
      SanitizeConcat(a[1..], b);
    } else {
      assert a + b == b;
    }
  }

  /** A name made only of allowed characters is left as it is. */
  lemma {:induction false} SanitizeClean(s: string)
    requires forall i :: 0 <= i < |s| ==> IsNameChar(s[i])
    ensures Sanitize(s) == s
  {
    if s != [] {
      SanitizeClean(s[1..]);
    }
  }

  /** Sanitising twice is sanitising once. */
  lemma SanitizeIdempotent(s: string)
    ensures Sanitize(Sanitize(s)) == Sanitize(s)
  {
    var r := Sanitize(s);
    forall i | 0 <= i < |r| ensures IsNameChar(r[i]) {
      assert r[i] in r;
    }
    SanitizeClean(r);
  }

  /** The stored file name. A banner is always `banner{n}.{ext}`, with `n`
      the posted number read by intval (1 when absent); otherwise a
      non-empty custom name is sanitised, and without one the name is a
      unique id and the upload time. */
  function FileName(tipo: string, nome: Option<string>, numero: Option<string>, ext: string,
                    uniq: string, now: int): string
  {
    if tipo == "banner" then
      "banner" + IntToString(if numero.Some? then PhpIntVal(numero.value) else 1) + "." + ext
    else if !PhpEmpty(nome.GetOr("")) then Sanitize(nome.value) + "." + ext
    else uniq + "_" + IntToString(now) + "." + ext
  }

  /** A banner without a number is banner1, whatever the custom name. */
  lemma BannerDefault(nome: Option<string>, ext: string, uniq: string, now: int)
    ensures FileName("banner", nome, None, ext, uniq, now) == "banner1." + ext
  {
    assert IntToString(1) == "1";
  }

  /** A banner's posted number appears in its name as written, up to the
      largest integer; a longer numeral names the banner after that. */
  lemma BannerNumber(nome: Option<string>, n: nat, ext: string, uniq: string, now: int)
    ensures n <= PhpIntMax ==>
      FileName("banner", nome, Some(NatToString(n)), ext, uniq, now) == "banner" + NatToString(n) + "." + ext
    ensures n > PhpIntMax ==>
      FileName("banner", nome, Some(NatToString(n)), ext, uniq, now) == "banner" + IntToString(PhpIntMax) + "." + ext
  {
    PhpIntValOfNumeral(n);
  }

  /** A non-empty custom name made of allowed characters is kept verbatim. */
  lemma CleanCustomName(tipo: string, nome: string, numero: Option<string>, ext: string, uniq: string, now: int)
    requires tipo != "banner" && !PhpEmpty(nome)
    requires forall i :: 0 <= i < |nome| ==> IsNameChar(nome[i])
    ensures FileName(tipo, Some(nome), numero, ext, uniq, now) == nome + "." + ext
  {
    SanitizeClean(nome);
  }

  /** Every stored name ends in a dot and the validated extension. */
  lemma NameEndsWithExtension(tipo: string, nome: Option<string>, numero: Option<string>, ext: string,
                              uniq: string, now: int)
    ensures ExtensionOf(FileName(tipo, nome, numero, ext, uniq, now), ext)
  {
    if tipo == "banner" {
      StemThenExtension("banner" + IntToString(if numero.Some? then PhpIntVal(numero.value) else 1), ext);
    } else if !PhpEmpty(nome.GetOr("")) {
      StemThenExtension(Sanitize(nome.value), ext);
    } else {
      StemThenExtension(uniq + "_" + IntToString(now), ext);
    }
  }

  lemma StemThenExtension(stem: string, ext: string)
    ensures ExtensionOf(stem + "." + ext, ext)
  {
    var n := stem + "." + ext;
    assert n[|n| - |ext| - 1..] == "." + ext;
  }

  /** `s` ends with a dot followed by `ext`. */
  predicate ExtensionOf(s: string, ext: string)
  {
    |s| > |ext| && s[|s| - |ext| - 1..] == "." + ext
  }

  /** The column value and the URL of a stored file; the URL is the column
      value seen from the back end's directory. */
  function Caminho(nome: string): string
  {
    StoredDir + nome
  }

  function Url(nome: string): string
  {
    UploadDir + nome
  }

  /** The file name is recovered from the stored path, and the returned URL
      is the stored path prefixed with "../", as the listing builds it. */
  lemma PathsAgree(nome: string)
    ensures Caminho(nome)[..|StoredDir|] == StoredDir && Caminho(nome)[|StoredDir|..] == nome
    ensures Url(nome) == "../" + Caminho(nome)
  {
  }

  // ---------------------------------------------------------------
  // Routing

  datatype Operation = DoUpload | List | Delete

  function Route(action: Option<string>, httpMethod: string): (r: Response<Operation>)
    ensures r == Success(200, DoUpload) <==> action == Some("upload") && httpMethod == "POST"
    ensures r == Success(200, List) <==> action == Some("listar")
    ensures r == Success(200, Delete) <==> action == Some("deletar") && httpMethod == "POST"
    ensures r == Error(405, MethodNotAllowed) <==> action in {Some("upload"), Some("deletar")} && httpMethod != "POST"
    ensures r == Error(400, InvalidAction) <==> action !in {Some("upload"), Some("listar"), Some("deletar")}
  {
    match action.GetOr("")
    case "upload" => if httpMethod == "POST" then Success(200, DoUpload) else Error(405, MethodNotAllowed)
    case "listar" => Success(200, List)
    case "deletar" => if httpMethod == "POST" then Success(200, Delete) else Error(405, MethodNotAllowed)
    case _ => Error(400, InvalidAction)
  }

  // ---------------------------------------------------------------
  // The endpoint over its table

  class UploadApi {
    var imagens: map<int, Image>
    var nextId: int

    ghost predicate Valid()
      reads this
    {
      nextId >= 1 && IdsBelow(imagens, nextId)
    }

    constructor ()
      ensures Valid() && imagens == map[] && nextId == 1
    {
      imagens, nextId := map[], 1;
    }

    /** `upload`: validation, naming, the move into the upload directory
        (which can fail) and the INSERT. `tipo` defaults to "geral". */
    method FazerUpload(file: Option<UploadedFile>, tipo: Option<string>, nome: Option<string>,
                       numero: Option<string>, uniq: string, now: int, adminId: int, moveFails: bool)
      returns (resp: Response<Stored>)
      requires Valid()
      modifies this
      ensures Valid()
      ensures Validate(file).Error? ==>
        resp == Error(400, Validate(file).message) && imagens == old(imagens) && nextId == old(nextId)
      ensures Validate(file).Success? && moveFails ==>
        resp == Error(500, SaveFailed) && imagens == old(imagens) && nextId == old(nextId)
      ensures Validate(file).Success? && !moveFails ==>
        var t := tipo.GetOr("geral");
        var n := FileName(t, nome, numero, Validate(file).data, uniq, now);
        var id := old(nextId);
        && id !in old(imagens)
        && imagens == old(imagens)[id := Image(n, t, Caminho(n), file.value.size, adminId, now)]
        && nextId == id + 1
        && resp == Success(200, Stored(n, t, Caminho(n), file.value.size, Url(n)))
    {
      var check := Validate(file);
      if check.Error? {
        return Error(400, check.message);
      }
      var ext := check.data;
      var t := tipo.GetOr("geral");
      var n := FileName(t, nome, numero, ext, uniq, now);
      if moveFails {
        return Error(500, SaveFailed);
      }
      imagens := imagens[nextId := Image(n, t, Caminho(n), file.value.size, adminId, now)];
      nextId := nextId + 1;
      resp := Success(200, Stored(n, t, Caminho(n), file.value.size, Url(n)));
    }

    /** `deletar`: a non-positive id is refused, an unknown one is not
        found, and otherwise the row goes. */
    method DeletarImagem(id: Option<int>) returns (resp: Response<string>)
      requires Valid()
      modifies this`imagens
      ensures Valid()
      ensures id.GetOr(0) <= 0 ==> resp == Error(400, InvalidId) && imagens == old(imagens)
      ensures id.GetOr(0) > 0 && id.value !in old(imagens) ==> resp == Error(404, NotFound) && imagens == old(imagens)
      ensures id.GetOr(0) > 0 && id.value in old(imagens) ==>
        resp == Success(200, DeletedMessage) && imagens == old(imagens) - {id.value}
    {
      var i := id.GetOr(0);
      if i <= 0 {
        return Error(400, InvalidId);
      }
      if i !in imagens {
        return Error(404, NotFound);
      }
      imagens := imagens - {i};
      resp := Success(200, DeletedMessage);
    }
  }
}
