/** The `administradores` table and the PHP session fields that both login
    endpoints (backend/login.php and admin/login.php) read and write. */
module Admins {
  import opened Common

  /** One `administradores` row; `senha` is the stored password hash. */
  datatype Admin = Admin(
    id: int,
    usuario: string,
    senha: string,
    nome: string,
    email: string,
    ativo: int,
    ultimoAcesso: Option<int>)

  /** The session fields the endpoints use; None is an unset key. */
  datatype Session = Session(
    adminLogado: Option<bool>,
    adminId: Option<int>,
    adminUsuario: Option<string>,
    adminNome: Option<string>,
    adminEmail: Option<string>,
    loginTimestamp: Option<int>)

  /** The session after `$_SESSION = []` or once it is destroyed. */
  const EmptySession := Session(None, None, None, None, None, None)

  /** `admin_logado` is set and is exactly `true`. */
  predicate LoggedIn(s: Session)
  {
    s.adminLogado == Some(true)
  }

  /** The position of the first row, in storage order, that satisfies
      `p`, or the table size when none does. */
  function FirstIndex(admins: seq<Admin>, p: Admin -> bool): (k: nat)
    ensures k <= |admins|
    ensures forall j :: 0 <= j < k ==> !p(admins[j])
    ensures k < |admins| ==> p(admins[k])
  {
    if admins == [] || p(admins[0]) then 0 else 1 + FirstIndex(admins[1..], p)
  }

  /** What a SELECT ... LIMIT 1 with that condition returns. */
  function FirstWhere(admins: seq<Admin>, p: Admin -> bool): (r: Option<Admin>)
    ensures r.None? <==> forall i :: 0 <= i < |admins| ==> !p(admins[i])
    ensures r.Some? ==> r.value in admins && p(r.value)
    ensures r.Some? ==> exists k :: 0 <= k < |admins| && admins[k] == r.value && forall j :: 0 <= j < k ==> !p(admins[j])
  {
    var k := FirstIndex(admins, p);
    if k < |admins| then Some(admins[k]) else None
  }

  /** UPDATE administradores SET ultimo_acesso = NOW() WHERE id = :id. */
  function TouchLastAccess(admins: seq<Admin>, id: int, now: int): (r: seq<Admin>)
    ensures |r| == |admins|
    ensures forall i :: 0 <= i < |r| ==>
      r[i] == if admins[i].id == id then admins[i].(ultimoAcesso := Some(now)) else admins[i]
  {
    seq(|admins|, i requires 0 <= i < |admins| =>
      if admins[i].id == id then admins[i].(ultimoAcesso := Some(now)) else admins[i])
  }

  /** Touching the last access changes no column the endpoints check:
      every login name, hash and active flag stays as it was. */
  lemma TouchKeepsCredentials(admins: seq<Admin>, id: int, now: int)
    ensures var r := TouchLastAccess(admins, id, now);
      forall i :: 0 <= i < |r| ==> r[i].(ultimoAcesso := admins[i].ultimoAcesso) == admins[i]
  {
  }
}
