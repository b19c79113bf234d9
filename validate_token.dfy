/** `/api/auth/validate-token`: the mobile app presents its access token.
    POST decides and, for an active collector, records the connection time;
    GET is a quick check that looks only at active collectors. */
module ValidateToken {
  import opened Common
  import opened Tables
  import GenerateRoute

  const TokenRequiredMessage := "Token requerido"
  const NotFoundMessage := "Token inválido o cobrador no encontrado"
  const DisabledMessage := "Cobrador desactivado"
  const ValidMessage := "Token válido"
  const ActiveEstado := "activo"

  /** The collectors holding `token`. */
  function TokenHolders(cs: map<string, Cobrador>, token: string): (r: set<string>)
    ensures r <= cs.Keys
    ensures forall id :: id in r <==> id in cs && cs[id].tokenAcceso == token
  {
    set id | id in cs && cs[id].tokenAcceso == token
  }

  /** The active collectors holding `token` (GET adds `.eq('estado', 'activo')`). */
  function ActiveHolders(cs: map<string, Cobrador>, token: string): (r: set<string>)
    ensures r <= TokenHolders(cs, token)
    ensures forall id :: id in r <==> id in TokenHolders(cs, token) && cs[id].estado == ActiveEstado
  {
    set id | id in cs && cs[id].tokenAcceso == token && cs[id].estado == ActiveEstado
  }

  lemma SingletonMember(s: set<string>, x: string)
    requires |s| == 1 && x in s
    ensures s == {x}
  {
    assert |s - {x}| == 0;
  }

  datatype PostResponse =
    | PostTokenRequired
    | PostNotFound
    | Disabled(nombre: string, dni: string, estado: string)
    | Accepted(id: string, nombre: string, dni: string, telefono: string, estado: string)

  function PostStatus(r: PostResponse): nat {
    if r.PostTokenRequired? then 400 else 200
  }

  /** POST's answer. `.single()` yields the collector only when exactly one
      row holds the token; a disabled collector is reported, an active one
      accepted. */
  ghost function PostOutcome(cs: map<string, Cobrador>, token: Option<string>): (r: PostResponse)
    ensures !Truthy(token) <==> r == PostTokenRequired
    ensures Truthy(token) ==> (r == PostNotFound <==> |TokenHolders(cs, token.value)| != 1)
    ensures Truthy(token) && |TokenHolders(cs, token.value)| == 1 ==> r.Accepted? || r.Disabled?
    ensures r.Disabled? ==> exists id :: TokenHolders(cs, token.value) == {id}
                                         && cs[id].estado != ActiveEstado
                                         && r == Disabled(cs[id].nombre, cs[id].dni, cs[id].estado)
    ensures r.Accepted? ==> TokenHolders(cs, token.value) == {r.id} && cs[r.id].estado == ActiveEstado
                            && r == Accepted(r.id, cs[r.id].nombre, cs[r.id].dni, cs[r.id].telefono, ActiveEstado)
  {
    if !Truthy(token) then PostTokenRequired
    else
      var holders := TokenHolders(cs, token.value);
      if |holders| != 1 then PostNotFound
      else
        var id :| id in holders;
        SingletonMember(holders, id);
        var c := cs[id];
        if c.estado != ActiveEstado then Disabled(c.nombre, c.dni, c.estado)
        else Accepted(id, c.nombre, c.dni, c.telefono, c.estado)
  }

  /** POST: answers `PostOutcome`; an accepted collector gets
      `ultima_conexion := now`, unless the ignored update fails
      (`updateFails`); nothing else changes. */
  method Post(db: Db, token: Option<string>, now: int, updateFails: bool) returns (resp: PostResponse)
    modifies db
    ensures db.builds == old(db.builds) && db.metrics == old(db.metrics)
    ensures resp == PostOutcome(old(db.cobradores), token)
    ensures PostStatus(resp) == 400 <==> !Truthy(token)
    ensures resp.Accepted? && !updateFails ==>
              db.cobradores == old(db.cobradores)[resp.id := old(db.cobradores)[resp.id].(ultimaConexion := Some(now))]
    ensures !resp.Accepted? || updateFails ==> db.cobradores == old(db.cobradores)
  {
    if !Truthy(token) {
      return PostTokenRequired;
    }
    var holders := TokenHolders(db.cobradores, token.value);
    if |holders| != 1 {
      return PostNotFound;
    }
    var id :| id in holders;
    SingletonMember(holders, id);
    var cobrador := db.cobradores[id];
    if cobrador.estado != ActiveEstado {
      return Disabled(cobrador.nombre, cobrador.dni, cobrador.estado);
    }
    if !updateFails {
      db.cobradores := db.cobradores[id := cobrador.(ultimaConexion := Some(now))];
    }
    resp := Accepted(id, cobrador.nombre, cobrador.dni, cobrador.telefono, cobrador.estado);
  }

  datatype GetResponse =
    | GetTokenRequired
    | GetNotFound
    | Active(id: string, nombre: string, estado: string)

  /** GET: a row comes back only when exactly one active collector holds
      the token; otherwise the reason is always `TOKEN_NOT_FOUND` (the
      query error leaves `cobrador` null, so `COBRADOR_DISABLED` is never
      chosen). */
  method Get(cs: map<string, Cobrador>, token: Option<string>) returns (resp: GetResponse)
    ensures !Truthy(token) <==> resp == GetTokenRequired
    ensures Truthy(token) ==> (resp == GetNotFound <==> |ActiveHolders(cs, token.value)| != 1)
    ensures resp.Active? ==> ActiveHolders(cs, token.value) == {resp.id}
                             && resp == Active(resp.id, cs[resp.id].nombre, ActiveEstado)
  {
    if !Truthy(token) {
      return GetTokenRequired;
    }
    var holders := ActiveHolders(cs, token.value);
    if |holders| != 1 {
      return GetNotFound;
    }
    var id :| id in holders;
    SingletonMember(holders, id);
    resp := Active(id, cs[id].nombre, cs[id].estado);
  }

  /** A single disabled holder is reported disabled by POST and is not
      found by GET. */
  lemma DisabledIsNotFoundByGet(cs: map<string, Cobrador>, token: string, id: string)
    requires TokenHolders(cs, token) == {id} && cs[id].estado != ActiveEstado
    ensures token != "" ==> PostOutcome(cs, Some(token)) == Disabled(cs[id].nombre, cs[id].dni, cs[id].estado)
    ensures ActiveHolders(cs, token) == {}
  {
    assert forall o :: o in ActiveHolders(cs, token) ==> o == id;
  }

  /** When exactly one collector holds the token and it is active, POST
      accepts it, and GET (whose answer is `Active` exactly for a single
      active holder) finds the same collector. */
  lemma ActiveSingleHolderAgrees(cs: map<string, Cobrador>, token: string, id: string)
    requires TokenHolders(cs, token) == {id} && cs[id].estado == ActiveEstado
    ensures token != "" ==> PostOutcome(cs, Some(token))
                            == Accepted(id, cs[id].nombre, cs[id].dni, cs[id].telefono, ActiveEstado)
    ensures ActiveHolders(cs, token) == {id}
  {
    assert id in ActiveHolders(cs, token);
    assert forall o :: o in ActiveHolders(cs, token) ==> o == id;
  }

  /** A collector the generate route has just inserted, with a token no other
      collector holds, is accepted by POST and found by GET. */
  lemma NewCollectorIsAccepted(cs: map<string, Cobrador>, id: string, nombre: string, dni: string,
                               telefono: string, email: Option<string>, token: string, env: Env)
    requires token != "" && id !in cs
    requires forall o :: o in cs ==> cs[o].tokenAcceso != token
    ensures var cs' := cs[id := GenerateRoute.NewCobrador(id, nombre, dni, telefono, email, token, env)];
            PostOutcome(cs', Some(token)) == Accepted(id, nombre, dni, telefono, ActiveEstado)
            && ActiveHolders(cs', token) == {id}
  {
    var cs' := cs[id := GenerateRoute.NewCobrador(id, nombre, dni, telefono, email, token, env)];
    assert forall o :: o in TokenHolders(cs', token) ==> o == id;
    assert id in TokenHolders(cs', token);
    ActiveSingleHolderAgrees(cs', token, id);
  }
}
