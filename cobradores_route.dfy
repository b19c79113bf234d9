/** `/api/cobradores`: the collector list with a connection state and a
    relative "last seen" label, and deletion by id. Times are epoch
    milliseconds; `now` is a parameter. */
module CobradoresRoute {
  import opened Common
  import opened Tables

  const MsPerMinute := 60000
  const MsPerHour := 3600000
  const MsPerDay := 86400000
  const NeverLabel := "Nunca"
  const DefaultZona := "Sin asignar"
  const DailyGoal := 5000
  const ListErrorMessage := "Error al obtener cobradores"
  const IdRequiredMessage := "ID requerido"
  const DeleteErrorMessage := "Error al eliminar"
  const DeletedMessage := "Cobrador eliminado con todo su historial"

  datatype Estado = Online | Offline | SinApk

  /** `determinarEstado`: without an APK the collector is `sin_apk`;
      otherwise `online` when seen less than an hour ago. */
  function DeterminarEstado(c: Cobrador, now: int): (r: Estado)
    ensures r == SinApk <==> !Truthy(c.apkVersion) || !Truthy(c.apkUrl)
    ensures r == Online <==> Truthy(c.apkVersion) && Truthy(c.apkUrl)
                             && c.ultimaConexion.Some? && now - c.ultimaConexion.value < MsPerHour
  {
    if !Truthy(c.apkVersion) || !Truthy(c.apkUrl) then SinApk
    else if c.ultimaConexion.Some? && now - c.ultimaConexion.value < MsPerHour then Online
    else Offline
  }

  /** A "last seen" label: a relative text, or the date in the server's
      locale (`toLocaleDateString`). */
  datatype DateLabel = Relative(text: string) | LocaleDate(epochMs: int)

  /** `Math.floor(a / d)` for a positive divisor (Dafny's division on
      `int` rounds down when the divisor is positive). */
  function FloorDiv(a: int, d: int): (q: int)
    requires d > 0
    ensures q * d <= a < q * d + d
  {
    a / d
  }

  /** `formatearFecha`. */
  function FormatearFecha(fecha: Option<int>, now: int): (r: DateLabel)
    ensures fecha.None? ==> r == Relative(NeverLabel)
    ensures fecha.Some? && now - fecha.value < MsPerHour ==>
              r == Relative("Hace " + IntToString(FloorDiv(now - fecha.value, MsPerMinute)) + " min")
    ensures fecha.Some? && MsPerHour <= now - fecha.value < MsPerDay ==>
              r == Relative("Hace " + IntToString(FloorDiv(now - fecha.value, MsPerHour)) + " horas")
    ensures fecha.Some? && MsPerDay <= now - fecha.value < 30 * MsPerDay ==>
              r == Relative("Hace " + IntToString(FloorDiv(now - fecha.value, MsPerDay)) + " días")
    ensures r.LocaleDate? <==> fecha.Some? && now - fecha.value >= 30 * MsPerDay
  {
    match fecha
    case None => Relative(NeverLabel)
    case Some(t) =>
      var diferencia := now - t;
      var minutos := FloorDiv(diferencia, MsPerMinute);
      var horas := FloorDiv(diferencia, MsPerHour);
      var dias := FloorDiv(diferencia, MsPerDay);
      if minutos < 60 then Relative("Hace " + IntToString(minutos) + " min")
      else if horas < 24 then Relative("Hace " + IntToString(horas) + " horas")
      else if dias < 30 then Relative("Hace " + IntToString(dias) + " días")
      else LocaleDate(t)
  }

  /** A collector with an APK is online exactly when its label counts
      minutes. */
  lemma OnlineIffMinutesLabel(c: Cobrador, now: int)
    requires Truthy(c.apkVersion) && Truthy(c.apkUrl) && c.ultimaConexion.Some?
    ensures DeterminarEstado(c, now) == Online
            <==> FormatearFecha(c.ultimaConexion, now)
                 == Relative("Hace " + IntToString(FloorDiv(now - c.ultimaConexion.value, MsPerMinute)) + " min")
  {
    var d := now - c.ultimaConexion.value;
    if d >= MsPerHour {
      var r := FormatearFecha(c.ultimaConexion, now);
      if d < MsPerDay {
        assert r.text[|r.text| - 1] == 's';
      } else if d < 30 * MsPerDay {
        assert r.text[|r.text| - 1] == 's';
      }
    }
  }

  /** A row of the `vista_cobradores_apk` view: the collector and its
      latest build. */
  datatype ViewRow = ViewRow(cobrador: Cobrador, ultimoBuildEstado: Option<string>, ultimoBuildFecha: Option<int>)

  datatype Formatted = Formatted(
    id: string,
    nombre: string,
    telefono: string,
    zona: string,
    estado: Estado,
    apkVersion: Option<string>,
    ultimaConexion: DateLabel,
    cobrosHoy: int,
    metaHoy: int,
    totalBuilds: int,
    ultimoBuildEstado: Option<string>,
    ultimoBuildFecha: Option<int>)

  /** One entry of the list; `cobrosHoy` is the random draw for it. */
  function Format(row: ViewRow, now: int, cobrosHoy: int): (r: Formatted)
    ensures r.id == row.cobrador.id && r.nombre == row.cobrador.nombre && r.telefono == row.cobrador.telefono
    ensures Truthy(row.cobrador.zonaTrabajo) ==> r.zona == row.cobrador.zonaTrabajo.value
    ensures !Truthy(row.cobrador.zonaTrabajo) ==> r.zona == DefaultZona
    ensures row.cobrador.totalBuilds.None? ==> r.totalBuilds == 0
    ensures row.cobrador.totalBuilds.Some? ==> r.totalBuilds == row.cobrador.totalBuilds.value
    ensures r.estado == DeterminarEstado(row.cobrador, now)
    ensures r.ultimaConexion == FormatearFecha(row.cobrador.ultimaConexion, now)
    ensures r.metaHoy == DailyGoal
  {
    var c := row.cobrador;
    Formatted(c.id, c.nombre, c.telefono, OrElse(c.zonaTrabajo, DefaultZona), DeterminarEstado(c, now),
              c.apkVersion, FormatearFecha(c.ultimaConexion, now), cobrosHoy, DailyGoal,
              // `total_builds || 0`: a missing count and a zero both give 0
              if c.totalBuilds.Some? then c.totalBuilds.value else 0,
              row.ultimoBuildEstado, row.ultimoBuildFecha)
  }

  datatype ListResponse = ListFailure(status: nat, error: string) | Listed(cobradores: seq<Formatted>)

  /** GET: the view's rows in the order the query returns them, each
      formatted. */
  function List(query: Result<seq<ViewRow>>, now: int, draws: seq<int>): (r: ListResponse)
    requires query.Ok? ==> |draws| == |query.value|
    requires forall i :: 0 <= i < |draws| ==> 0 <= draws[i] < 5000  // Math.floor(Math.random() * 5000)
    ensures query.Err? <==> r == ListFailure(500, ListErrorMessage)
    ensures query.Ok? ==> r.Listed? && |r.cobradores| == |query.value|
                          && forall i :: 0 <= i < |query.value| ==>
                               r.cobradores[i] == Format(query.value[i], now, draws[i])
    ensures r.Listed? ==> forall i :: 0 <= i < |r.cobradores| ==> 0 <= r.cobradores[i].cobrosHoy < 5000
  {
    match query
    case Err(_) => ListFailure(500, ListErrorMessage)
    case Ok(rows) => Listed(seq(|rows|, i requires 0 <= i < |rows| => Format(rows[i], now, draws[i])))
  }

  datatype DeleteResponse = DeleteFailure(status: nat, error: string) | Deleted(message: string)

  /** DELETE: removes the collector; the database's `ON DELETE CASCADE`
      removes its builds with it. `deleteFails` is the database's answer. */
  method Delete(db: Db, id: Option<string>, deleteFails: bool) returns (resp: DeleteResponse)
    modifies db
    ensures !Truthy(id) ==> resp == DeleteFailure(400, IdRequiredMessage)
    ensures !Truthy(id) || deleteFails ==> db.cobradores == old(db.cobradores) && db.builds == old(db.builds)
    ensures Truthy(id) && deleteFails ==> resp == DeleteFailure(500, DeleteErrorMessage)
    ensures Truthy(id) && !deleteFails ==>
              resp == Deleted(DeletedMessage)
              && db.cobradores == old(db.cobradores) - {id.value}
              && db.builds == map b | b in old(db.builds) && old(db.builds)[b].cobradorId != id.value :: old(db.builds)[b]
    ensures db.metrics == old(db.metrics)
  {
    if !Truthy(id) {
      return DeleteFailure(400, IdRequiredMessage);
    }
    if deleteFails {
      return DeleteFailure(500, DeleteErrorMessage);
    }
    db.cobradores := db.cobradores - {id.value};
    db.builds := map b | b in db.builds && db.builds[b].cobradorId != id.value :: db.builds[b];
    resp := Deleted(DeletedMessage);
  }
}
