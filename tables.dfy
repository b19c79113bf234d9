/** The database tables the core reads and writes, held in memory: the
    collectors, the build records and the build metrics. A table update
    names the columns it writes; the others keep their values. */
module Tables {
  import opened Common

  /** The credential bundle stored with a collector when it is created. */
  datatype Credenciales = Credenciales(
    token: string,
    nombre: string,
    dni: string,
    supabaseUrl: Option<string>,
    supabaseKey: Option<string>,
    autoLogin: bool,
    version: string)

  /** A `cobradores` row; `None` is a null column. Times are milliseconds. */
  datatype Cobrador = Cobrador(
    id: string,
    nombre: string,
    dni: string,
    telefono: string,
    email: Option<string>,
    tokenAcceso: string,
    credenciales: Credenciales,
    estado: string,
    zonaTrabajo: Option<string>,
    apkUrl: Option<string>,
    apkVersion: Option<string>,
    ultimaConexion: Option<int>,
    totalBuilds: Option<int>)

  /** A `build_metrics` row. */
  datatype Metric = Metric(metodo: string, tiempoBuild: int, fecha: int, exitoso: bool)

  /** The columns of an `apk_builds` row that the core changes. */
  datatype BuildRow = BuildRow(
    estado: string,
    metodo: string,
    apkUrl: Option<string>,
    errorMensaje: Option<string>,
    logBuild: Option<string>,
    fechaFin: Option<int>,
    tiempoBuild: Option<int>)

  /** One column of an update: left alone, or written with a value. */
  datatype Column<T> = Keep | Write(value: T)

  function Updated<T>(c: Column<T>, current: T): T {
    if c.Write? then c.value else current
  }

  /** The columns an `update` call on `apk_builds` writes. */
  datatype BuildUpdate = BuildUpdate(
    estado: Column<string>,
    metodo: Column<string>,
    apkUrl: Column<Option<string>>,
    errorMensaje: Column<Option<string>>,
    logBuild: Column<Option<string>>,
    fechaFin: Column<Option<int>>,
    tiempoBuild: Column<Option<int>>)

  const NoChange := BuildUpdate(Keep, Keep, Keep, Keep, Keep, Keep, Keep)

  /** A row after an update: written columns take the new value. */
  function Apply(row: BuildRow, u: BuildUpdate): (r: BuildRow)
    ensures u == NoChange ==> r == row
    ensures u.estado.Write? ==> r.estado == u.estado.value
    ensures u.estado.Keep? ==> r.estado == row.estado
    ensures u.metodo.Write? ==> r.metodo == u.metodo.value
    ensures u.metodo.Keep? ==> r.metodo == row.metodo
    ensures u.apkUrl.Write? ==> r.apkUrl == u.apkUrl.value
    ensures u.apkUrl.Keep? ==> r.apkUrl == row.apkUrl
    ensures u.errorMensaje.Write? ==> r.errorMensaje == u.errorMensaje.value
    ensures u.errorMensaje.Keep? ==> r.errorMensaje == row.errorMensaje
    ensures u.logBuild.Write? ==> r.logBuild == u.logBuild.value
    ensures u.logBuild.Keep? ==> r.logBuild == row.logBuild
    ensures u.fechaFin.Write? ==> r.fechaFin == u.fechaFin.value
    ensures u.fechaFin.Keep? ==> r.fechaFin == row.fechaFin
    ensures u.tiempoBuild.Write? ==> r.tiempoBuild == u.tiempoBuild.value
    ensures u.tiempoBuild.Keep? ==> r.tiempoBuild == row.tiempoBuild
  {
    BuildRow(Updated(u.estado, row.estado), Updated(u.metodo, row.metodo), Updated(u.apkUrl, row.apkUrl),
             Updated(u.errorMensaje, row.errorMensaje), Updated(u.logBuild, row.logBuild),
             Updated(u.fechaFin, row.fechaFin), Updated(u.tiempoBuild, row.tiempoBuild))
  }

  /** An `apk_builds` row, updated in place. `history` records the
      `(estado, metodo)` pair after its insertion and after each update. */
  class BuildRecord {
    const id: string
    const cobradorId: string
    var estado: string
    var metodo: string
    var apkUrl: Option<string>
    var errorMensaje: Option<string>
    var logBuild: Option<string>
    var fechaFin: Option<int>
    var tiempoBuild: Option<int>
    ghost var history: seq<(string, string)>

    /** `insert({cobrador_id, estado, metodo})`: the other columns are null. */
    constructor (id: string, cobradorId: string, estado: string, metodo: string)
      ensures this.id == id && this.cobradorId == cobradorId
      ensures Row() == BuildRow(estado, metodo, None, None, None, None, None)
      ensures history == [(estado, metodo)]
    {
      this.id := id;
      this.cobradorId := cobradorId;
      this.estado := estado;
      this.metodo := metodo;
      apkUrl, errorMensaje, logBuild, fechaFin, tiempoBuild := None, None, None, None, None;
      history := [(estado, metodo)];
    }

    function Row(): BuildRow
      reads this
    {
      BuildRow(estado, metodo, apkUrl, errorMensaje, logBuild, fechaFin, tiempoBuild)
    }

    /** `update(u).eq('id', id)` */
    method Update(u: BuildUpdate)
      modifies this
      ensures Row() == Apply(old(Row()), u)
      ensures history == old(history) + [(estado, metodo)]
    {
      estado := Updated(u.estado, estado);
      metodo := Updated(u.metodo, metodo);
      apkUrl := Updated(u.apkUrl, apkUrl);
      errorMensaje := Updated(u.errorMensaje, errorMensaje);
      logBuild := Updated(u.logBuild, logBuild);
      fechaFin := Updated(u.fechaFin, fechaFin);
      tiempoBuild := Updated(u.tiempoBuild, tiempoBuild);
      history := history + [(estado, metodo)];
    }
  }

  /** A build record as a query reads it. */
  datatype StoredBuild = StoredBuild(cobradorId: string, row: BuildRow)

  /** The build table's contents at one moment. */
  function Snapshot(builds: map<string, BuildRecord>): (r: map<string, StoredBuild>)
    reads builds.Values
    ensures r.Keys == builds.Keys
  {
    map id | id in builds :: StoredBuild(builds[id].cobradorId, builds[id].Row())
  }

  /** Each build id has its own record object. */
  ghost predicate DistinctRows(builds: map<string, BuildRecord>) {
    forall i, j :: i in builds && j in builds && i != j ==> builds[i] != builds[j]
  }

  /** The database: collectors and build records by id, metrics in insertion
      order. */
  class Db {
    var cobradores: map<string, Cobrador>
    var builds: map<string, BuildRecord>
    var metrics: seq<Metric>

    constructor (cobradores: map<string, Cobrador>, builds: map<string, BuildRecord>, metrics: seq<Metric>)
      ensures this.cobradores == cobradores && this.builds == builds && this.metrics == metrics
    {
      this.cobradores := cobradores;
      this.builds := builds;
      this.metrics := metrics;
    }
  }
}
