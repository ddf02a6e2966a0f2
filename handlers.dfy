/**
 * The decision logic of the route handlers that write to the store:
 * - the request checks;
 * - the existence lookup, which must say NOT_FOUND before a create;
 * - the record each handler builds;
 * - the history events that the state change and the evidence upload append.
 * The ISO timestamp of `new Date()` is the parameter `now`. Each store call
 * takes its own fault environment. A response is a status code and its
 * JSON body.
 */
module Handlers {
  import opened JsValues
  import opened CryptoService
  import opened DfsService
  import Metrics

  const Estados: string := "estados"
  const Ubicaciones: string := "ubicaciones"
  const Historial: string := "historial"
  const Evidencias: string := "evidencias"

  /** ESTADOS_VALIDOS */
  const EstadosValidos: seq<string> := ["ABIERTO", "EN_ATENCION", "RESUELTO", "CERRADO", "REABIERTO"]
  /** The evidence types the upload accepts. */
  const TiposValidos: seq<string> := ["IMG", "VIDEO", "AUDIO", "DOC"]
  const EstadoInicial: string := "ABIERTO"
  const UaaDomain: string := "@edu.uaa.mx"

  // ------------------------------------------------------------- responses

  datatype Response = Response(status: nat, body: Json)

  /** `res.status(status).json({ error: message })` */
  function ErrorResponse(status: nat, message: string): Response {
    Response(status, JObj(map["error" := JStr(message)]))
  }

  /** What Express sends when a handler throws outside its own try: status
      500 with an HTML page rather than JSON. */
  const ExpressError: Response := Response(500, JNull)

  const FaltanCampos: string := "Faltan campos obligatorios"
  const SoloUaa: string := "Solo se permiten correos @edu.uaa.mx"
  const ErrorInterno: string := "Error interno"
  const FaltanIdNombre: string := "Faltan campos obligatorios: id, nombre"
  const EstadoNoValido: string :=
    "Estado no v\U{E1}lido. Debe ser uno de: ABIERTO, EN_ATENCION, RESUELTO, CERRADO, REABIERTO"
  const FaltanUbicacion: string := "Faltan campos obligatorios: id, lat, lng, area"
  const FaltanCambio: string := "Faltan campos obligatorios: nuevoEstado, usuarioResponsable"
  const ReporteNoEncontrado: string := "Reporte no encontrado"
  const ErrorHistorial: string := "Error interno al leer historial"
  const ErrorCambio: string := "Error interno al actualizar estado de reporte"
  const FaltanEvidencia: string := "Faltan campos obligatorios: evidenciaId, tipo, nombreArchivo, url, usuarioId"
  const TipoNoValido: string := "Tipo de evidencia no v\U{E1}lido. Debe ser uno de: IMG, VIDEO, AUDIO, DOC"
  const ErrorEvidencia: string := "Error interno al registrar evidencia"

  // ------------------------------------------------------------ isUaaEmail

  /** isUaaEmail: a string whose lower-case form ends with the UAA domain.
      The truthiness test adds nothing: the empty string does not end with
      the domain. */
  function IsUaaEmail(email: Option<Json>): (r: bool)
    ensures r <==> email.Some? && email.value.JStr? && EndsWith(Lower(email.value.s), UaaDomain)
  {
    Present(email) && email.value.JStr? && EndsWith(Lower(email.value.s), UaaDomain)
  }

  /** The check ignores letter case: any spelling of the domain whose
      lower-case form is the UAA domain is accepted, whatever the local part. */
  lemma UaaDomainAnyCase(local: string, domain: string)
    requires Lower(domain) == UaaDomain
    ensures IsUaaEmail(Some(JStr(local + domain)))
  {
    LowerAppend(local, domain);
  }

  /** An address and its lower-cased form are accepted alike; in particular
      the lower-cased address the user handler stores still passes. */
  lemma LowerCaseKeepsUaa(correo: string)
    ensures IsUaaEmail(Some(JStr(Lower(correo)))) <==> IsUaaEmail(Some(JStr(correo)))
  {
    LowerIdempotent(correo);
  }

  /** `list.includes(v)`: strict equality, so only a string can match. */
  predicate Includes(list: seq<string>, v: Option<Json>) {
    v.Some? && v.value.JStr? && v.value.s in list
  }

  // ------------------------------------------------- create only if absent

  datatype CreateOutcome = AlreadyExists | LookupFailed | Stored | StoreFailed
  datatype CreateStep = CreateStep(disk: Disk, outcome: CreateOutcome)

  /** The lookup-then-save every create handler performs. */
  function Create(c: Codec, d: Disk, folder: string, id: string, payload: Json, faults: ReadFaults, env: SaveEnv): CreateStep
    requires |env.aesKey| == AesKeyBytes && |env.iv| == IvBytes
  {
    match Read(c, d, faults, folder, id)
    case Success(_) => CreateStep(d, AlreadyExists)
    case Failure(e) =>
      if e != NotFound then CreateStep(d, LookupFailed)
      else
        var s := Save(c, d, folder, id, payload, env);
        CreateStep(s.disk, if s.outcome.Success? then Stored else StoreFailed)
  }

  /** The texts one create handler answers with. */
  datatype CreateMessages = CreateMessages(created: string, conflict: string, storeFailed: string)

  /** 201 with the id, 409, or 500 (the lookup's own message is always
      'Error interno'). */
  function CreateResponse(outcome: CreateOutcome, msgs: CreateMessages, id: Json): (r: Response)
    ensures r.status == 201 <==> outcome == Stored
    ensures r.status == 409 <==> outcome == AlreadyExists
    ensures r.status == 500 <==> outcome == LookupFailed || outcome == StoreFailed
  {
    match outcome
    case Stored => Response(201, JObj(map["message" := JStr(msgs.created), "id" := id]))
    case AlreadyExists => ErrorResponse(409, msgs.conflict)
    case LookupFailed => ErrorResponse(500, ErrorInterno)
    case StoreFailed => ErrorResponse(500, msgs.storeFailed)
  }

  /** A create saves only after the lookup said NOT_FOUND; an existing
      record (409) and any other lookup error (500) leave the disk as it was;
      a failed save leaves what its two failed writes left. */
  lemma CreateOnlyWhenAbsent(c: Codec, d: Disk, folder: string, id: string, payload: Json,
                             faults: ReadFaults, env: SaveEnv)
    requires |env.aesKey| == AesKeyBytes && |env.iv| == IvBytes
    ensures var step := Create(c, d, folder, id, payload, faults, env);
            var found := Read(c, d, faults, folder, id);
      && (step.outcome == AlreadyExists <==> found.Success?)
      && (step.outcome == LookupFailed <==> found.Failure? && found.error != NotFound)
      && ((step.outcome == AlreadyExists || step.outcome == LookupFailed) ==> step.disk == d)
      && ((step.outcome == Stored || step.outcome == StoreFailed) ==>
            found == Failure(NotFound) && step.disk == Save(c, d, folder, id, payload, env).disk)
      && (step.outcome == StoreFailed ==>
            && FailedWriteLeaves(d.primary, step.disk.primary, FileKey(folder, id + JsonSuffix),
                                 WrapperText(c, payload, env.aesKey, env.iv), env.primaryFault)
            && FailedWriteLeaves(d.fallback, step.disk.fallback, FileKey(folder, id + JsonSuffix),
                                 WrapperText(c, payload, env.aesKey, env.iv), env.fallbackFault))
  {
    if Read(c, d, faults, folder, id) == Failure(NotFound) {
      SaveFailsOnlyTwice(c, d, folder, id, payload, env);
    }
  }

  /** A record created after a NOT_FOUND lookup reads back as its payload:
      the lookup found no local copy, so none can shadow an online save. */
  lemma CreatedReadsBack(c: Codec, d: Disk, folder: string, id: string, payload: Json,
                         faults: ReadFaults, env: SaveEnv)
    requires Lawful(c)
    requires |env.aesKey| == AesKeyBytes && |env.iv| == IvBytes
    requires Create(c, d, folder, id, payload, faults, env).outcome == Stored
    requires FileKey(folder, id + JsonSuffix) !in faults.primaryUnreadable
    requires FileKey(folder, id + JsonSuffix) !in faults.fallbackUnreadable
    ensures Read(c, Create(c, d, folder, id, payload, faults, env).disk, faults, folder, id) == Success(payload)
  {
    var key := FileKey(folder, id + JsonSuffix);
    assert Read(c, d, faults, folder, id) == Failure(NotFound);
    assert !FallbackHit(d, faults, key) by {
      if FallbackHit(d, faults, key) {
        FallbackFirst(c, d, faults, folder, id);
      }
    }
    if WriteOk(d.primary, folder, env.primaryFault) {
      OnlineSaveThenRead(c, d, folder, id, payload, env, faults);
    } else {
      SaveFailsOnlyTwice(c, d, folder, id, payload, env);
      OfflineSaveThenRead(c, d, folder, id, payload, env, faults);
    }
  }

  /** The lookup and the save of a create, on the store. */
  method CreateRecord(store: Store, folder: string, id: string, payload: Json, faults: ReadFaults, env: SaveEnv)
    returns (outcome: CreateOutcome)
    requires store.Valid()
    requires |env.aesKey| == AesKeyBytes && |env.iv| == IvBytes
    modifies store
    ensures store.Valid()
    ensures store.State() == Create(store.codec, old(store.State()), folder, id, payload, faults, env).disk
    ensures outcome == Create(store.codec, old(store.State()), folder, id, payload, faults, env).outcome
  {
    var found := store.ReadEncrypted(folder, id, faults);
    if found.Success? {
      return AlreadyExists;
    }
    if found.error != NotFound {
      return LookupFailed;
    }
    var saved := store.SaveEncrypted(folder, id, payload, env);
    outcome := if saved.Success? then Stored else StoreFailed;
  }

  // ------------------------------------------------------ POST /api/usuarios

  predicate UsuarioCompleto(u: Json) {
    Truthy(u) && Present(Get(u, "id")) && Present(Get(u, "nombre")) && Present(Get(u, "correo"))
    && Present(Get(u, "password"))
  }

  /** The stored user: the address lower-cased, the role 'Alumno' by default. */
  function UsuarioPayload(u: Json, now: string): Json
    requires UsuarioCompleto(u) && IsUaaEmail(Get(u, "correo"))
  {
    JObj(map[
      "id" := Get(u, "id").value,
      "nombre" := Get(u, "nombre").value,
      "correo" := JStr(Lower(Get(u, "correo").value.s)),
      "password" := Get(u, "password").value,
      "rol" := Or(Get(u, "rol"), JStr("Alumno")),
      "createdAt" := JStr(now)])
  }

  const UsuarioMessages: CreateMessages :=
    CreateMessages("Usuario guardado", "Ya existe un usuario con ese id", ErrorInterno)

  method CrearUsuario(store: Store, usuario: Json, now: string, faults: ReadFaults, env: SaveEnv)
    returns (resp: Response)
    requires store.Valid()
    requires |env.aesKey| == AesKeyBytes && |env.iv| == IvBytes
    modifies store
    ensures store.Valid()
    ensures !UsuarioCompleto(usuario) ==> resp == ErrorResponse(400, FaltanCampos) && store.State() == old(store.State())
    ensures UsuarioCompleto(usuario) && !IsUaaEmail(Get(usuario, "correo")) ==>
              resp == ErrorResponse(400, SoloUaa) && store.State() == old(store.State())
    ensures UsuarioCompleto(usuario) && IsUaaEmail(Get(usuario, "correo")) ==>
              var id := Get(usuario, "id").value;
              var step := Create(store.codec, old(store.State()), Usuarios, JsString(id),
                                 UsuarioPayload(usuario, now), faults, env);
              store.State() == step.disk && resp == CreateResponse(step.outcome, UsuarioMessages, id)
  {
    if !UsuarioCompleto(usuario) {
      return ErrorResponse(400, FaltanCampos);
    }
    if !IsUaaEmail(Get(usuario, "correo")) {
      return ErrorResponse(400, SoloUaa);
    }
    var id := Get(usuario, "id").value;
    var outcome := CreateRecord(store, Usuarios, JsString(id), UsuarioPayload(usuario, now), faults, env);
    resp := CreateResponse(outcome, UsuarioMessages, id);
  }

  // ---------------------------------------------------- POST /api/categorias

  predicate IdNombreCompleto(b: Json) {
    Truthy(b) && Present(Get(b, "id")) && Present(Get(b, "nombre"))
  }

  function CategoriaPayload(cat: Json, now: string): Json
    requires IdNombreCompleto(cat)
  {
    JObj(map[
      "id" := Get(cat, "id").value,
      "nombre" := Get(cat, "nombre").value,
      "descripcion" := Or(Get(cat, "descripcion"), JStr("")),
      "createdAt" := JStr(now)])
  }

  const CategoriaMessages: CreateMessages :=
    CreateMessages("Categor\U{ED}a creada", "Ya existe una categor\U{ED}a con ese id",
                   "Error interno al crear categor\U{ED}a")

  method CrearCategoria(store: Store, cat: Json, now: string, faults: ReadFaults, env: SaveEnv)
    returns (resp: Response)
    requires store.Valid()
    requires |env.aesKey| == AesKeyBytes && |env.iv| == IvBytes
    modifies store
    ensures store.Valid()
    ensures !IdNombreCompleto(cat) ==> resp == ErrorResponse(400, FaltanIdNombre) && store.State() == old(store.State())
    ensures IdNombreCompleto(cat) ==>
              var id := Get(cat, "id").value;
              var step := Create(store.codec, old(store.State()), Metrics.Categorias, JsString(id),
                                 CategoriaPayload(cat, now), faults, env);
              store.State() == step.disk && resp == CreateResponse(step.outcome, CategoriaMessages, id)
  {
    if !IdNombreCompleto(cat) {
      return ErrorResponse(400, FaltanIdNombre);
    }
    var id := Get(cat, "id").value;
    var outcome := CreateRecord(store, Metrics.Categorias, JsString(id), CategoriaPayload(cat, now), faults, env);
    resp := CreateResponse(outcome, CategoriaMessages, id);
  }

  // ------------------------------------------------------- POST /api/estados

  function EstadoPayload(e: Json, now: string): Json
    requires IdNombreCompleto(e)
  {
    JObj(map["id" := Get(e, "id").value, "nombre" := Get(e, "nombre").value, "createdAt" := JStr(now)])
  }

  const EstadoMessages: CreateMessages :=
    CreateMessages("Estado creado", "Ya existe un estado con ese id", "Error interno al crear estado")

  method CrearEstado(store: Store, e: Json, now: string, faults: ReadFaults, env: SaveEnv)
    returns (resp: Response)
    requires store.Valid()
    requires |env.aesKey| == AesKeyBytes && |env.iv| == IvBytes
    modifies store
    ensures store.Valid()
    ensures !IdNombreCompleto(e) ==> resp == ErrorResponse(400, FaltanIdNombre) && store.State() == old(store.State())
    ensures IdNombreCompleto(e) && !Includes(EstadosValidos, Get(e, "nombre")) ==>
              resp == ErrorResponse(400, EstadoNoValido) && store.State() == old(store.State())
    ensures IdNombreCompleto(e) && Includes(EstadosValidos, Get(e, "nombre")) ==>
              var id := Get(e, "id").value;
              var step := Create(store.codec, old(store.State()), Estados, JsString(id),
                                 EstadoPayload(e, now), faults, env);
              store.State() == step.disk && resp == CreateResponse(step.outcome, EstadoMessages, id)
  {
    if !IdNombreCompleto(e) {
      return ErrorResponse(400, FaltanIdNombre);
    }
    if !Includes(EstadosValidos, Get(e, "nombre")) {
      return ErrorResponse(400, EstadoNoValido);
    }
    var id := Get(e, "id").value;
    var outcome := CreateRecord(store, Estados, JsString(id), EstadoPayload(e, now), faults, env);
    resp := CreateResponse(outcome, EstadoMessages, id);
  }

  // --------------------------------------------------- POST /api/ubicaciones

  /** `lat` and `lng` only have to be defined: 0 and null are accepted. */
  predicate UbicacionCompleta(u: Json) {
    Truthy(u) && Present(Get(u, "id")) && Get(u, "lat").Some? && Get(u, "lng").Some? && Present(Get(u, "area"))
  }

  function UbicacionPayload(u: Json, now: string): Json
    requires UbicacionCompleta(u)
  {
    JObj(map[
      "id" := Get(u, "id").value,
      "lat" := Get(u, "lat").value,
      "lng" := Get(u, "lng").value,
      "area" := Get(u, "area").value,
      "edificio" := Or(Get(u, "edificio"), JNull),
      "nivel" := Or(Get(u, "nivel"), JNull),
      "createdAt" := JStr(now)])
  }

  const UbicacionMessages: CreateMessages :=
    CreateMessages("Ubicaci\U{F3}n creada", "Ya existe una ubicaci\U{F3}n con ese id",
                   "Error interno al crear ubicaci\U{F3}n")

  method CrearUbicacion(store: Store, u: Json, now: string, faults: ReadFaults, env: SaveEnv)
    returns (resp: Response)
    requires store.Valid()
    requires |env.aesKey| == AesKeyBytes && |env.iv| == IvBytes
    modifies store
    ensures store.Valid()
    ensures !UbicacionCompleta(u) ==> resp == ErrorResponse(400, FaltanUbicacion) && store.State() == old(store.State())
    ensures UbicacionCompleta(u) ==>
              var id := Get(u, "id").value;
              var step := Create(store.codec, old(store.State()), Ubicaciones, JsString(id),
                                 UbicacionPayload(u, now), faults, env);
              store.State() == step.disk && resp == CreateResponse(step.outcome, UbicacionMessages, id)
  {
    if !UbicacionCompleta(u) {
      return ErrorResponse(400, FaltanUbicacion);
    }
    var id := Get(u, "id").value;
    var outcome := CreateRecord(store, Ubicaciones, JsString(id), UbicacionPayload(u, now), faults, env);
    resp := CreateResponse(outcome, UbicacionMessages, id);
  }

  // ------------------------------------------------------ POST /api/reportes

  predicate ReporteCompleto(r: Json) {
    Truthy(r) && Present(Get(r, "id")) && Present(Get(r, "descripcion")) && Present(Get(r, "categoriaId"))
    && Present(Get(r, "ubicacionId")) && Present(Get(r, "creadoPor"))
  }

  function ReportePayload(r: Json, now: string): Json
    requires ReporteCompleto(r)
  {
    JObj(map[
      "id" := Get(r, "id").value,
      "titulo" := Or(Get(r, "titulo"), JStr("")),
      "descripcion" := Get(r, "descripcion").value,
      "categoriaId" := Get(r, "categoriaId").value,
      "ubicacionId" := Get(r, "ubicacionId").value,
      "creadoPor" := Get(r, "creadoPor").value,
      "esReporteOficial" := Or(Get(r, "esReporteOficial"), JBool(false)),
      "estadoActual" := JStr(EstadoInicial),
      "createdAt" := JStr(now),
      "updatedAt" := JStr(now)])
  }

  /** The history of a new report: one CREADO event. */
  function HistorialInicial(r: Json, now: string): Json
    requires ReporteCompleto(r)
  {
    JObj(map[
      "idReporte" := Get(r, "id").value,
      "eventos" := JArr([JObj(map[
        "fechaHora" := JStr(now),
        "estadoAnterior" := JNull,
        "estadoNuevo" := JStr(EstadoInicial),
        "comentario" := JStr("Reporte creado"),
        "usuarioResponsable" := Get(r, "creadoPor").value,
        "accion" := JStr("CREADO")])])])
  }

  /** A new report is ABIERTO, created and updated at the same instant, and
      its history holds exactly one CREADO event whose previous state is
      null and whose actor is the report's author. */
  lemma ReportStartsOpen(r: Json, now: string)
    requires ReporteCompleto(r)
    ensures var rep := ReportePayload(r, now);
      && Get(rep, "estadoActual") == Some(JStr("ABIERTO"))
      && Get(rep, "createdAt") == Get(rep, "updatedAt") == Some(JStr(now))
      && Get(rep, "id") == Get(r, "id")
    ensures var h := HistorialInicial(r, now);
      && Get(h, "idReporte") == Get(r, "id")
      && Get(h, "eventos").Some? && Get(h, "eventos").value.JArr?
      && |Get(h, "eventos").value.items| == 1
      && var ev := Get(h, "eventos").value.items[0];
         && Get(ev, "accion") == Some(JStr("CREADO"))
         && Get(ev, "estadoAnterior") == Some(JNull)
         && Get(ev, "estadoNuevo") == Some(JStr("ABIERTO"))
         && Get(ev, "usuarioResponsable") == Get(r, "creadoPor")
  {
  }

  const ReporteMessages: CreateMessages :=
    CreateMessages("Reporte creado", "Ya existe un reporte con ese id", "Error interno al crear reporte")

  datatype HandlerStep = HandlerStep(disk: Disk, resp: Response)

  /** The effect and the answer of POST /api/reportes. */
  function CrearReporteSpec(c: Codec, d: Disk, r: Json, now: string, faults: ReadFaults,
                            envReporte: SaveEnv, envHistorial: SaveEnv): HandlerStep
    requires |envReporte.aesKey| == AesKeyBytes && |envReporte.iv| == IvBytes
    requires |envHistorial.aesKey| == AesKeyBytes && |envHistorial.iv| == IvBytes
  {
    if !ReporteCompleto(r) then HandlerStep(d, ErrorResponse(400, FaltanCampos))
    else
      var id := Get(r, "id").value;
      var step := Create(c, d, Metrics.Reportes, JsString(id), ReportePayload(r, now), faults, envReporte);
      if step.outcome != Stored then HandlerStep(step.disk, CreateResponse(step.outcome, ReporteMessages, id))
      else
        var h := Save(c, step.disk, Historial, JsString(id), HistorialInicial(r, now), envHistorial);
        HandlerStep(h.disk, CreateResponse(if h.outcome.Success? then Stored else StoreFailed, ReporteMessages, id))
  }

  /** A 201 means both the report and its one-event history were saved
      under the report's id; a failed history save answers 500 and touches
      no file but the history's, so the report stays saved. */
  lemma CreatedReportHasHistory(c: Codec, d: Disk, r: Json, now: string, faults: ReadFaults,
                                envReporte: SaveEnv, envHistorial: SaveEnv)
    requires |envReporte.aesKey| == AesKeyBytes && |envReporte.iv| == IvBytes
    requires |envHistorial.aesKey| == AesKeyBytes && |envHistorial.iv| == IvBytes
    requires ReporteCompleto(r)
    ensures var spec := CrearReporteSpec(c, d, r, now, faults, envReporte, envHistorial);
            var key := JsString(Get(r, "id").value);
            var step := Create(c, d, Metrics.Reportes, key, ReportePayload(r, now), faults, envReporte);
            var h := Save(c, step.disk, Historial, key, HistorialInicial(r, now), envHistorial);
      && (spec.resp.status == 201 <==> step.outcome == Stored && h.outcome.Success?)
      && (spec.resp.status == 201 ==> spec.disk == h.disk
                                      && Read(c, d, faults, Metrics.Reportes, key) == Failure(NotFound))
      && (step.outcome == Stored && h.outcome.Failure? ==>
            && spec.resp.status == 500
            && FailedWriteLeaves(step.disk.primary, spec.disk.primary, FileKey(Historial, key + JsonSuffix),
                                 WrapperText(c, HistorialInicial(r, now), envHistorial.aesKey, envHistorial.iv),
                                 envHistorial.primaryFault)
            && FailedWriteLeaves(step.disk.fallback, spec.disk.fallback, FileKey(Historial, key + JsonSuffix),
                                 WrapperText(c, HistorialInicial(r, now), envHistorial.aesKey, envHistorial.iv),
                                 envHistorial.fallbackFault))
  {
    var key := JsString(Get(r, "id").value);
    var step := Create(c, d, Metrics.Reportes, key, ReportePayload(r, now), faults, envReporte);
    CreateOnlyWhenAbsent(c, d, Metrics.Reportes, key, ReportePayload(r, now), faults, envReporte);
    SaveFailsOnlyTwice(c, step.disk, Historial, key, HistorialInicial(r, now), envHistorial);
  }

  method CrearReporte(store: Store, r: Json, now: string, faults: ReadFaults,
                      envReporte: SaveEnv, envHistorial: SaveEnv)
    returns (resp: Response)
    requires store.Valid()
    requires |envReporte.aesKey| == AesKeyBytes && |envReporte.iv| == IvBytes
    requires |envHistorial.aesKey| == AesKeyBytes && |envHistorial.iv| == IvBytes
    modifies store
    ensures store.Valid()
    ensures store.State() == CrearReporteSpec(store.codec, old(store.State()), r, now, faults, envReporte, envHistorial).disk
    ensures resp == CrearReporteSpec(store.codec, old(store.State()), r, now, faults, envReporte, envHistorial).resp
  {
    if !ReporteCompleto(r) {
      return ErrorResponse(400, FaltanCampos);
    }
    var id := Get(r, "id").value;
    var outcome := CreateRecord(store, Metrics.Reportes, JsString(id), ReportePayload(r, now), faults, envReporte);
    if outcome != Stored {
      return CreateResponse(outcome, ReporteMessages, id);
    }
    var saved := store.SaveEncrypted(Historial, JsString(id), HistorialInicial(r, now), envHistorial);
    if saved.Failure? {
      return CreateResponse(StoreFailed, ReporteMessages, id);
    }
    resp := CreateResponse(Stored, ReporteMessages, id);
  }

  // ------------------------------------------------------- history appends

  function EmptyHistorial(idReporte: string): Json {
    JObj(map["idReporte" := JStr(idReporte), "eventos" := JArr([])])
  }

  /** `historial.eventos.push(evento)`: it throws unless `eventos` is an
      array inside an object. */
  function Push(historial: Json, evento: Json): (r: Option<Json>)
    ensures r.Some? <==> Get(historial, "eventos").Some? && Get(historial, "eventos").value.JArr?
    ensures r.Some? ==>
              var before := historial.fields["eventos"].items;
              && r.value.JObj? && r.value.fields.Keys == historial.fields.Keys
              && (forall k | k in historial.fields && k != "eventos" :: r.value.fields[k] == historial.fields[k])
              && r.value.fields["eventos"].JArr?
              && var after := r.value.fields["eventos"].items;
                 |after| == |before| + 1 && after[..|before|] == before && after[|before|] == evento
  {
    if historial.JObj? && "eventos" in historial.fields && historial.fields["eventos"].JArr? then
      var items := historial.fields["eventos"].items;
      assert (items + [evento])[..|items|] == items;
      Some(JObj(historial.fields["eventos" := JArr(items + [evento])]))
    else None
  }

  /** The history a handler appends to: the stored one, or an empty one when
      the read says NOT_FOUND. */
  function PriorHistorial(c: Codec, d: Disk, faults: ReadFaults, idReporte: string): Result<Json, StoreError> {
    match Read(c, d, faults, Historial, idReporte)
    case Success(h) => Success(h)
    case Failure(e) => if e == NotFound then Success(EmptyHistorial(idReporte)) else Failure(e)
  }

  datatype AppendOutcome = HistorialUnreadable | HistorialMalformed | HistorialUnsaved | Appended(historial: Json)
  datatype AppendStep = AppendStep(disk: Disk, outcome: AppendOutcome)

  /** Read (or start) the history, push one event, save it. */
  function AppendEvento(c: Codec, d: Disk, faults: ReadFaults, idReporte: string, evento: Json, env: SaveEnv): AppendStep
    requires |env.aesKey| == AesKeyBytes && |env.iv| == IvBytes
  {
    match PriorHistorial(c, d, faults, idReporte)
    case Failure(_) => AppendStep(d, HistorialUnreadable)
    case Success(h) =>
      match Push(h, evento)
      case None => AppendStep(d, HistorialMalformed)
      case Some(h2) =>
        var s := Save(c, d, Historial, idReporte, h2, env);
        AppendStep(s.disk, if s.outcome.Success? then Appended(h2) else HistorialUnsaved)
  }

  /** A successful append stores the previous events followed by exactly the
      new one; a missing history starts from no events. */
  lemma AppendsExactlyOne(c: Codec, d: Disk, faults: ReadFaults, idReporte: string, evento: Json, env: SaveEnv)
    requires |env.aesKey| == AesKeyBytes && |env.iv| == IvBytes
    requires AppendEvento(c, d, faults, idReporte, evento, env).outcome.Appended?
    ensures var prior := PriorHistorial(c, d, faults, idReporte);
            var h2 := AppendEvento(c, d, faults, idReporte, evento, env).outcome.historial;
      && prior.Success? && Get(prior.value, "eventos").Some? && Get(prior.value, "eventos").value.JArr?
      && Get(h2, "eventos") == Some(JArr(Get(prior.value, "eventos").value.items + [evento]))
      && AppendEvento(c, d, faults, idReporte, evento, env).disk == Save(c, d, Historial, idReporte, h2, env).disk
    ensures Read(c, d, faults, Historial, idReporte) == Failure(NotFound) ==>
              Get(AppendEvento(c, d, faults, idReporte, evento, env).outcome.historial, "eventos") == Some(JArr([evento]))
  {
    var prior := PriorHistorial(c, d, faults, idReporte);
    var items := Get(prior.value, "eventos").value.items;
    var after := AppendEvento(c, d, faults, idReporte, evento, env).outcome.historial.fields["eventos"].items;
    assert after == items + [evento];
    if Read(c, d, faults, Historial, idReporte) == Failure(NotFound) {
      assert items == [];
    }
  }

  /** An online save of the history leaves a readable local copy in place,
      so the next read still returns the history without the new event. */
  lemma StaleCopyHidesAppend(c: Codec, d: Disk, faults: ReadFaults, idReporte: string, evento: Json, env: SaveEnv)
    requires Lawful(c)
    requires |env.aesKey| == AesKeyBytes && |env.iv| == IvBytes
    requires FallbackHit(d, faults, FileKey(Historial, idReporte + JsonSuffix))
    requires WriteOk(d.primary, Historial, env.primaryFault)
    requires FileKey(Historial, idReporte + JsonSuffix) !in faults.primaryUnreadable
    requires AppendEvento(c, d, faults, idReporte, evento, env).outcome.Appended?
    ensures Read(c, AppendEvento(c, d, faults, idReporte, evento, env).disk, faults, Historial, idReporte)
            == Read(c, d, faults, Historial, idReporte)
  {
    var h2 := AppendEvento(c, d, faults, idReporte, evento, env).outcome.historial;
    OnlineSaveThenRead(c, d, Historial, idReporte, h2, env, faults);
    FallbackFirst(c, d, faults, Historial, idReporte);
  }

  method AppendHistorial(store: Store, idReporte: string, evento: Json, faults: ReadFaults, env: SaveEnv)
    returns (outcome: AppendOutcome)
    requires store.Valid()
    requires |env.aesKey| == AesKeyBytes && |env.iv| == IvBytes
    modifies store
    ensures store.Valid()
    ensures store.State() == AppendEvento(store.codec, old(store.State()), faults, idReporte, evento, env).disk
    ensures outcome == AppendEvento(store.codec, old(store.State()), faults, idReporte, evento, env).outcome
  {
    var found := store.ReadEncrypted(Historial, idReporte, faults);
    var historial: Json;
    if found.Success? {
      historial := found.value;
    } else if found.error == NotFound {
      historial := EmptyHistorial(idReporte);
    } else {
      return HistorialUnreadable;
    }
    var pushed := Push(historial, evento);
    if pushed.None? {
      return HistorialMalformed;
    }
    var saved := store.SaveEncrypted(Historial, idReporte, pushed.value, env);
    outcome := if saved.Success? then Appended(pushed.value) else HistorialUnsaved;
  }

  // --------------------------------------------- PATCH /api/reportes/:id/estado

  predicate CambioCompleto(body: Json) {
    Present(Get(body, "nuevoEstado")) && Present(Get(body, "usuarioResponsable"))
  }

  /** The report after the assignments to `estadoActual` and `updatedAt`. */
  function CambiarEstado(reporte: Json, nuevoEstado: Json, now: string): Json {
    Set(Set(reporte, "estadoActual", nuevoEstado), "updatedAt", JStr(now))
  }

  /** The ESTADO_CAMBIADO event. An `estadoAnterior` that was undefined is
      dropped by JSON.stringify, so the key is then absent. */
  function EventoCambio(now: string, estadoAnterior: Option<Json>, nuevoEstado: Json, comentario: Option<Json>,
                        usuarioResponsable: Json): Json
  {
    var base := map[
      "fechaHora" := JStr(now),
      "estadoNuevo" := nuevoEstado,
      "comentario" := Or(comentario, JStr("")),
      "usuarioResponsable" := usuarioResponsable,
      "accion" := JStr("ESTADO_CAMBIADO")];
    JObj(if estadoAnterior.Some? then base["estadoAnterior" := estadoAnterior.value] else base)
  }

  /** The event a state change on `reporte` records. */
  function EventoDe(body: Json, reporte: Json, now: string): Json
    requires CambioCompleto(body)
  {
    EventoCambio(now, Get(reporte, "estadoActual"), Get(body, "nuevoEstado").value, Get(body, "comentario"),
                 Get(body, "usuarioResponsable").value)
  }

  /** The event records the previous state (when there was one), the new
      state, an empty comment by default, and the actor. */
  lemma EventoCambioShape(now: string, estadoAnterior: Option<Json>, nuevoEstado: Json, comentario: Option<Json>,
                          usuarioResponsable: Json)
    ensures var ev := EventoCambio(now, estadoAnterior, nuevoEstado, comentario, usuarioResponsable);
      && Get(ev, "accion") == Some(JStr("ESTADO_CAMBIADO"))
      && Get(ev, "estadoAnterior") == estadoAnterior
      && Get(ev, "estadoNuevo") == Some(nuevoEstado)
      && Get(ev, "usuarioResponsable") == Some(usuarioResponsable)
      && Get(ev, "comentario") == Some(if Present(comentario) then comentario.value else JStr(""))
  {
  }

  /** The answer once the history step is over: only a saved append
      succeeds; an unreadable history has its own message. */
  function HistorialResponse(outcome: AppendOutcome, success: Response, failed: string): (r: Response)
    ensures outcome.Appended? ==> r == success
    ensures !outcome.Appended? ==> r.status == 500
    ensures outcome == HistorialUnreadable ==> r == ErrorResponse(500, ErrorHistorial)
  {
    match outcome
    case HistorialUnreadable => ErrorResponse(500, ErrorHistorial)
    case HistorialMalformed => ErrorResponse(500, failed)
    case HistorialUnsaved => ErrorResponse(500, failed)
    case Appended(_) => success
  }

  /** PATCH once the report has been read. */
  function PatchFound(c: Codec, d: Disk, id: string, body: Json, reporte: Json, now: string, faults: ReadFaults,
                      envReporte: SaveEnv, envHistorial: SaveEnv): HandlerStep
    requires CambioCompleto(body)
    requires |envReporte.aesKey| == AesKeyBytes && |envReporte.iv| == IvBytes
    requires |envHistorial.aesKey| == AesKeyBytes && |envHistorial.iv| == IvBytes
  {
    if reporte.JNull? then HandlerStep(d, ErrorResponse(500, ErrorCambio))
    else
      var actualizado := CambiarEstado(reporte, Get(body, "nuevoEstado").value, now);
      var s := Save(c, d, Metrics.Reportes, id, actualizado, envReporte);
      if s.outcome.Failure? then HandlerStep(s.disk, ErrorResponse(500, ErrorCambio))
      else
        var evento := EventoDe(body, reporte, now);
        var h := AppendEvento(c, s.disk, faults, id, evento, envHistorial);
        var ok := Response(200, JObj(map[
          "message" := JStr("Estado de reporte actualizado"),
          "reporte" := actualizado,
          "ultimoEvento" := evento]));
        HandlerStep(h.disk, HistorialResponse(h.outcome, ok, ErrorCambio))
  }

  /** The effect and the answer of PATCH /api/reportes/:id/estado. */
  function Patch(c: Codec, d: Disk, id: string, body: Json, now: string, faults: ReadFaults,
                 envReporte: SaveEnv, envHistorial: SaveEnv): HandlerStep
    requires |envReporte.aesKey| == AesKeyBytes && |envReporte.iv| == IvBytes
    requires |envHistorial.aesKey| == AesKeyBytes && |envHistorial.iv| == IvBytes
  {
    if body.JNull? then HandlerStep(d, ExpressError)
    else if !CambioCompleto(body) then HandlerStep(d, ErrorResponse(400, FaltanCambio))
    else if !Includes(EstadosValidos, Get(body, "nuevoEstado")) then HandlerStep(d, ErrorResponse(400, EstadoNoValido))
    else
      match Read(c, d, faults, Metrics.Reportes, id)
      case Failure(e) =>
        HandlerStep(d, if e == NotFound then ErrorResponse(404, ReporteNoEncontrado) else ErrorResponse(500, ErrorCambio))
      case Success(reporte) => PatchFound(c, d, id, body, reporte, now, faults, envReporte, envHistorial)
  }

  /** Missing fields or a state outside ESTADOS_VALIDOS are answered 400
      before anything is read or written. */
  lemma PatchRejectsBeforeRead(c: Codec, d: Disk, id: string, body: Json, now: string, faults: ReadFaults,
                               envReporte: SaveEnv, envHistorial: SaveEnv)
    requires |envReporte.aesKey| == AesKeyBytes && |envReporte.iv| == IvBytes
    requires |envHistorial.aesKey| == AesKeyBytes && |envHistorial.iv| == IvBytes
    requires !body.JNull?
    requires !CambioCompleto(body) || !Includes(EstadosValidos, Get(body, "nuevoEstado"))
    ensures var r := Patch(c, d, id, body, now, faults, envReporte, envHistorial);
            r.resp.status == 400 && r.disk == d
    ensures forall faults2: ReadFaults ::
              Patch(c, d, id, body, now, faults2, envReporte, envHistorial)
              == Patch(c, d, id, body, now, faults, envReporte, envHistorial)
  {
  }

  /** A missing report is answered 404 and nothing is written. */
  lemma PatchMissingReport(c: Codec, d: Disk, id: string, body: Json, now: string, faults: ReadFaults,
                           envReporte: SaveEnv, envHistorial: SaveEnv)
    requires |envReporte.aesKey| == AesKeyBytes && |envReporte.iv| == IvBytes
    requires |envHistorial.aesKey| == AesKeyBytes && |envHistorial.iv| == IvBytes
    requires !body.JNull? && CambioCompleto(body) && Includes(EstadosValidos, Get(body, "nuevoEstado"))
    requires Read(c, d, faults, Metrics.Reportes, id) == Failure(NotFound)
    ensures Patch(c, d, id, body, now, faults, envReporte, envHistorial) == HandlerStep(d, ErrorResponse(404, ReporteNoEncontrado))
  {
  }

  /** The successful tail of PATCH, once the report is known. */
  lemma PatchFoundAppends(c: Codec, d: Disk, id: string, body: Json, reporte: Json, now: string, faults: ReadFaults,
                          envReporte: SaveEnv, envHistorial: SaveEnv)
    requires CambioCompleto(body)
    requires |envReporte.aesKey| == AesKeyBytes && |envReporte.iv| == IvBytes
    requires |envHistorial.aesKey| == AesKeyBytes && |envHistorial.iv| == IvBytes
    requires PatchFound(c, d, id, body, reporte, now, faults, envReporte, envHistorial).resp.status == 200
    ensures var actualizado := CambiarEstado(reporte, Get(body, "nuevoEstado").value, now);
            var s := Save(c, d, Metrics.Reportes, id, actualizado, envReporte);
            var evento := EventoDe(body, reporte, now);
            var h := AppendEvento(c, s.disk, faults, id, evento, envHistorial);
            var prior := PriorHistorial(c, s.disk, faults, id);
      && s.outcome.Success?
      && h.outcome.Appended?
      && prior.Success? && Get(prior.value, "eventos").Some? && Get(prior.value, "eventos").value.JArr?
      && Get(h.outcome.historial, "eventos") == Some(JArr(Get(prior.value, "eventos").value.items + [evento]))
      && PatchFound(c, d, id, body, reporte, now, faults, envReporte, envHistorial).disk == h.disk
  {
    var actualizado := CambiarEstado(reporte, Get(body, "nuevoEstado").value, now);
    var s := Save(c, d, Metrics.Reportes, id, actualizado, envReporte);
    AppendsExactlyOne(c, s.disk, faults, id, EventoDe(body, reporte, now), envHistorial);
  }

  /** A 200 means:
      - the new state was valid;
      - the report existed and was saved with `estadoActual` set to the new
        state;
      - the history got exactly one ESTADO_CAMBIADO event at the end of
        `eventos`, the earlier events unchanged;
      - the event's `estadoAnterior` is the report's old `estadoActual`. */
  lemma PatchAppendsOneEvent(c: Codec, d: Disk, id: string, body: Json, now: string, faults: ReadFaults,
                             envReporte: SaveEnv, envHistorial: SaveEnv)
    requires |envReporte.aesKey| == AesKeyBytes && |envReporte.iv| == IvBytes
    requires |envHistorial.aesKey| == AesKeyBytes && |envHistorial.iv| == IvBytes
    requires Patch(c, d, id, body, now, faults, envReporte, envHistorial).resp.status == 200
    ensures CambioCompleto(body) && Includes(EstadosValidos, Get(body, "nuevoEstado"))
    ensures Read(c, d, faults, Metrics.Reportes, id).Success?
    ensures var reporte := Read(c, d, faults, Metrics.Reportes, id).value;
            var nuevo := Get(body, "nuevoEstado").value;
            var actualizado := CambiarEstado(reporte, nuevo, now);
            var s := Save(c, d, Metrics.Reportes, id, actualizado, envReporte);
            var evento := EventoDe(body, reporte, now);
            var h := AppendEvento(c, s.disk, faults, id, evento, envHistorial);
            var prior := PriorHistorial(c, s.disk, faults, id);
      && (reporte.JObj? ==> Get(actualizado, "estadoActual") == Some(nuevo))
      && s.outcome.Success?
      && Get(evento, "accion") == Some(JStr("ESTADO_CAMBIADO"))
      && Get(evento, "estadoNuevo") == Some(nuevo)
      && Get(evento, "estadoAnterior") == Get(reporte, "estadoActual")
      && prior.Success? && Get(prior.value, "eventos").Some? && Get(prior.value, "eventos").value.JArr?
      && h.outcome.Appended?
      && Get(h.outcome.historial, "eventos") == Some(JArr(Get(prior.value, "eventos").value.items + [evento]))
      && Patch(c, d, id, body, now, faults, envReporte, envHistorial).disk == h.disk
  {
    assert !body.JNull? && CambioCompleto(body) && Includes(EstadosValidos, Get(body, "nuevoEstado"));
    var found := Read(c, d, faults, Metrics.Reportes, id);
    assert found.Success?;
    var reporte := found.value;
    assert Patch(c, d, id, body, now, faults, envReporte, envHistorial)
        == PatchFound(c, d, id, body, reporte, now, faults, envReporte, envHistorial);
    PatchFoundAppends(c, d, id, body, reporte, now, faults, envReporte, envHistorial);
    EventoCambioShape(now, Get(reporte, "estadoActual"), Get(body, "nuevoEstado").value, Get(body, "comentario"),
                      Get(body, "usuarioResponsable").value);
  }

  method PatchEstado(store: Store, id: string, body: Json, now: string, faults: ReadFaults,
                     envReporte: SaveEnv, envHistorial: SaveEnv)
    returns (resp: Response)
    requires store.Valid()
    requires |envReporte.aesKey| == AesKeyBytes && |envReporte.iv| == IvBytes
    requires |envHistorial.aesKey| == AesKeyBytes && |envHistorial.iv| == IvBytes
    modifies store
    ensures store.Valid()
    ensures store.State() == Patch(store.codec, old(store.State()), id, body, now, faults, envReporte, envHistorial).disk
    ensures resp == Patch(store.codec, old(store.State()), id, body, now, faults, envReporte, envHistorial).resp
  {
    if body.JNull? {
      return ExpressError;
    }
    var nuevoEstado := Get(body, "nuevoEstado");
    var comentario := Get(body, "comentario");
    var usuarioResponsable := Get(body, "usuarioResponsable");
    if !Present(nuevoEstado) || !Present(usuarioResponsable) {
      return ErrorResponse(400, FaltanCambio);
    }
    if !Includes(EstadosValidos, nuevoEstado) {
      return ErrorResponse(400, EstadoNoValido);
    }

    var found := store.ReadEncrypted(Metrics.Reportes, id, faults);
    if found.Failure? {
      return if found.error == NotFound then ErrorResponse(404, ReporteNoEncontrado) else ErrorResponse(500, ErrorCambio);
    }
    var reporte := found.value;
    if reporte.JNull? {
      return ErrorResponse(500, ErrorCambio);
    }
    var estadoAnterior := Get(reporte, "estadoActual");
    reporte := Set(reporte, "estadoActual", nuevoEstado.value);
    reporte := Set(reporte, "updatedAt", JStr(now));
    var saved := store.SaveEncrypted(Metrics.Reportes, id, reporte, envReporte);
    if saved.Failure? {
      return ErrorResponse(500, ErrorCambio);
    }

    var evento := EventoCambio(now, estadoAnterior, nuevoEstado.value, comentario, usuarioResponsable.value);
    var appended := AppendHistorial(store, id, evento, faults, envHistorial);
    var ok := Response(200, JObj(map[
      "message" := JStr("Estado de reporte actualizado"),
      "reporte" := reporte,
      "ultimoEvento" := evento]));
    resp := HistorialResponse(appended, ok, ErrorCambio);
  }

  // ----------------------------------------- POST /api/reportes/:id/evidencias

  predicate EvidenciaCompleta(body: Json) {
    Present(Get(body, "evidenciaId")) && Present(Get(body, "tipo")) && Present(Get(body, "nombreArchivo"))
    && Present(Get(body, "url")) && Present(Get(body, "usuarioId"))
  }

  function EvidenciaPayload(idReporte: string, body: Json, now: string): Json
    requires EvidenciaCompleta(body)
  {
    JObj(map[
      "id" := Get(body, "evidenciaId").value,
      "reporteId" := JStr(idReporte),
      "tipo" := Get(body, "tipo").value,
      "nombreArchivo" := Get(body, "nombreArchivo").value,
      "url" := Get(body, "url").value,
      "hash" := Or(Get(body, "hash"), JNull),
      "createdAt" := JStr(now)])
  }

  /** The EVIDENCIA_AGREGADA event: no state change, the file name in the comment. */
  function EventoEvidencia(body: Json, now: string): Json
    requires EvidenciaCompleta(body)
  {
    JObj(map[
      "fechaHora" := JStr(now),
      "estadoAnterior" := JNull,
      "estadoNuevo" := JNull,
      "comentario" := JStr("Evidencia agregada: " + JsString(Get(body, "nombreArchivo").value)),
      "usuarioResponsable" := Get(body, "usuarioId").value,
      "accion" := JStr("EVIDENCIA_AGREGADA")])
  }

  /** The evidence upload once the report is known to exist. */
  function EvidenciaFound(c: Codec, d: Disk, idReporte: string, body: Json, now: string, faults: ReadFaults,
                          envEvidencia: SaveEnv, envHistorial: SaveEnv): HandlerStep
    requires EvidenciaCompleta(body)
    requires |envEvidencia.aesKey| == AesKeyBytes && |envEvidencia.iv| == IvBytes
    requires |envHistorial.aesKey| == AesKeyBytes && |envHistorial.iv| == IvBytes
  {
    var evidencia := EvidenciaPayload(idReporte, body, now);
    var step := Create(c, d, Evidencias, JsString(Get(body, "evidenciaId").value), evidencia, faults, envEvidencia);
    match step.outcome
    case AlreadyExists => HandlerStep(d, ErrorResponse(409, "Ya existe una evidencia con ese id"))
    case LookupFailed => HandlerStep(d, ErrorResponse(500, ErrorInterno))
    case StoreFailed => HandlerStep(step.disk, ErrorResponse(500, ErrorEvidencia))
    case Stored =>
      var h := AppendEvento(c, step.disk, faults, idReporte, EventoEvidencia(body, now), envHistorial);
      var ok := Response(201, JObj(map["message" := JStr("Evidencia registrada"), "evidencia" := evidencia]));
      HandlerStep(h.disk, HistorialResponse(h.outcome, ok, ErrorEvidencia))
  }

  /** The effect and the answer of POST /api/reportes/:id/evidencias. */
  function Evidencia(c: Codec, d: Disk, idReporte: string, body: Json, now: string, faults: ReadFaults,
                     envEvidencia: SaveEnv, envHistorial: SaveEnv): HandlerStep
    requires |envEvidencia.aesKey| == AesKeyBytes && |envEvidencia.iv| == IvBytes
    requires |envHistorial.aesKey| == AesKeyBytes && |envHistorial.iv| == IvBytes
  {
    if body.JNull? then HandlerStep(d, ExpressError)
    else if !EvidenciaCompleta(body) then HandlerStep(d, ErrorResponse(400, FaltanEvidencia))
    else if !Includes(TiposValidos, Get(body, "tipo")) then HandlerStep(d, ErrorResponse(400, TipoNoValido))
    else
      match Read(c, d, faults, Metrics.Reportes, idReporte)
      case Failure(e) =>
        HandlerStep(d, if e == NotFound then ErrorResponse(404, ReporteNoEncontrado) else ErrorResponse(500, ErrorInterno))
      case Success(_) => EvidenciaFound(c, d, idReporte, body, now, faults, envEvidencia, envHistorial)
  }

  /** The successful tail of the evidence upload. */
  lemma EvidenciaFoundAppends(c: Codec, d: Disk, idReporte: string, body: Json, now: string, faults: ReadFaults,
                              envEvidencia: SaveEnv, envHistorial: SaveEnv)
    requires EvidenciaCompleta(body)
    requires |envEvidencia.aesKey| == AesKeyBytes && |envEvidencia.iv| == IvBytes
    requires |envHistorial.aesKey| == AesKeyBytes && |envHistorial.iv| == IvBytes
    requires EvidenciaFound(c, d, idReporte, body, now, faults, envEvidencia, envHistorial).resp.status == 201
    ensures var key := JsString(Get(body, "evidenciaId").value);
            var s := Save(c, d, Evidencias, key, EvidenciaPayload(idReporte, body, now), envEvidencia);
            var evento := EventoEvidencia(body, now);
            var h := AppendEvento(c, s.disk, faults, idReporte, evento, envHistorial);
            var prior := PriorHistorial(c, s.disk, faults, idReporte);
      && Read(c, d, faults, Evidencias, key) == Failure(NotFound)
      && s.outcome.Success?
      && h.outcome.Appended?
      && prior.Success? && Get(prior.value, "eventos").Some? && Get(prior.value, "eventos").value.JArr?
      && Get(h.outcome.historial, "eventos") == Some(JArr(Get(prior.value, "eventos").value.items + [evento]))
      && EvidenciaFound(c, d, idReporte, body, now, faults, envEvidencia, envHistorial).disk == h.disk
  {
    var key := JsString(Get(body, "evidenciaId").value);
    var evidencia := EvidenciaPayload(idReporte, body, now);
    CreateOnlyWhenAbsent(c, d, Evidencias, key, evidencia, faults, envEvidencia);
    var s := Save(c, d, Evidencias, key, evidencia, envEvidencia);
    AppendsExactlyOne(c, s.disk, faults, idReporte, EventoEvidencia(body, now), envHistorial);
  }

  /** The EVIDENCIA_AGREGADA event changes no state and names the file. */
  lemma EventoEvidenciaShape(body: Json, now: string)
    requires EvidenciaCompleta(body)
    ensures var ev := EventoEvidencia(body, now);
      && Get(ev, "accion") == Some(JStr("EVIDENCIA_AGREGADA"))
      && Get(ev, "estadoAnterior") == Some(JNull) && Get(ev, "estadoNuevo") == Some(JNull)
      && Get(ev, "usuarioResponsable") == Get(body, "usuarioId")
      && Get(ev, "comentario") == Some(JStr("Evidencia agregada: " + JsString(Get(body, "nombreArchivo").value)))
  {
  }

  /** A 201 means the body was complete, the type valid and the report
      existed; what happened to the store is then what EvidenciaFound says
      (see EvidenciaFoundAppends). */
  lemma EvidenceRecorded(c: Codec, d: Disk, idReporte: string, body: Json, now: string, faults: ReadFaults,
                         envEvidencia: SaveEnv, envHistorial: SaveEnv)
    requires |envEvidencia.aesKey| == AesKeyBytes && |envEvidencia.iv| == IvBytes
    requires |envHistorial.aesKey| == AesKeyBytes && |envHistorial.iv| == IvBytes
    requires Evidencia(c, d, idReporte, body, now, faults, envEvidencia, envHistorial).resp.status == 201
    ensures !body.JNull? && EvidenciaCompleta(body) && Includes(TiposValidos, Get(body, "tipo"))
    ensures Read(c, d, faults, Metrics.Reportes, idReporte).Success?
    ensures Evidencia(c, d, idReporte, body, now, faults, envEvidencia, envHistorial)
            == EvidenciaFound(c, d, idReporte, body, now, faults, envEvidencia, envHistorial)
  {
  }

  method RegistrarEvidencia(store: Store, idReporte: string, body: Json, now: string, faults: ReadFaults,
                            envEvidencia: SaveEnv, envHistorial: SaveEnv)
    returns (resp: Response)
    requires store.Valid()
    requires |envEvidencia.aesKey| == AesKeyBytes && |envEvidencia.iv| == IvBytes
    requires |envHistorial.aesKey| == AesKeyBytes && |envHistorial.iv| == IvBytes
    modifies store
    ensures store.Valid()
    ensures store.State() == Evidencia(store.codec, old(store.State()), idReporte, body, now, faults, envEvidencia, envHistorial).disk
    ensures resp == Evidencia(store.codec, old(store.State()), idReporte, body, now, faults, envEvidencia, envHistorial).resp
  {
    if body.JNull? {
      return ExpressError;
    }
    if !EvidenciaCompleta(body) {
      return ErrorResponse(400, FaltanEvidencia);
    }
    if !Includes(TiposValidos, Get(body, "tipo")) {
      return ErrorResponse(400, TipoNoValido);
    }

    var reporte := store.ReadEncrypted(Metrics.Reportes, idReporte, faults);
    if reporte.Failure? {
      return if reporte.error == NotFound then ErrorResponse(404, ReporteNoEncontrado) else ErrorResponse(500, ErrorInterno);
    }

    var evidencia := EvidenciaPayload(idReporte, body, now);
    var outcome := CreateRecord(store, Evidencias, JsString(Get(body, "evidenciaId").value), evidencia, faults, envEvidencia);
    if outcome == AlreadyExists {
      return ErrorResponse(409, "Ya existe una evidencia con ese id");
    } else if outcome == LookupFailed {
      return ErrorResponse(500, ErrorInterno);
    } else if outcome == StoreFailed {
      return ErrorResponse(500, ErrorEvidencia);
    }

    var appended := AppendHistorial(store, idReporte, EventoEvidencia(body, now), faults, envHistorial);
    var ok := Response(201, JObj(map["message" := JStr("Evidencia registrada"), "evidencia" := evidencia]));
    resp := HistorialResponse(appended, ok, ErrorEvidencia);
  }
}
