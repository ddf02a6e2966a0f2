/**
 * Monthly metrics: the reports created in one period, counted per category,
 * with the number of them that are resolved or closed.
 */
module Metrics {
  import opened JsValues
  import opened CryptoService
  import opened DfsService

  const Reportes: string := "reportes"
  const Categorias: string := "categorias"

  /** The properties every plain object inherits from Object.prototype. For
      such a key `metricas[key]` is already truthy, so no counter is created
      and the increments land on the inherited value: the key never shows up
      among the metrics. */
  const ObjectPrototypeKeys: set<string> := {
    "constructor", "__proto__", "__defineGetter__", "__defineSetter__",
    "__lookupGetter__", "__lookupSetter__", "hasOwnProperty", "isPrototypeOf",
    "propertyIsEnumerable", "toString", "toLocaleString", "valueOf" }

  /** `{ reportados, resueltos }` of one category. */
  datatype Counts = Counts(reportados: nat, resueltos: nat)

  // ------------------------------------------------- what a report says

  /** `r.createdAt || r.created_at` */
  function CreatedAt(r: Json): Option<Json> {
    OrElse(Get(r, "createdAt"), Get(r, "created_at"))
  }

  /** The report is processed: it is truthy, has a creation date, and that
      date falls in `periodo` (`periodOf` is obtenerPeriodo). */
  predicate InPeriod(r: Json, periodo: string, periodOf: Json -> string) {
    Truthy(r) && Present(CreatedAt(r)) && periodOf(CreatedAt(r).value) == periodo
  }

  /** The property key `r.categoriaId || r.categoria_id` is turned into. */
  function CatKey(r: Json): Option<string> {
    var id := OrElse(Get(r, "categoriaId"), Get(r, "categoria_id"));
    if Present(id) then Some(JsString(id.value)) else None
  }

  /** `r.estadoActual || r.estado_actual` is 'RESUELTO' or 'CERRADO'. */
  predicate Resolved(r: Json) {
    var e := OrElse(Get(r, "estadoActual"), Get(r, "estado_actual"));
    e == Some(JStr("RESUELTO")) || e == Some(JStr("CERRADO"))
  }

  /** The report is counted under category key `k`. */
  predicate Tallied(r: Json, periodo: string, periodOf: Json -> string, k: string) {
    InPeriod(r, periodo, periodOf) && CatKey(r) == Some(k) && k !in ObjectPrototypeKeys
  }

  // ------------------------------------------------------ reference counts

  /** totalProcesados: the number of processed reports. */
  function CountInPeriod(rs: seq<Json>, periodo: string, periodOf: Json -> string): nat
    decreases |rs|
  {
    if |rs| == 0 then 0
    else CountInPeriod(rs[..|rs| - 1], periodo, periodOf) + (if InPeriod(rs[|rs| - 1], periodo, periodOf) then 1 else 0)
  }

  /** The number of processed reports of category `k`. */
  function Reported(rs: seq<Json>, periodo: string, periodOf: Json -> string, k: string): nat
    decreases |rs|
  {
    if |rs| == 0 then 0
    else Reported(rs[..|rs| - 1], periodo, periodOf, k) + (if Tallied(rs[|rs| - 1], periodo, periodOf, k) then 1 else 0)
  }

  /** The number of those that are resolved or closed. */
  function ResolvedCount(rs: seq<Json>, periodo: string, periodOf: Json -> string, k: string): nat
    decreases |rs|
  {
    if |rs| == 0 then 0
    else
      var r := rs[|rs| - 1];
      ResolvedCount(rs[..|rs| - 1], periodo, periodOf, k) + (if Tallied(r, periodo, periodOf, k) && Resolved(r) then 1 else 0)
  }

  // ------------------------------------------------------------ the loop

  /** The loop of calcularMetricasPorPeriodo over the decrypted reports. */
  method Aggregate(reportes: seq<Json>, periodo: string, periodOf: Json -> string)
    returns (metricas: map<string, Counts>, totalProcesados: nat)
    ensures totalProcesados == CountInPeriod(reportes, periodo, periodOf)
    ensures forall k :: k in metricas <==> Reported(reportes, periodo, periodOf, k) > 0
    ensures forall k | k in metricas ::
              metricas[k] == Counts(Reported(reportes, periodo, periodOf, k), ResolvedCount(reportes, periodo, periodOf, k))
  {
    metricas := map[];
    totalProcesados := 0;
    for i := 0 to |reportes|
      invariant totalProcesados == CountInPeriod(reportes[..i], periodo, periodOf)
      invariant forall k :: k in metricas <==> Reported(reportes[..i], periodo, periodOf, k) > 0
      invariant forall k | k in metricas ::
                  metricas[k] == Counts(Reported(reportes[..i], periodo, periodOf, k), ResolvedCount(reportes[..i], periodo, periodOf, k))
    {
      var r := reportes[i];
      PrefixStep(reportes, i, periodo, periodOf);
      if !Truthy(r) {
        continue;
      }
      var fechaCreacion := OrElse(Get(r, "createdAt"), Get(r, "created_at"));
      if !Present(fechaCreacion) {
        continue;
      }
      var per := periodOf(fechaCreacion.value);
      if per != periodo {
        continue;
      }
      totalProcesados := totalProcesados + 1;

      var catId := OrElse(Get(r, "categoriaId"), Get(r, "categoria_id"));
      if !Present(catId) {
        continue;
      }
      var key := JsString(catId.value);
      if key in ObjectPrototypeKeys {
        continue;
      }
      if key !in metricas {
        ResolvedAtMostReported(reportes[..i], periodo, periodOf, key);
        metricas := metricas[key := Counts(0, 0)];
      }
      metricas := metricas[key := metricas[key].(reportados := metricas[key].reportados + 1)];

      var estado := OrElse(Get(r, "estadoActual"), Get(r, "estado_actual"));
      if estado == Some(JStr("RESUELTO")) || estado == Some(JStr("CERRADO")) {
        metricas := metricas[key := metricas[key].(resueltos := metricas[key].resueltos + 1)];
      }
    }
    assert reportes[..|reportes|] == reportes;
  }

  /** How each count grows when the loop takes one more report. */
  lemma PrefixStep(rs: seq<Json>, i: nat, periodo: string, periodOf: Json -> string)
    requires i < |rs|
    ensures CountInPeriod(rs[..i + 1], periodo, periodOf)
              == CountInPeriod(rs[..i], periodo, periodOf) + (if InPeriod(rs[i], periodo, periodOf) then 1 else 0)
    ensures forall k :: Reported(rs[..i + 1], periodo, periodOf, k)
              == Reported(rs[..i], periodo, periodOf, k) + (if Tallied(rs[i], periodo, periodOf, k) then 1 else 0)
    ensures forall k :: ResolvedCount(rs[..i + 1], periodo, periodOf, k)
              == ResolvedCount(rs[..i], periodo, periodOf, k)
                 + (if Tallied(rs[i], periodo, periodOf, k) && Resolved(rs[i]) then 1 else 0)
  {
    assert rs[..i + 1][..i] == rs[..i];
    assert rs[..i + 1][i] == rs[i];
  }

  // ------------------------------------------------------- category index

  /** The key `categoriasPorId[c.id]` is stored under, for a truthy `c`
      with a truthy id. */
  function CatIdKey(c: Json): Option<string> {
    var id := Get(c, "id");
    if Truthy(c) && Present(id) then Some(JsString(id.value)) else None
  }

  /** The category the index holds under `k`: the last one carrying that id.
      Assigning to `__proto__` replaces the prototype instead of adding a key. */
  function LastWithId(cats: seq<Json>, k: string): Option<Json>
    decreases |cats|
  {
    if |cats| == 0 then None
    else if CatIdKey(cats[|cats| - 1]) == Some(k) && k != "__proto__" then Some(cats[|cats| - 1])
    else LastWithId(cats[..|cats| - 1], k)
  }

  /** `categorias.forEach(c => { if (c && c.id) categoriasPorId[c.id] = c; })` */
  method IndexCategorias(categorias: seq<Json>) returns (porId: map<string, Json>)
    ensures forall k :: k in porId <==> LastWithId(categorias, k).Some?
    ensures forall k | k in porId :: porId[k] == LastWithId(categorias, k).value
  {
    porId := map[];
    for i := 0 to |categorias|
      invariant forall k :: k in porId <==> LastWithId(categorias[..i], k).Some?
      invariant forall k | k in porId :: porId[k] == LastWithId(categorias[..i], k).value
    {
      var c := categorias[i];
      assert categorias[..i + 1][..i] == categorias[..i];
      assert categorias[..i + 1][i] == c;
      var id := Get(c, "id");
      if Truthy(c) && Present(id) {
        var key := JsString(id.value);
        if key != "__proto__" {
          porId := porId[key := c];
        }
      }
    }
    assert categorias[..|categorias|] == categorias;
  }

  // -------------------------------------------------------------- the whole

  datatype MetricasPeriodo = MetricasPeriodo(periodo: string, metricas: map<string, Counts>, categoriasPorId: map<string, Json>)

  /** calcularMetricasPorPeriodo: both collections are listed from the store
      (in some order, failed reads dropped) and aggregated. */
  method CalcularMetricasPorPeriodo(store: Store, periodo: string, periodOf: Json -> string,
                                    faults: ReadFaults, lfCategorias: ListFaults, lfReportes: ListFaults)
    returns (r: MetricasPeriodo, ghost catOrder: seq<string>, ghost repOrder: seq<string>)
    requires store.Valid()
    ensures r.periodo == periodo
    ensures NoDuplicates(catOrder) && Elements(catOrder) == Listed(store.State(), Categorias, lfCategorias)
    ensures NoDuplicates(repOrder) && Elements(repOrder) == Listed(store.State(), Reportes, lfReportes)
    ensures var reportes := Collect(store.codec, store.State(), faults, Reportes, repOrder);
      && (forall k :: k in r.metricas <==> Reported(reportes, periodo, periodOf, k) > 0)
      && (forall k | k in r.metricas ::
            r.metricas[k] == Counts(Reported(reportes, periodo, periodOf, k), ResolvedCount(reportes, periodo, periodOf, k)))
    ensures var cats := Collect(store.codec, store.State(), faults, Categorias, catOrder);
      && (forall k :: k in r.categoriasPorId <==> LastWithId(cats, k).Some?)
      && (forall k | k in r.categoriasPorId :: r.categoriasPorId[k] == LastWithId(cats, k).value)
  {
    var categorias;
    categorias, catOrder := store.ListAllEncrypted(Categorias, faults, lfCategorias);
    var categoriasPorId := IndexCategorias(categorias);
    var reportes;
    reportes, repOrder := store.ListAllEncrypted(Reportes, faults, lfReportes);
    var metricas, totalProcesados := Aggregate(reportes, periodo, periodOf);
    r := MetricasPeriodo(periodo, metricas, categoriasPorId);
  }

  // ============================================================ properties

  /** A category never has more resolved reports than reports. */
  lemma {:induction false} ResolvedAtMostReported(rs: seq<Json>, periodo: string, periodOf: Json -> string, k: string)
    ensures ResolvedCount(rs, periodo, periodOf, k) <= Reported(rs, periodo, periodOf, k)
    decreases |rs|
  {
    if |rs| > 0 {
      ResolvedAtMostReported(rs[..|rs| - 1], periodo, periodOf, k);
    }
  }

  /** Sum of `Reported` over a list of category keys. */
  function SumReported(rs: seq<Json>, periodo: string, periodOf: Json -> string, keys: seq<string>): nat
    decreases |keys|
  {
    if |keys| == 0 then 0
    else SumReported(rs, periodo, periodOf, keys[1..]) + Reported(rs, periodo, periodOf, keys[0])
  }

  /** One more report adds one to the sum exactly when it is counted under a
      key of the (duplicate-free) list. */
  lemma {:induction false} SumReportedStep(rs: seq<Json>, r: Json, periodo: string, periodOf: Json -> string, keys: seq<string>)
    requires NoDuplicates(keys)
    ensures SumReported(rs + [r], periodo, periodOf, keys)
              == SumReported(rs, periodo, periodOf, keys)
                 + (if exists i | 0 <= i < |keys| :: Tallied(r, periodo, periodOf, keys[i]) then 1 else 0)
    decreases |keys|
  {
    assert (rs + [r])[..|rs|] == rs;
    if |keys| > 0 {
      var tail := keys[1..];
      assert NoDuplicates(tail) by {
        forall i, j | 0 <= i < j < |tail| ensures tail[i] != tail[j] {
          assert tail[i] == keys[i + 1] && tail[j] == keys[j + 1];
        }
      }
      SumReportedStep(rs, r, periodo, periodOf, tail);
      if Tallied(r, periodo, periodOf, keys[0]) {
        forall i | 0 <= i < |tail| ensures !Tallied(r, periodo, periodOf, tail[i]) {
          assert tail[i] == keys[i + 1];
        }
      } else {
        if exists i | 0 <= i < |keys| :: Tallied(r, periodo, periodOf, keys[i]) {
          var i :| 0 <= i < |keys| && Tallied(r, periodo, periodOf, keys[i]);
          assert tail[i - 1] == keys[i];
        }
      }
    }
  }

  /** Each processed report is counted under at most one category, so the
      reports of distinct categories add up to at most totalProcesados. */
  lemma {:induction false} CategoriesWithinTotal(rs: seq<Json>, periodo: string, periodOf: Json -> string, keys: seq<string>)
    requires NoDuplicates(keys)
    ensures SumReported(rs, periodo, periodOf, keys) <= CountInPeriod(rs, periodo, periodOf)
    ensures CountInPeriod(rs, periodo, periodOf) <= |rs|
    decreases |rs|
  {
    if |rs| == 0 {
      SumReportedEmpty(periodo, periodOf, keys);
    } else {
      var init := rs[..|rs| - 1];
      var r := rs[|rs| - 1];
      assert rs == init + [r];
      CategoriesWithinTotal(init, periodo, periodOf, keys);
      SumReportedStep(init, r, periodo, periodOf, keys);
    }
  }

  lemma {:induction false} SumReportedEmpty(periodo: string, periodOf: Json -> string, keys: seq<string>)
    ensures SumReported([], periodo, periodOf, keys) == 0
    decreases |keys|
  {
    if |keys| > 0 {
      SumReportedEmpty(periodo, periodOf, keys[1..]);
    }
  }

  /** The index only holds categories under their own id. */
  lemma {:induction false} LastWithIdSound(cats: seq<Json>, k: string)
    requires LastWithId(cats, k).Some?
    ensures LastWithId(cats, k).value in cats
    ensures CatIdKey(LastWithId(cats, k).value) == Some(k) && k != "__proto__"
    decreases |cats|
  {
    if CatIdKey(cats[|cats| - 1]) != Some(k) || k == "__proto__" {
      LastWithIdSound(cats[..|cats| - 1], k);
    }
  }

  /** Every category with a truthy id is indexed, and a later one with the
      same id replaces it. */
  lemma {:induction false} LastWithIdComplete(cats: seq<Json>, i: nat, k: string)
    requires i < |cats| && CatIdKey(cats[i]) == Some(k) && k != "__proto__"
    ensures LastWithId(cats, k).Some?
    ensures (forall j | i < j < |cats| :: CatIdKey(cats[j]) != Some(k)) ==> LastWithId(cats, k) == Some(cats[i])
    decreases |cats|
  {
    if i < |cats| - 1 {
      var init := cats[..|cats| - 1];
      assert init[i] == cats[i];
      LastWithIdComplete(init, i, k);
      if forall j | i < j < |cats| :: CatIdKey(cats[j]) != Some(k) {
        forall j | i < j < |init| ensures CatIdKey(init[j]) != Some(k) {
          assert init[j] == cats[j];
        }
      }
    }
  }
}
