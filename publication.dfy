/**
 * The monthly summary post: a header, one compact line per category (most
 * reported first) while the text stays within 260 code units, and the
 * hashtags, cut to 280 code units. JavaScript measures and cuts strings in
 * UTF-16 code units, so the text is built as a sequence of code units.
 */
module Publication {
  import opened JsValues
  import opened Metrics

  type CodeUnit = u: int | 0 <= u < 0x1_0000
  type Text = seq<CodeUnit>

  const LineBudget: nat := 260
  const MaxUnits: nat := 280
  const CutAt: nat := 277

  const Meses: seq<string> := ["Ene", "Feb", "Mar", "Abr", "May", "Jun", "Jul", "Ago", "Sep", "Oct", "Nov", "Dic"]
  const DefaultUaa: string := "la UAA"
  const NoIncidents: string := "\U{2705} Sin incidentes registrados este mes. #UAA"
  const More: string := "... y m\U{E1}s categor\U{ED}as.\n"
  const Hashtags: string := "#UAA #SistemasDistribuidos"
  const Ellipsis: string := "..."
  const BarFull: char := '\U{2593}'
  const BarEmpty: char := '\U{2591}'

  // ------------------------------------------------------------- UTF-16

  function CharUnits(c: char): (u: Text)
    ensures |u| == if c as int < 0x1_0000 then 1 else 2
  {
    var n := c as int;
    if n < 0x1_0000 then [n]
    else [0xD800 + (n - 0x1_0000) / 0x400, 0xDC00 + (n - 0x1_0000) % 0x400]
  }

  /** The UTF-16 encoding of a string, the units `.length` counts. */
  function Utf16(s: string): Text
    decreases |s|
  {
    if |s| == 0 then [] else CharUnits(s[0]) + Utf16(s[1..])
  }

  /** The code units of a string all of whose characters are below
      U+10000: one unit per character. */
  function BmpUnits(s: string): (u: Text)
    ensures |u| == |s|
  {
    seq(|s|, i requires 0 <= i < |s| => if s[i] as int < 0x1_0000 then s[i] as int else 0xFFFD)
  }

  lemma {:induction false} BmpUnitsAgree(s: string)
    requires forall c | c in s :: c as int < 0x1_0000
    ensures BmpUnits(s) == Utf16(s)
    decreases |s|
  {
    if |s| > 0 {
      assert forall i | 0 <= i < |s| :: s[i] in s;
      assert forall c | c in s[1..] :: c in s;
      BmpUnitsAgree(s[1..]);
      assert BmpUnits(s) == [s[0] as int] + BmpUnits(s[1..]);
    }
  }

  lemma {:induction false} Utf16Append(a: string, b: string)
    ensures Utf16(a + b) == Utf16(a) + Utf16(b)
    decreases |a|
  {
    if |a| > 0 {
      assert (a + b)[1..] == a[1..] + b;
      Utf16Append(a[1..], b);
    } else {
      assert a + b == b;
    }
  }

  /** The fixed wording of the post lies below U+10000, so its code units
      are its characters. */
  lemma WordingNoIncidents()
    ensures BmpUnits(NoIncidents) == Utf16(NoIncidents)
  {
    BmpUnitsAgree(NoIncidents);
  }

  lemma WordingMore()
    ensures BmpUnits(More) == Utf16(More)
  {
    BmpUnitsAgree(More);
  }

  lemma WordingHashtags()
    ensures BmpUnits(Hashtags) == Utf16(Hashtags)
  {
    BmpUnitsAgree(Hashtags);
  }

  lemma WordingEllipsis()
    ensures BmpUnits(Ellipsis) == Utf16(Ellipsis)
  {
    BmpUnitsAgree(Ellipsis);
  }

  lemma {:induction false} Utf16Bmp(s: string)
    requires forall i | 0 <= i < |s| :: s[i] as int < 0x1_0000
    ensures |Utf16(s)| == |s|
    decreases |s|
  {
    if |s| > 0 {
      Utf16Bmp(s[1..]);
    }
  }

  // ------------------------------------------------------------- header

  /** `meses[parseInt(month) - 1]`, rendered inside the template. */
  function NombreMes(periodo: string): string {
    var parts := Split(periodo, '-');
    var n := if |parts| >= 2 then ParseInt(parts[1]) else None;
    if n.Some? && 1 <= n.value <= 12 then Meses[n.value - 1] else "undefined"
  }

  function Header(uaaNombre: Option<string>, periodo: string): Text {
    var nombreUaa := if uaaNombre.Some? && uaaNombre.value != "" then uaaNombre.value else DefaultUaa;
    var year := Split(periodo, '-')[0];
    Utf16("\U{1F4CA} Reporte Mensual " + nombreUaa + "\n\U{1F5D3}\U{FE0F} " + NombreMes(periodo) + " " + year + "\n\n")
  }

  // -------------------------------------------------------- one line

  datatype PublishError = TypeError | RangeError

  /** `Math.round((resueltos / reportados) * 100)`, in exact arithmetic:
      the nearest integer, halves rounded up. */
  function Porcentaje(reportados: nat, resueltos: nat): (p: nat)
    ensures reportados == 0 ==> p == 0
    ensures reportados > 0 ==> 200 * resueltos < 2 * reportados * p + reportados
    ensures reportados > 0 ==> 2 * reportados * p <= 200 * resueltos + reportados
  {
    if reportados > 0 then (200 * resueltos + reportados) / (2 * reportados) else 0
  }

  /** `Math.round(porcentaje / 33)`; p/33 is never half-way between integers. */
  function Filled(porcentaje: nat): (f: nat)
    ensures 66 * f <= 2 * porcentaje + 33 < 66 * f + 66
  {
    (2 * porcentaje + 33) / 66
  }

  function Repeat(c: char, n: nat): (s: string)
    ensures |s| == n && forall i | 0 <= i < n :: s[i] == c
  {
    if n == 0 then [] else [c] + Repeat(c, n - 1)
  }

  /** `'▓'.repeat(filled) + '░'.repeat(3 - filled)`; a negative count throws. */
  function Bar(filled: nat): Result<string, PublishError> {
    if filled > 3 then Failure(RangeError) else Success(Repeat(BarFull, filled) + Repeat(BarEmpty, 3 - filled))
  }

  /** The icon picked by keywords of the lower-cased category name. */
  function Icon(nombreLower: string): string {
    if Contains(nombreLower, "red") || Contains(nombreLower, "wifi") then "\U{1F4F6}"
    else if Contains(nombreLower, "agua") || Contains(nombreLower, "fuga") then "\U{1F4A7}"
    else if Contains(nombreLower, "luz") || Contains(nombreLower, "electric") then "\U{26A1}"
    else if Contains(nombreLower, "limpieza") then "\U{1F9F9}"
    else "\U{1F527}"
  }

  /** `(cat && cat.nombre) ? cat.nombre : catId`; a name that is not a
      string has no toLowerCase. */
  function NombreCat(catId: string, categoriasPorId: map<string, Json>): Result<string, PublishError> {
    var nombre := if catId in categoriasPorId && Truthy(categoriasPorId[catId]) then Get(categoriasPorId[catId], "nombre") else None;
    if !Present(nombre) then Success(catId)
    else if nombre.value.JStr? then Success(nombre.value.s)
    else Failure(TypeError)
  }

  /** `metricas[catId]`, for a key of the map. */
  function CountsOf(metricas: map<string, Counts>, catId: string): Counts {
    if catId in metricas then metricas[catId] else Counts(0, 0)
  }

  /** The line of one category, or the error that building it throws. */
  function Line(catId: string, metricas: map<string, Counts>, categoriasPorId: map<string, Json>): Result<Text, PublishError> {
    var counts := CountsOf(metricas, catId);
    var porcentaje := Porcentaje(counts.reportados, counts.resueltos);
    match Bar(Filled(porcentaje))
    case Failure(e) => Failure(e)
    case Success(bar) =>
      match NombreCat(catId, categoriasPorId)
      case Failure(e) => Failure(e)
      case Success(nombre) =>
        Success(Utf16(Icon(Lower(nombre)) + " " + nombre + ": " + NatToString(counts.reportados)
                      + " (" + NatToString(porcentaje) + "% ok) " + bar + "\n"))
  }

  // ---------------------------------------------------------- the body

  /** The line of each key, in order. */
  function LineResults(keys: seq<string>, metricas: map<string, Counts>, categoriasPorId: map<string, Json>)
    : (ls: seq<Result<Text, PublishError>>)
    ensures |ls| == |keys|
  {
    seq(|keys|, i requires 0 <= i < |keys| => Line(keys[i], metricas, categoriasPorId))
  }

  /** The loop over the lines of the sorted keys, from the body `cuerpo`
      built so far: a line is added while header, body and line fit in 260
      units; the first one that does not is replaced by the "more
      categories" marker, and the loop stops. */
  function Body(header: Text, cuerpo: Text, lines: seq<Result<Text, PublishError>>, more: Text): Result<Text, PublishError>
    decreases |lines|
  {
    if |lines| == 0 then Success(cuerpo)
    else
      match lines[0]
      case Failure(e) => Failure(e)
      case Success(linea) =>
        if |header| + |cuerpo| + |linea| > LineBudget then Success(cuerpo + more)
        else Body(header, cuerpo + linea, lines[1..], more)
  }

  /** The hashtags are appended and the text cut to 277 units plus "...". */
  function Finish(header: Text, cuerpo: Text): Text {
    var t := header + cuerpo + BmpUnits(Hashtags);
    if |t| > MaxUnits then t[..CutAt] + BmpUnits(Ellipsis) else t
  }

  function Publication(uaaNombre: Option<string>, periodo: string, metricas: map<string, Counts>,
                       categoriasPorId: map<string, Json>, order: seq<string>): Result<Text, PublishError>
  {
    var header := Header(uaaNombre, periodo);
    if |metricas| == 0 then Success(header + BmpUnits(NoIncidents))
    else
      match Body(header, [], LineResults(order, metricas, categoriasPorId), BmpUnits(More))
      case Failure(e) => Failure(e)
      case Success(cuerpo) => Success(Finish(header, cuerpo))
  }

  /** Most reported first. */
  predicate Descending(keys: seq<string>, metricas: map<string, Counts>) {
    SortedRange(keys, metricas, 0, |keys|)
  }

  // ------------------------------------------------------------ methods

  /** `Object.keys(metricas)`: every key once. The order Object.keys fixes
      (integer-like keys ascending, then the others by first insertion) is
      not modelled: any order is allowed. */
  method KeysOf(metricas: map<string, Counts>) returns (keys: seq<string>)
    ensures multiset(keys) == multiset(metricas.Keys)
  {
    keys := [];
    var rest := metricas.Keys;
    while rest != {}
      invariant rest <= metricas.Keys
      invariant multiset(keys) + multiset(rest) == multiset(metricas.Keys)
      decreases rest
    {
      var k :| k in rest;
      assert multiset(rest) == multiset(rest - {k}) + multiset{k};
      keys := keys + [k];
      rest := rest - {k};
    }
  }

  /** `metricas[k].reportados`, the sort key. */
  function Reports(metricas: map<string, Counts>, k: string): nat {
    CountsOf(metricas, k).reportados
  }

  /** `s[lo..hi]` is most reported first. */
  predicate SortedRange(s: seq<string>, metricas: map<string, Counts>, lo: int, hi: int) {
    forall x, y | lo <= x < y < hi && 0 <= x && y < |s| :: Reports(metricas, s[x]) >= Reports(metricas, s[y])
  }

  /** `catIds.sort((a, b) => metricas[b].reportados - metricas[a].reportados)`
      in place, as a stable insertion sort. */
  method SortByReportados(a: array<string>, metricas: map<string, Counts>)
    modifies a
    ensures Descending(a[..], metricas)
    ensures multiset(a[..]) == multiset(old(a[..]))
  {
    for i := 0 to a.Length
      invariant SortedRange(a[..], metricas, 0, i)
      invariant multiset(a[..]) == multiset(old(a[..]))
    {
      InsertLast(a, metricas, i);
    }
  }

  /** One insertion step: `a[i]` moves left past the entries with fewer
      reports than it. */
  method InsertLast(a: array<string>, metricas: map<string, Counts>, i: nat)
    requires i < a.Length && SortedRange(a[..], metricas, 0, i)
    modifies a
    ensures SortedRange(a[..], metricas, 0, i + 1)
    ensures multiset(a[..]) == multiset(old(a[..]))
  {
    var j := i;
    ghost var s := a[..];
    while j > 0 && Reports(metricas, a[j - 1]) < Reports(metricas, a[j])
      invariant 0 <= j <= i && a[..] == s && |s| == a.Length
      invariant multiset(s) == multiset(old(a[..]))
      invariant SortedRange(s, metricas, 0, j) && SortedRange(s, metricas, j, i + 1)
      invariant 0 < j < i ==> Reports(metricas, s[j - 1]) >= Reports(metricas, s[j + 1])
      decreases j
    {
      assert a[j - 1] == s[j - 1] && a[j] == s[j];
      SwapKeepsOrder(s, metricas, j, i);
      SwapKeepsElements(s, j - 1, j);
      Swap(a, j - 1, j);
      s := s[j - 1 := s[j]][j := s[j - 1]];
      j := j - 1;
    }
    if j > 0 {
      assert a[j - 1] == s[j - 1] && a[j] == s[j];
    }
    SortedJoin(s, metricas, j, i);
  }

  method Swap(a: array<string>, x: nat, y: nat)
    requires x < a.Length && y < a.Length
    modifies a
    ensures a[..] == old(a[..])[x := old(a[y])][y := old(a[x])]
  {
    a[x], a[y] := a[y], a[x];
  }

  lemma SwapKeepsElements(s: seq<string>, x: nat, y: nat)
    requires x < |s| && y < |s|
    ensures multiset(s[x := s[y]][y := s[x]]) == multiset(s)
  {
  }

  lemma SwapKeepsOrder(s: seq<string>, metricas: map<string, Counts>, j: nat, i: nat)
    requires 0 < j <= i < |s|
    requires SortedRange(s, metricas, 0, j) && SortedRange(s, metricas, j, i + 1)
    requires j < i ==> Reports(metricas, s[j - 1]) >= Reports(metricas, s[j + 1])
    requires Reports(metricas, s[j - 1]) < Reports(metricas, s[j])
    ensures var t := s[j - 1 := s[j]][j := s[j - 1]];
      && SortedRange(t, metricas, 0, j - 1) && SortedRange(t, metricas, j - 1, i + 1)
      && (0 < j - 1 < i ==> Reports(metricas, t[j - 2]) >= Reports(metricas, t[j]))
  {
  }

  lemma SortedJoin(s: seq<string>, metricas: map<string, Counts>, j: nat, i: nat)
    requires j <= i < |s|
    requires SortedRange(s, metricas, 0, j) && SortedRange(s, metricas, j, i + 1)
    requires j > 0 ==> Reports(metricas, s[j - 1]) >= Reports(metricas, s[j])
    ensures SortedRange(s, metricas, 0, i + 1)
  {
  }

  /** The lines of `catIds` in order, while they fit (the loop of
      construirTextoPublicacion). */
  method EmitBody(encabezado: Text, catIds: array<string>, metricas: map<string, Counts>,
                  categoriasPorId: map<string, Json>, more: Text)
    returns (r: Result<Text, PublishError>)
    ensures r == Body(encabezado, [], LineResults(catIds[..], metricas, categoriasPorId), more)
  {
    ghost var lines := LineResults(catIds[..], metricas, categoriasPorId);
    var cuerpo: Text := [];
    var i := 0;
    while i < catIds.Length
      invariant 0 <= i <= catIds.Length
      invariant Body(encabezado, [], lines, more) == Body(encabezado, cuerpo, lines[i..], more)
    {
      assert lines[i..][1..] == lines[i + 1..];
      var linea := Line(catIds[i], metricas, categoriasPorId);
      assert lines[i..][0] == linea;
      if linea.Failure? {
        return Failure(linea.error);
      }
      if |encabezado| + |cuerpo| + |linea.value| > LineBudget {
        cuerpo := cuerpo + more;
        break;
      }
      cuerpo := cuerpo + linea.value;
      i := i + 1;
    }
    r := Success(cuerpo);
  }

  /** construirTextoPublicacion. `order` is the order the sort left the keys in. */
  method ConstruirTextoPublicacion(uaaNombre: Option<string>, periodo: string,
                                   metricas: map<string, Counts>, categoriasPorId: map<string, Json>)
    returns (r: Result<Text, PublishError>, ghost order: seq<string>)
    ensures multiset(order) == multiset(metricas.Keys)
    ensures Descending(order, metricas)
    ensures r == Publication(uaaNombre, periodo, metricas, categoriasPorId, order)
    ensures |metricas| == 0 ==> r == Success(Header(uaaNombre, periodo) + BmpUnits(NoIncidents))
    ensures |metricas| > 0 && r.Success? ==> |r.value| <= MaxUnits
  {
    var encabezado := Header(uaaNombre, periodo);
    var catIds := KeysOf(metricas);
    if |catIds| == 0 {
      assert |metricas.Keys| == 0 by {
        assert |multiset(metricas.Keys)| == |multiset(catIds)| == 0;
      }
      order := [];
      return Success(encabezado + BmpUnits(NoIncidents)), order;
    }
    assert |metricas| != 0 by {
      assert catIds[0] in multiset(metricas.Keys);
    }

    var a := new string[|catIds|](i requires 0 <= i < |catIds| => catIds[i]);
    assert a[..] == catIds;
    SortByReportados(a, metricas);
    order := a[..];

    var cuerpo := EmitBody(encabezado, a, metricas, categoriasPorId, BmpUnits(More));
    if cuerpo.Failure? {
      return Failure(cuerpo.error), order;
    }
    var textoFinal := encabezado + cuerpo.value + BmpUnits(Hashtags);
    if |textoFinal| > MaxUnits {
      textoFinal := textoFinal[..CutAt] + BmpUnits(Ellipsis);
    }
    r := Success(textoFinal);
    FinishBounded(encabezado, cuerpo.value);
  }

  // ========================================================= properties

  /** The posted text never exceeds 280 code units; when it was cut it
      keeps the first 277 units and ends with "...". */
  lemma FinishBounded(header: Text, cuerpo: Text)
    ensures |Finish(header, cuerpo)| <= MaxUnits
    ensures var full := header + cuerpo + BmpUnits(Hashtags);
      || Finish(header, cuerpo) == full
      || (|full| > MaxUnits && Finish(header, cuerpo)[..CutAt] == full[..CutAt]
          && Finish(header, cuerpo)[CutAt..] == BmpUnits(Ellipsis))
  {
  }

  /** The given lines, concatenated, or the first failure among them. */
  function Joined(lines: seq<Result<Text, PublishError>>): Result<Text, PublishError>
    decreases |lines|
  {
    if |lines| == 0 then Success([])
    else
      match lines[0]
      case Failure(e) => Failure(e)
      case Success(linea) =>
        match Joined(lines[1..])
        case Failure(e) => Failure(e)
        case Success(rest) => Success(linea + rest)
  }

  /** The body is the first `n` lines, whole and in order, followed by the
      marker exactly when line n+1 did not fit. This holds for any header,
      including one already over the budget, which gets the marker alone. */
  lemma {:induction false} BodyShape(header: Text, cuerpo: Text, lines: seq<Result<Text, PublishError>>, more: Text)
    requires Body(header, cuerpo, lines, more).Success?
    ensures var b := Body(header, cuerpo, lines, more).value;
      exists n | 0 <= n <= |lines| ::
           && Joined(lines[..n]).Success?
           && (n == |lines| ==> b == cuerpo + Joined(lines[..n]).value)
           && (n < |lines| ==>
                 && b == cuerpo + Joined(lines[..n]).value + more
                 && lines[n].Success?
                 && |header| + |cuerpo| + |Joined(lines[..n]).value| + |lines[n].value| > LineBudget)
    decreases |lines|
  {
    var b := Body(header, cuerpo, lines, more).value;
    assert lines[..0] == [];
    if |lines| == 0 {
      assert cuerpo + [] == cuerpo;
    } else {
      var linea := lines[0].value;
      if |header| + |cuerpo| + |linea| > LineBudget {
        assert cuerpo + [] == cuerpo;
      } else {
        var tail := lines[1..];
        BodyShape(header, cuerpo + linea, tail, more);
        var n :| 0 <= n <= |tail| && Joined(tail[..n]).Success?
                 && (n == |tail| ==> b == cuerpo + linea + Joined(tail[..n]).value)
                 && (n < |tail| ==>
                       && b == cuerpo + linea + Joined(tail[..n]).value + more
                       && tail[n].Success?
                       && |header| + |cuerpo + linea| + |Joined(tail[..n]).value| + |tail[n].value| > LineBudget);
        var ls := Joined(tail[..n]).value;
        assert lines[..n + 1][0] == lines[0] && lines[..n + 1][1..] == tail[..n];
        assert Joined(lines[..n + 1]) == Success(linea + ls);
        assert cuerpo + linea + ls == cuerpo + (linea + ls);
        if n < |tail| {
          assert lines[n + 1] == tail[n];
        }
      }
    }
  }

  /** Header and body stay within the 260-unit budget plus the marker, when
      header and the body so far start within it. */
  lemma {:induction false} BodyWithinBudget(header: Text, cuerpo: Text, lines: seq<Result<Text, PublishError>>, more: Text)
    requires Body(header, cuerpo, lines, more).Success?
    requires |header| + |cuerpo| <= LineBudget
    ensures |header| + |Body(header, cuerpo, lines, more).value| <= LineBudget + |more|
    decreases |lines|
  {
    if |lines| > 0 && |header| + |cuerpo| + |lines[0].value| <= LineBudget {
      BodyWithinBudget(header, cuerpo + lines[0].value, lines[1..], more);
    }
  }

  /** When no more reports are resolved than reported, the percentage is at
      most 100 and the bar has exactly three blocks. */
  lemma BarOfThree(reportados: nat, resueltos: nat)
    requires resueltos <= reportados
    ensures Porcentaje(reportados, resueltos) <= 100
    ensures Filled(Porcentaje(reportados, resueltos)) <= 3
    ensures var bar := Bar(Filled(Porcentaje(reportados, resueltos)));
      && bar.Success? && |bar.value| == 3 && |Utf16(bar.value)| == 3
      && forall i | 0 <= i < 3 :: bar.value[i] == BarFull || bar.value[i] == BarEmpty
  {
    var p := Porcentaje(reportados, resueltos);
    if reportados > 0 {
      assert 2 * reportados * p <= 200 * resueltos + reportados <= 200 * reportados + reportados;
      assert 2 * reportados * p < 2 * reportados * 101;
      MulMono(2 * reportados, 101, p);
    }
    var f := Filled(p);
    var bar := Bar(f).value;
    assert bar == Repeat(BarFull, f) + Repeat(BarEmpty, 3 - f);
    forall i | 0 <= i < 3 ensures bar[i] == BarFull || bar[i] == BarEmpty {
      if i < f {
        assert bar[i] == Repeat(BarFull, f)[i];
      } else {
        assert bar[i] == Repeat(BarEmpty, 3 - f)[i - f];
      }
    }
    Utf16Bmp(bar);
  }

  lemma MulMono(a: nat, y: nat, x: nat)
    ensures y <= x ==> a * y <= a * x
  {
    if y <= x {
      assert a * x == a * y + a * (x - y);
    }
  }

  /** A bar is refused (RangeError) exactly when more than 115% is resolved. */
  lemma BarRefusedAbove(porcentaje: nat)
    ensures Bar(Filled(porcentaje)).Failure? <==> porcentaje >= 116
  {
  }
}
