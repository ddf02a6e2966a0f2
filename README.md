# UAAIMM store and reporting core, in Dafny

UAAIMM is the incident-reporting back end of the Universidad Autónoma de
Aguascalientes. Users, categories, states, locations, reports, their
histories and their evidence are kept as encrypted JSON files. Each file is a
wrapper `{version: 1, algorithm: 'RSA-OAEP-SHA256', checksum, cipher}`. The
store writes to a network share (the primary root, NFS) and falls back to a
local buffer directory (the fallback root) when the share fails. Reads prefer
the local buffer. Listings merge the two directories.

The cipher is a hybrid envelope: the JSON text is encrypted with a fresh
AES-256-CBC key, that key is wrapped with RSA-OAEP/SHA-256, and the three
base64 fields are joined with `:`. Older files hold an RSA-only ciphertext.

On top of the store sit the Express route handlers that create records and
change the state of a report, and a monthly job. The job counts the reports
of a period per category and composes a post of at most 280 UTF-16 code
units.

The project has six modules, one file each:

- `JsValues` (`js_values.dfy`): the JavaScript behaviour the core relies
  on. This covers JSON values, truthiness and property reads, `String()`,
  `split`/`join`, `toLowerCase` and `parseInt`.
- `CryptoService` (`crypto_service.dfy`): key loading and the envelope
  (`cryptoService.js`). AES, RSA, base64, UTF-8, SHA-256 and
  `JSON.stringify`/`parse` are function-valued fields of `Primitives`. Their
  inverse laws are the predicate `Lawful`, which the round-trip lemmas
  require.
- `DfsService` (`dfs_service.dfy`): the two-root store (`dfsService.js`). The
  class `Store` holds the two `Root` values, each a map from
  (folder, file name) to content plus a set of directories. Its methods
  `SaveEncrypted`, `ReadEncrypted` and `ListAllEncrypted` are proved against
  the functions `Save`, `Read` and `Collect`. Write, read and listing failures
  are parameters: `SaveEnv`, `ReadFaults` and `ListFaults`. The random key and
  IV of each save are also parameters.
- `Metrics` (`metrics.dfy`): `calcularMetricasPorPeriodo` as a loop that
  updates a map and a counter. It is proved against reference counts defined
  by recursion over the report list.
- `Publication` (`publication.dfy`): `construirTextoPublicacion`. The keys are
  sorted in place in an array, and a loop with an early exit builds the body.
  Text is measured in UTF-16 code units, as JavaScript's `length` and
  `substring` measure it.
- `Handlers` (`handlers.dfy`): `isUaaEmail`, the six create handlers and
  `PATCH /api/reportes/:id/estado`. Each handler is a method on the `Store`,
  proved against a function that gives the new disk and the HTTP response.

## Model

| member | source | states |
|---|---|---|
| JsValues.JoinSplit | cryptoService.js:51-58 | joining the `:`-split fields of any text gives the text back |
| JsValues.SplitJoin | cryptoService.js:51-58 | splitting the join of fields that contain no separator gives exactly those fields in order |
| JsValues.SplitPrefix | cryptoService.js:58 | a prefix with no separator only extends the first field of the split |
| JsValues.LowerAppend | index.js:44 | lower-casing distributes over concatenation |
| JsValues.LowerIdempotent | index.js:341 | the stored lower-cased address is already lower case: lower-casing it again changes nothing |
| CryptoService.LoadKeys | cryptoService.js:14-22 | start-up succeeds iff both key files exist, and then holds their texts; a missing private key is reported first, then a missing public key |
| CryptoService.PackageIsJoinedFields | cryptoService.js:27-54 | the package is the base64 IV, the base64 RSA-wrapped AES key and the AES ciphertext of the JSON text, joined with `:`; RSA encrypts only the key |
| CryptoService.PackageSplitsIntoFields | cryptoService.js:51-58 | since base64 never contains `:`, splitting a package yields its three fields in order |
| CryptoService.DecryptJson | cryptoService.js:56-90 | a text that does not split into three fields is read as a legacy ciphertext, and every legacy failure becomes the one unknown-format error; a three-field text always takes the hybrid path, whose failures propagate unchanged |
| CryptoService.RoundTrip | cryptoService.js:27-90 | under the inverse laws, decrypting an encrypted package returns the original JSON value |
| CryptoService.LegacyCompatible | cryptoService.js:62-68 | an RSA-only package is still decrypted to its value (cryptoService.js:93-104) |
| DfsService.FolderPathInjective | dfsService.js:23-26 | two folder paths are equal iff they name the same folder under the same root |
| DfsService.DecodeContent | dfsService.js:116-119 | decoding file content never reports NOT_FOUND or SYSTEM_OFFLINE |
| DfsService.IdOfJson | dfsService.js:149 | for a `*.json` name, the id that `path.basename(file, '.json')` recovers plus `.json` is the name again |
| DfsService.OutcomesAppend | dfsService.js:147-156 | the per-file read outcomes of a list extended by one name are the old outcomes plus that name's read |
| DfsService.SuccessesAppend | dfsService.js:150-155 | keeping successes of one more outcome appends its value only when the read succeeded |
| DfsService.AppendFresh | dfsService.js:128-148 | taking an unvisited name from the set keeps the visit order duplicate-free and the visited plus remaining names equal to the whole set |
| DfsService.Store.constructor | dfsService.js:8-15 | a store starts from the two given roots |
| DfsService.Store.EnsureDirExists | dfsService.js:17-21 | succeeds iff the directory was there or could be made, adds it to that root only, and changes no file |
| DfsService.Store.SaveEncrypted | dfsService.js:35-81 | the new state and the result are those of `Save`: one wrapper written to the primary root, else to the fallback root, else an error |
| DfsService.Store.ReadEncrypted | dfsService.js:84-121 | the result is `Read` of the current state, and nothing changes |
| DfsService.Store.ListAllEncrypted | dfsService.js:124-159 | visits each `*.json` name of the union of both listings exactly once, and returns the successful reads of those names in visit order |
| DfsService.SaveOnline | dfsService.js:50-62 | a primary write that works returns mode ONLINE with the primary path and the payload's checksum, writes the wrapper there and leaves the fallback root untouched |
| DfsService.SaveOffline | dfsService.js:51-75 | when the primary write fails and the fallback one works, the wrapper goes to the fallback root and mode OFFLINE is returned; the primary keeps every other file, and its target is unchanged unless the failed write had opened (and so truncated) it, in which case it holds only what was written before the error |
| DfsService.SaveFailsOnlyTwice | dfsService.js:51-80 | the save fails iff both writes fail; each root then keeps every other file, and its target is unchanged unless that failed write had opened it, leaving only the characters written before the error |
| DfsService.DoubleTruncationLosesRecord | dfsService.js:59-80 | when both writes open the file and fail before writing anything, the save fails and the id then reads as NOT_FOUND, whatever it held before (dfsService.js:111-113) |
| DfsService.SaveKeepsValid | dfsService.js:56-73 | every file a save writes lies in a directory that exists |
| DfsService.WrapperFormat | dfsService.js:37-47 | the written text parses to a wrapper with version 1, algorithm RSA-OAEP-SHA256, the checksum of the payload and the package of the payload |
| DfsService.DecodeWrapper | dfsService.js:116-119 | the written text is non-empty and decodes back to the payload |
| DfsService.FallbackFirst | dfsService.js:91-99 | a readable, non-empty fallback copy decides the read; the primary is not consulted |
| DfsService.ReadErrors | dfsService.js:99-113 | SYSTEM_OFFLINE iff no fallback content and an existing but unreadable primary file in `usuarios`; NOT_FOUND iff no content from either root; otherwise the primary content is decoded |
| DfsService.MissingCipherIsInvalid | dfsService.js:116-117 | content whose wrapper has no truthy `cipher` is INVALID_FORMAT |
| DfsService.OfflineSaveThenRead | dfsService.js:64-75 | after an OFFLINE save, reading the same id returns the payload |
| DfsService.OnlineSaveThenRead | dfsService.js:59-62 | after an ONLINE save, reading returns the payload unless a fallback copy exists, which then still shadows it |
| DfsService.SuccessesAtMost | dfsService.js:147-156 | no more results than names |
| DfsService.SuccessesSound | dfsService.js:150-155 | every result is the value of some successful read |
| DfsService.SuccessesComplete | dfsService.js:150-155 | every successful read is among the results |
| DfsService.CollectAtMostOnePerName | dfsService.js:147-156 | no more records than visited names (which ListAllEncrypted ensures are distinct) |
| DfsService.CollectSound | dfsService.js:148-155 | every listed value is what `readEncrypted` returns for one of the names |
| DfsService.CollectComplete | dfsService.js:148-155 | every name whose read succeeds contributes its value; failed reads, including SYSTEM_OFFLINE, are the only ones dropped |
| DfsService.ListSurvivesPrimaryFailure | dfsService.js:137-144 | when only the primary listing fails, every readable file of the fallback root is still listed |
| Metrics.Aggregate | index.js:84-120 | `totalProcesados` counts the reports that are truthy, dated and in the period; a category key is present iff some such report names it; its `reportados` and `resueltos` are those reports and the resolved or closed ones among them |
| Metrics.PrefixStep | index.js:88-119 | one more report adds one to each count exactly when it passes that count's filters |
| Metrics.IndexCategorias | index.js:79-80 | the index holds, for each truthy id, the last category with that id |
| Metrics.CalcularMetricasPorPeriodo | index.js:74-124 | returns the period, the per-category counts of the listed reports and the index of the listed categories, each listing visiting every stored file once |
| Metrics.ResolvedAtMostReported | index.js:108-119 | `resueltos` never exceeds `reportados` |
| Metrics.SumReportedStep | index.js:102-113 | one more report adds at most one to the sum of `reportados`, under the one key it names |
| Metrics.CategoriesWithinTotal | index.js:102-113 | the sum of `reportados` over distinct keys is at most `totalProcesados`, which is at most the number of reports |
| Metrics.SumReportedEmpty | index.js:84-86 | no reports give no counts |
| Metrics.LastWithIdSound | index.js:80 | an indexed category is one of the listed ones and carries that id |
| Metrics.LastWithIdComplete | index.js:80 | every category with a truthy id is indexed, as itself when no later one has the same id |
| Publication.CharUnits | index.js:204 | a character takes one UTF-16 code unit below U+10000 and two above |
| Publication.BmpUnits | index.js:204 | one code unit per character |
| Publication.BmpUnitsAgree | index.js:204 | for characters below U+10000 the one-unit encoding is the UTF-16 encoding |
| Publication.Utf16Append | index.js:200-211 | the UTF-16 encoding distributes over concatenation |
| Publication.Utf16Bmp | index.js:204 | a string below U+10000 has as many code units as characters |
| Publication.WordingNoIncidents | index.js:174 | the no-incidents text is single-unit |
| Publication.WordingMore | index.js:205 | the "more categories" text is single-unit |
| Publication.WordingHashtags | index.js:211 | the hashtag text is single-unit |
| Publication.WordingEllipsis | index.js:215 | the ellipsis is single-unit |
| Publication.Porcentaje | index.js:185 | 0 without reports; otherwise the integer nearest to 100·resueltos/reportados, halves rounded up |
| Publication.Filled | index.js:187 | the integer nearest to porcentaje/33, halves rounded up |
| Publication.Repeat | index.js:188 | `c.repeat(n)` is n copies of c |
| Publication.LineResults | index.js:180-200 | one line outcome per category key |
| Publication.KeysOf | index.js:171 | `Object.keys` lists every key of the metrics exactly once |
| Publication.SortByReportados | index.js:178 | the array ends sorted by `reportados`, most first, and is a permutation of its old contents |
| Publication.InsertLast | index.js:178 | inserting one more element extends the sorted prefix and keeps the same elements |
| Publication.Swap | index.js:178 | exchanges two entries and nothing else |
| Publication.SwapKeepsElements | index.js:178 | swapping keeps the multiset of keys |
| Publication.SwapKeepsOrder | index.js:178 | one insertion step keeps both sorted ranges |
| Publication.SortedJoin | index.js:178 | two adjacent sorted ranges form one when they meet in order |
| Publication.EmitBody | index.js:180-209 | the body the loop builds is `Body` of the lines of the keys in their order, including the stop at the first line over budget |
| Publication.ConstruirTextoPublicacion | index.js:161-219 | the keys are visited in non-increasing `reportados` order and are a permutation of the metric keys; empty metrics give the header and the no-incidents text; otherwise a successful text has at most 280 code units |
| Publication.FinishBounded | index.js:211-216 | the final text is at most 280 code units, and it is either the full text or its first 277 units followed by `...` |
| Publication.BodyShape | index.js:180-209 | for any header, the body is a whole-line prefix of the lines, followed by the "more" text exactly when the next line would push header, body and line past 260 units |
| Publication.BodyWithinBudget | index.js:204-208 | when header and body start within 260 units, header and final body stay within 260 units plus the "more" text |
| Publication.BarOfThree | index.js:185-188 | when resueltos ≤ reportados, porcentaje is at most 100 and the bar is exactly three characters, each `▓` or `░` |
| Publication.BarRefusedAbove | index.js:187-188 | `repeat` throws a RangeError exactly when porcentaje is 116 or more |
| Handlers.IsUaaEmail | index.js:42-45 | true iff the value is a string whose lower-case form ends with `@edu.uaa.mx` |
| Handlers.UaaDomainAnyCase | index.js:42-45 | any local part with the domain written in any letter case is accepted |
| Handlers.LowerCaseKeepsUaa | index.js:324-341 | the stored lower-cased address is accepted iff the submitted one was |
| Handlers.CreateResponse | index.js:332-356 | the answer is 201 iff stored, 409 iff it already existed, 500 iff the lookup or the save failed |
| Handlers.CreateOnlyWhenAbsent | index.js:330-348 | an existing record gives 409 and a lookup error other than NOT_FOUND gives 500, both without writing; only NOT_FOUND leads to a save, and a failed save leaves only what its failed writes left in the target file |
| Handlers.CreatedReadsBack | index.js:330-348 | a record that was stored reads back as its payload when both copies are readable |
| Handlers.CreateRecord | index.js:330-348 | lookup then save, as `Create` says |
| Handlers.CrearUsuario | index.js:315-358 | missing fields or a non-UAA address give 400 without writing; otherwise the user is created with the address lower-cased and `rol` defaulting to Alumno |
| Handlers.CrearCategoria | index.js:511-548 | missing id or nombre give 400 without writing; otherwise a category is created |
| Handlers.CrearEstado | index.js:582-624 | missing fields or a name outside ESTADOS_VALIDOS give 400 without writing; otherwise a state is created |
| Handlers.CrearUbicacion | index.js:658-698 | lat and lng need only be defined; missing fields give 400 without writing; otherwise a location is created |
| Handlers.ReportStartsOpen | index.js:752-784 | a new report is ABIERTO with equal creation and update times, and its history holds exactly one CREADO event whose previous state is null |
| Handlers.CreatedReportHasHistory | index.js:745-794 | 201 iff the report and then its history were saved after a NOT_FOUND lookup; if the history save fails the answer is 500 and no file but the history's changed, so the report stays written |
| Handlers.CrearReporte | index.js:733-794 | the effect and the answer are `CrearReporteSpec` |
| Handlers.Push | index.js:874 | `eventos.push(e)` succeeds iff `eventos` is an array; it keeps all other keys and earlier events and puts e last |
| Handlers.AppendsExactlyOne | index.js:853-875 | an append adds exactly one event to the end of the prior history, or to a fresh empty history when none was stored |
| Handlers.StaleCopyHidesAppend | index.js:853-875 | when a local copy of the history exists and the share accepts the write, the appended event is not visible to the next read |
| Handlers.AppendHistorial | index.js:853-875 | read, push and save of the history, as `AppendEvento` says |
| Handlers.EventoCambioShape | index.js:865-872 | the event is ESTADO_CAMBIADO with the old and new state, the responsible user and the comment defaulting to '' |
| Handlers.HistorialResponse | index.js:857-888 | the success answer only when the event was appended; every history failure is a 500 |
| Handlers.PatchRejectsBeforeRead | index.js:829-839 | missing fields or a state outside ESTADOS_VALIDOS give 400 before any read, whatever the store holds |
| Handlers.PatchMissingReport | index.js:882-885 | a missing report gives 404 and changes nothing |
| Handlers.PatchFoundAppends | index.js:846-881 | on success the report was saved and exactly one event was appended to its history |
| Handlers.PatchAppendsOneEvent | index.js:825-889 | a 200 means a valid request on an existing report; `estadoActual` became the new state, and one ESTADO_CAMBIADO event whose previous state is the old one was appended after the earlier events |
| Handlers.PatchEstado | index.js:825-889 | the effect and the answer are `Patch` |
| Handlers.EvidenciaFoundAppends | index.js:943-993 | a 201 means the evidence id was free, the evidence was saved and one event was appended to the report's history |
| Handlers.EventoEvidenciaShape | index.js:978-985 | the event is EVIDENCIA_AGREGADA with null states, the uploader and the file name in the comment |
| Handlers.EvidenceRecorded | index.js:912-940 | a 201 means the body was complete, the type among IMG, VIDEO, AUDIO and DOC, and the report existed |
| Handlers.RegistrarEvidencia | index.js:912-999 | the effect and the answer are `Evidencia` |

## Left out

- Files, directories, the network share and the local buffer are two maps. Whether a write, a read or a listing works is a parameter, not a real file system.
- A failed `writeFileSync` is modelled in three ways: the directory could not be made, the open threw (leaving the file as it was), or the open truncated the file and the write threw after some characters. Other partial effects, such as a short write that lands out of order on the share, are not modelled.
- Directory creation is modelled only as a set insert: `mkdirSync`'s recursive parents and its permissions are not modelled.
- Path normalisation of ids is not modelled: `path.join` of an id containing `/` or `..` is taken as a plain key.
- The order `readdirSync` returns is not modelled: the visit order of a listing is any order of the name set.
- AES-256-CBC, RSA-OAEP, SHA-256, base64, UTF-8 and `JSON.stringify`/`parse` are abstract functions, and only their inverse laws are assumed. The random key and IV are parameters of each save.
- JSON object key order is not modelled (objects are maps), so neither is the non-canonical order the checksum is computed over.
- The checksum is returned and stored but never checked on read, and the model does not check it either.
- Numbers are integers; JSON floats (such as `lat`, `lng`) are not modelled.
- Publication.Porcentaje: `Math.round((resueltos / reportados) * 100)` in floating point is modelled as exact half-up rounding. The two differ where the float product falls just below an exact half: 23 of 40 gives 57 in JavaScript and 58 in the model.
- Publication.Filled: `Math.round(porcentaje / 33)` is modelled in exact arithmetic, which matches the float result on the integers involved.
- Metrics.CalcularMetricasPorPeriodo: dates and their period (`obtenerPeriodo`, the local time zone, `periodoActual`, `periodoAnterior`) are an abstract function `periodOf` of the creation date.
- Metrics.Aggregate: keys that are properties of `Object.prototype` (`toString`, `constructor`, `__proto__`…) are modelled as never counted, because `metricas[key]` is already truthy for them; what the increments then do to the inherited value is not modelled.
- Publication.ConstruirTextoPublicacion: `UAA_NOMBRE` is a parameter. The order `Object.keys(metricas)` returns (integer-like keys ascending, then the other keys in insertion order) is not modelled, so categories with equal counts may come in any order. The stable sort itself is modelled as a stable insertion sort.
- `toLowerCase` is exact for ASCII, U+0130 and U+212A, which are all the characters that can lower-case into ASCII. Other letters keep their case, so a stored non-ASCII address is not exact, but every test the source makes with it (the domain suffix, the icon keywords) is.
- CryptoService.LoadKeys: a missing key file is modelled, but a key file that exists and cannot be read (a third start-up error, from `readFileSync` at cryptoService.js:21-22) is not.
- Timestamps (`new Date().toISOString()`) are a `now` parameter of each handler.
- The Express wiring, the body parser and status plumbing are not modelled. A request with no JSON body only appears as the generic 500 (`ExpressError`) that destructuring `null` causes in PATCH and evidencias; the create handlers answer 400 for it.
- Concurrent requests are not modelled: each handler runs alone, so read-then-write races are out of scope.
- The GET routes, login and Google OAuth login, the Twitter client and publishing, the cron schedule, the health checks and server start-up are not part of this model, nor is `public/app.js`.
- Logging is not modelled.
- Reports and histories are changed in place in the source; the model treats them as values, so aliasing between `reporte` and what the answer echoes is not modelled.

## Notes on the code

- A read error on the primary root gives SYSTEM_OFFLINE only when the file exists there, cannot be read, and the collection is `usuarios` (dfsService.js:101-107). When the share is not mounted at all, `existsSync` is false and the read is NOT_FOUND.
- A file whose content is not JSON makes `JSON.parse` throw a syntax error. That error is distinct from INVALID_FORMAT, and the model keeps it separate.
- Once a history has a copy in the local buffer, a later save to the share does not hide that copy. The next read returns the old copy and the newly appended event is lost to readers (`Handlers.StaleCopyHidesAppend`).
- In `calcularMetricasPorPeriodo` the index of categories is keyed by `String(c.id)`; an id of `__proto__` replaces the prototype instead of adding an entry.
