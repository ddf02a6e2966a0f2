/**
 * The dual-location encrypted store. Every collection has one directory
 * under the primary root (the network mount) and one under the local
 * fallback root (the offline buffer); a record is the file `<id>.json`
 * holding a pretty-printed wrapper {version, algorithm, checksum, cipher}.
 *
 * The file trees are maps; which operations fail (creating a directory,
 * writing, reading or listing) is given by fault parameters.
 */
module DfsService {
  import opened JsValues
  import opened CryptoService

  const WrapperVersion: int := 1
  const WrapperAlgorithm: string := "RSA-OAEP-SHA256"
  /** The one collection whose primary read failure is reported as such. */
  const Usuarios: string := "usuarios"
  const JsonSuffix: string := ".json"

  datatype Location = Primary | Fallback
  datatype Mode = Online | Offline

  datatype FolderPath = FolderPath(root: Location, folder: string)
  datatype FilePath = FilePath(dir: FolderPath, fileName: string)

  /** A file: the collection directory it lives in and its name there. */
  datatype FileKey = FileKey(folder: string, fileName: string)

  /** getFolderPath: the directory of a collection under one of the roots. */
  function GetFolderPath(folderName: string, isOffline: bool): FolderPath {
    FolderPath(if isOffline then Fallback else Primary, folderName)
  }

  /** No two collections share a directory, and a collection's online and
      offline directories differ. */
  lemma FolderPathInjective(a: string, x: bool, b: string, y: bool)
    ensures GetFolderPath(a, x) == GetFolderPath(b, y) <==> a == b && x == y
  {
  }

  /** One root: its files and the collection directories that exist in it. */
  datatype Root = Root(files: map<FileKey, string>, dirs: set<string>) {
    /** every file lives in an existing directory */
    predicate Valid() {
      forall k | k in files :: k.folder in dirs
    }
  }

  datatype Disk = Disk(primary: Root, fallback: Root) {
    predicate Valid() {
      primary.Valid() && fallback.Valid()
    }
    function At(loc: Location): Root {
      if loc == Primary then primary else fallback
    }
    function With(loc: Location, r: Root): Disk {
      if loc == Primary then this.(primary := r) else this.(fallback := r)
    }
  }

  // ------------------------------------------------------------ fault oracles

  /** How writing to one root fails: creating the directory throws; opening
      the file throws, so the file is left as it was; or writeFileSync opened
      the file, which truncates it, and threw after writing its first
      `written` characters (ENOSPC, or EIO on the network mount). */
  datatype WriteFault = NoFault | MkdirFails | OpenFails | WriteFailsAfter(written: nat)

  /** What one saveEncrypted call draws from its environment: the random
      AES key and IV, and the fault of each root. */
  datatype SaveEnv = SaveEnv(aesKey: Bytes, iv: Bytes, primaryFault: WriteFault, fallbackFault: WriteFault)

  /** Files that exist but whose readFileSync throws. */
  datatype ReadFaults = ReadFaults(fallbackUnreadable: set<FileKey>, primaryUnreadable: set<FileKey>)

  /** Directories whose readdirSync throws. */
  datatype ListFaults = ListFaults(fallbackListFails: bool, primaryListFails: bool)

  datatype SaveResult = SaveResult(filePath: FilePath, checksum: string, mode: Mode)

  datatype StoreError =
    | NotFound                      // 'NOT_FOUND'
    | SystemOffline                 // 'SYSTEM_OFFLINE'
    | InvalidFormat                 // 'INVALID_FORMAT'
    | WrapperSyntaxError            // JSON.parse of the file content throws
    | WrapperTypeError              // a TypeError: content `null`, or a cipher that is not a string
    | DecryptFailed(cause: CryptoError)
    | WriteError                    // both writes failed: the local error is rethrown

  // ------------------------------------------------------------------ write

  /** calcChecksumFromObject: SHA-256 (hex) of JSON.stringify of the plaintext. */
  function CalcChecksumFromObject(c: Codec, obj: Json): string {
    c.prims.sha256Hex(c.prims.stringify(obj))
  }

  function Wrapper(checksum: string, cipher: string): Json {
    JObj(map[
      "version" := JNum(WrapperVersion),
      "algorithm" := JStr(WrapperAlgorithm),
      "checksum" := JStr(checksum),
      "cipher" := JStr(cipher)])
  }

  /** The file content saveEncrypted writes for `payload`. */
  function WrapperText(c: Codec, payload: Json, aesKey: Bytes, iv: Bytes): string
    requires |aesKey| == AesKeyBytes && |iv| == IvBytes
  {
    c.prims.stringifyIndented(Wrapper(CalcChecksumFromObject(c, payload), EncryptJson(c, payload, aesKey, iv)))
  }

  /** The directory exists afterwards unless creating it throws. */
  predicate DirReady(r: Root, folder: string, fault: WriteFault) {
    folder in r.dirs || fault != MkdirFails
  }

  predicate WriteOk(r: Root, folder: string, fault: WriteFault) {
    DirReady(r, folder, fault) && (fault.NoFault? || fault.MkdirFails?)
  }

  /** The write threw after the file had been opened, and so truncated. */
  predicate Opened(r: Root, folder: string, fault: WriteFault) {
    DirReady(r, folder, fault) && fault.WriteFailsAfter?
  }

  /** How many characters of `content` reach the file. The wrapper text is
      ASCII, so characters and UTF-8 bytes agree. */
  function Written(content: string, fault: WriteFault): nat {
    if fault.WriteFailsAfter? && fault.written < |content| then fault.written else |content|
  }

  /** ensureDirExists followed by writeFileSync on one root. */
  function AfterWrite(r: Root, key: FileKey, content: string, fault: WriteFault): Root {
    var r1 := if DirReady(r, key.folder, fault) then r.(dirs := r.dirs + {key.folder}) else r;
    if WriteOk(r, key.folder, fault) then r1.(files := r1.files[key := content])
    else if Opened(r, key.folder, fault) then r1.(files := r1.files[key := content[..Written(content, fault)]])
    else r1
  }

  datatype SaveStep = SaveStep(disk: Disk, outcome: Result<SaveResult, StoreError>)

  /** The effect and the result of saveEncrypted. */
  function Save(c: Codec, d: Disk, folder: string, id: string, payload: Json, env: SaveEnv): SaveStep
    requires |env.aesKey| == AesKeyBytes && |env.iv| == IvBytes
  {
    var key := FileKey(folder, id + JsonSuffix);
    var text := WrapperText(c, payload, env.aesKey, env.iv);
    var checksum := CalcChecksumFromObject(c, payload);
    var primary := AfterWrite(d.primary, key, text, env.primaryFault);
    if WriteOk(d.primary, folder, env.primaryFault) then
      SaveStep(Disk(primary, d.fallback),
               Success(SaveResult(FilePath(GetFolderPath(folder, false), key.fileName), checksum, Online)))
    else
      var fallback := AfterWrite(d.fallback, key, text, env.fallbackFault);
      if WriteOk(d.fallback, folder, env.fallbackFault) then
        SaveStep(Disk(primary, fallback),
                 Success(SaveResult(FilePath(GetFolderPath(folder, true), key.fileName), checksum, Offline)))
      else
        SaveStep(Disk(primary, fallback), Failure(WriteError))
  }

  // ------------------------------------------------------------------- read

  /** The local copy is used: it exists, it can be read, and it is not empty. */
  predicate FallbackHit(d: Disk, faults: ReadFaults, key: FileKey) {
    key in d.fallback.files && key !in faults.fallbackUnreadable && d.fallback.files[key] != ""
  }

  /** Where readEncrypted finds its content, or why it stops before parsing. */
  function Locate(d: Disk, faults: ReadFaults, key: FileKey): Result<string, StoreError> {
    if FallbackHit(d, faults, key) then Success(d.fallback.files[key])
    else if key in d.primary.files && key in faults.primaryUnreadable then
      if key.folder == Usuarios then Failure(SystemOffline) else Failure(NotFound)
    else if key in d.primary.files && d.primary.files[key] != "" then Success(d.primary.files[key])
    else Failure(NotFound)
  }

  /** Parse the wrapper and decrypt its cipher. */
  function DecodeContent(c: Codec, content: string): (r: Result<Json, StoreError>)
    ensures r != Failure(NotFound) && r != Failure(SystemOffline)
  {
    match c.prims.parse(content)
    case None => Failure(WrapperSyntaxError)
    case Some(wrapper) =>
      if wrapper.JNull? then Failure(WrapperTypeError)
      else
        var cipher := Get(wrapper, "cipher");
        if !Present(cipher) then Failure(InvalidFormat)
        else if !cipher.value.JStr? then Failure(WrapperTypeError)
        else
          match DecryptJson(c, cipher.value.s)
          case Success(v) => Success(v)
          case Failure(e) => Failure(DecryptFailed(e))
  }

  /** The result of readEncrypted. */
  function Read(c: Codec, d: Disk, faults: ReadFaults, folder: string, id: string): Result<Json, StoreError> {
    match Locate(d, faults, FileKey(folder, id + JsonSuffix))
    case Failure(e) => Failure(e)
    case Success(content) => DecodeContent(c, content)
  }

  // ------------------------------------------------------------------- list

  /** path.basename(file, '.json') for a directory entry. */
  function IdOf(file: string): string {
    if EndsWith(file, JsonSuffix) then file[..|file| - |JsonSuffix|] else file
  }

  lemma IdOfJson(file: string)
    requires EndsWith(file, JsonSuffix)
    ensures IdOf(file) + JsonSuffix == file
  {
  }

  /** The `*.json` entries of a collection directory. */
  function JsonNames(r: Root, folder: string): set<string> {
    set k | k in r.files && k.folder == folder && EndsWith(k.fileName, JsonSuffix) :: k.fileName
  }

  /** The names listAllEncrypted collects from both directories. */
  function Listed(d: Disk, folder: string, lf: ListFaults): set<string> {
    (if folder in d.fallback.dirs && !lf.fallbackListFails then JsonNames(d.fallback, folder) else {})
    + (if folder in d.primary.dirs && !lf.primaryListFails then JsonNames(d.primary, folder) else {})
  }

  /** The outcome of reading each visited name, in order. */
  function Outcomes(c: Codec, d: Disk, faults: ReadFaults, folder: string, names: seq<string>)
    : (rs: seq<Result<Json, StoreError>>)
    ensures |rs| == |names|
  {
    seq(|names|, i requires 0 <= i < |names| => Read(c, d, faults, folder, IdOf(names[i])))
  }

  /** The values of the successful outcomes, in order. */
  function Successes(rs: seq<Result<Json, StoreError>>): seq<Json>
    decreases |rs|
  {
    if |rs| == 0 then []
    else Successes(rs[..|rs| - 1]) + (if rs[|rs| - 1].Success? then [rs[|rs| - 1].value] else [])
  }

  /** The records listAllEncrypted returns after visiting `names`: failed
      reads are dropped. */
  function Collect(c: Codec, d: Disk, faults: ReadFaults, folder: string, names: seq<string>): seq<Json> {
    Successes(Outcomes(c, d, faults, folder, names))
  }

  lemma OutcomesAppend(c: Codec, d: Disk, faults: ReadFaults, folder: string, names: seq<string>, file: string,
                       r: Result<Json, StoreError>)
    requires r == Read(c, d, faults, folder, IdOf(file))
    ensures Outcomes(c, d, faults, folder, names + [file]) == Outcomes(c, d, faults, folder, names) + [r]
  {
    var rs := Outcomes(c, d, faults, folder, names + [file]);
    forall i | 0 <= i < |names| ensures rs[i] == Outcomes(c, d, faults, folder, names)[i] {
      assert (names + [file])[i] == names[i];
    }
    assert (names + [file])[|names|] == file;
  }

  lemma SuccessesAppend(rs: seq<Result<Json, StoreError>>, r: Result<Json, StoreError>)
    ensures Successes(rs + [r]) == Successes(rs) + (if r.Success? then [r.value] else [])
  {
    assert (rs + [r])[..|rs|] == rs;
  }

  predicate NoDuplicates(s: seq<string>) {
    forall i, j | 0 <= i < j < |s| :: s[i] != s[j]
  }

  function Elements(s: seq<string>): set<string> {
    set x | x in s
  }

  /** Visiting one more name, taken from those not yet visited. */
  lemma AppendFresh(s: seq<string>, x: string, remaining: set<string>, all: set<string>)
    requires NoDuplicates(s) && x in remaining
    requires forall i | 0 <= i < |s| :: s[i] !in remaining
    requires Elements(s) + remaining == all
    ensures NoDuplicates(s + [x])
    ensures forall i | 0 <= i < |s + [x]| :: (s + [x])[i] !in remaining - {x}
    ensures Elements(s + [x]) == Elements(s) + {x}
    ensures Elements(s + [x]) + (remaining - {x}) == all
  {
    assert (s + [x])[|s|] == x;
    forall y | y in Elements(s) ensures y in Elements(s + [x]) {
      var i :| 0 <= i < |s| && s[i] == y;
      assert (s + [x])[i] == y;
    }
  }

  // ------------------------------------------------------------ the store

  class Store {
    const codec: Codec
    var primary: Root
    var fallback: Root

    ghost predicate Valid()
      reads this
    {
      primary.Valid() && fallback.Valid()
    }

    function State(): Disk
      reads this
    {
      Disk(primary, fallback)
    }

    /** The store over the trees found at start-up (the buffer root itself
        is created then). */
    constructor (codec: Codec, primary: Root, fallback: Root)
      requires primary.Valid() && fallback.Valid()
      ensures Valid()
      ensures this.codec == codec && State() == Disk(primary, fallback)
    {
      this.codec := codec;
      this.primary := primary;
      this.fallback := fallback;
    }

    /** ensureDirExists: idempotent; fails only when the directory is
        missing and mkdirSync throws. */
    method EnsureDirExists(loc: Location, folder: string, mkdirFails: bool) returns (ok: bool)
      requires Valid()
      modifies this
      ensures Valid()
      ensures ok <==> folder in old(State()).At(loc).dirs || !mkdirFails
      ensures State() == old(State()).With(loc,
                old(State()).At(loc).(dirs := old(State()).At(loc).dirs + (if ok then {folder} else {})))
    {
      var r := if loc == Primary then primary else fallback;
      if folder in r.dirs {
        ok := true;
        return;
      }
      ok := !mkdirFails;
      if ok {
        if loc == Primary {
          primary := primary.(dirs := primary.dirs + {folder});
        } else {
          fallback := fallback.(dirs := fallback.dirs + {folder});
        }
      }
    }

    /** saveEncrypted: plan A writes to the primary root; on any failure
        plan B writes to the fallback root; only a double failure throws. */
    method SaveEncrypted(folderName: string, id: string, payload: Json, env: SaveEnv)
      returns (r: Result<SaveResult, StoreError>)
      requires Valid()
      requires |env.aesKey| == AesKeyBytes && |env.iv| == IvBytes
      modifies this
      ensures Valid()
      ensures State() == Save(codec, old(State()), folderName, id, payload, env).disk
      ensures r == Save(codec, old(State()), folderName, id, payload, env).outcome
    {
      var checksum := CalcChecksumFromObject(codec, payload);
      var cipherBase64 := EncryptJson(codec, payload, env.aesKey, env.iv);
      var dataToWrite := codec.prims.stringifyIndented(Wrapper(checksum, cipherBase64));
      var fileName := id + JsonSuffix;
      var key := FileKey(folderName, fileName);

      // plan A: the network mount
      var dirOk := EnsureDirExists(Primary, folderName, env.primaryFault == MkdirFails);
      if dirOk && (env.primaryFault.NoFault? || env.primaryFault.MkdirFails?) {
        primary := primary.(files := primary.files[key := dataToWrite]);
        return Success(SaveResult(FilePath(GetFolderPath(folderName, false), fileName), checksum, Online));
      } else if dirOk && env.primaryFault.WriteFailsAfter? {
        primary := primary.(files := primary.files[key := dataToWrite[..Written(dataToWrite, env.primaryFault)]]);
      }

      // plan B: the local buffer
      dirOk := EnsureDirExists(Fallback, folderName, env.fallbackFault == MkdirFails);
      if dirOk && (env.fallbackFault.NoFault? || env.fallbackFault.MkdirFails?) {
        fallback := fallback.(files := fallback.files[key := dataToWrite]);
        return Success(SaveResult(FilePath(GetFolderPath(folderName, true), fileName), checksum, Offline));
      } else if dirOk && env.fallbackFault.WriteFailsAfter? {
        fallback := fallback.(files := fallback.files[key := dataToWrite[..Written(dataToWrite, env.fallbackFault)]]);
      }
      r := Failure(WriteError);
    }

    /** readEncrypted: the local copy first, the primary only while no
        content has been found. */
    method ReadEncrypted(folderName: string, id: string, faults: ReadFaults) returns (r: Result<Json, StoreError>)
      requires Valid()
      ensures r == Read(codec, State(), faults, folderName, id)
    {
      var key := FileKey(folderName, id + JsonSuffix);
      var content: Option<string> := None;

      if key in fallback.files {
        if key !in faults.fallbackUnreadable {
          content := Some(fallback.files[key]);
        }
      }

      if content.None? || content.value == "" {
        if key in primary.files {
          if key in faults.primaryUnreadable {
            if folderName == Usuarios {
              return Failure(SystemOffline);
            }
          } else {
            content := Some(primary.files[key]);
          }
        }
      }

      if content.None? || content.value == "" {
        return Failure(NotFound);
      }
      r := DecodeContent(codec, content.value);
    }

    /** listAllEncrypted: every distinct `*.json` name of both directories is
        read once, in some order; failed reads are left out. */
    method ListAllEncrypted(folderName: string, faults: ReadFaults, lf: ListFaults)
      returns (results: seq<Json>, ghost order: seq<string>)
      requires Valid()
      ensures NoDuplicates(order) && Elements(order) == Listed(State(), folderName, lf)
      ensures results == Collect(codec, State(), faults, folderName, order)
    {
      var disk := State();
      var fileSet: set<string> := {};
      if folderName in fallback.dirs && !lf.fallbackListFails {
        fileSet := fileSet + JsonNames(fallback, folderName);
      }
      if folderName in primary.dirs && !lf.primaryListFails {
        fileSet := fileSet + JsonNames(primary, folderName);
      }
      assert fileSet == Listed(disk, folderName, lf);

      results := [];
      order := [];
      ghost var outcomes: seq<Result<Json, StoreError>> := [];
      var remaining := fileSet;
      while remaining != {}
        invariant remaining <= fileSet
        invariant NoDuplicates(order)
        invariant forall i | 0 <= i < |order| :: order[i] !in remaining
        invariant Elements(order) + remaining == fileSet
        invariant outcomes == Outcomes(codec, disk, faults, folderName, order)
        invariant results == Successes(outcomes)
        decreases remaining
      {
        var file :| file in remaining;
        var obj := ReadEncrypted(folderName, IdOf(file), faults);
        OutcomesAppend(codec, disk, faults, folderName, order, file, obj);
        SuccessesAppend(outcomes, obj);
        AppendFresh(order, file, remaining, fileSet);
        if obj.Success? {
          results := results + [obj.value];
        }
        outcomes := outcomes + [obj];
        order := order + [file];
        remaining := remaining - {file};
      }
    }
  }

  // ========================================================== properties

  /** An online save writes the wrapper to the primary root, returns the
      plaintext's checksum, and leaves the fallback tree as it was. */
  lemma SaveOnline(c: Codec, d: Disk, folder: string, id: string, payload: Json, env: SaveEnv)
    requires |env.aesKey| == AesKeyBytes && |env.iv| == IvBytes
    requires WriteOk(d.primary, folder, env.primaryFault)
    ensures var s := Save(c, d, folder, id, payload, env);
      && s.outcome == Success(SaveResult(FilePath(FolderPath(Primary, folder), id + JsonSuffix),
                                         CalcChecksumFromObject(c, payload), Online))
      && s.disk.fallback == d.fallback
      && s.disk.primary.files == d.primary.files[FileKey(folder, id + JsonSuffix) := WrapperText(c, payload, env.aesKey, env.iv)]
  {
  }

  /** What a write that threw leaves in a root: every other file as it was;
      the target as it was when creating the directory or opening the file
      threw, and only the characters written before the error when the file
      had been opened. */
  predicate FailedWriteLeaves(before: Root, after: Root, key: FileKey, content: string, fault: WriteFault) {
    && after.files - {key} == before.files - {key}
    && (Opened(before, key.folder, fault) ==> key in after.files && after.files[key] == content[..Written(content, fault)])
    && (!Opened(before, key.folder, fault) ==> after.files == before.files)
  }

  /** When the primary write fails the wrapper goes to the fallback root;
      the primary keeps its other files, and the target only lost content
      if the failed write had opened it. */
  lemma SaveOffline(c: Codec, d: Disk, folder: string, id: string, payload: Json, env: SaveEnv)
    requires |env.aesKey| == AesKeyBytes && |env.iv| == IvBytes
    requires !WriteOk(d.primary, folder, env.primaryFault)
    requires WriteOk(d.fallback, folder, env.fallbackFault)
    ensures var s := Save(c, d, folder, id, payload, env);
      && s.outcome == Success(SaveResult(FilePath(FolderPath(Fallback, folder), id + JsonSuffix),
                                         CalcChecksumFromObject(c, payload), Offline))
      && FailedWriteLeaves(d.primary, s.disk.primary, FileKey(folder, id + JsonSuffix),
                           WrapperText(c, payload, env.aesKey, env.iv), env.primaryFault)
      && s.disk.fallback.files == d.fallback.files[FileKey(folder, id + JsonSuffix) := WrapperText(c, payload, env.aesKey, env.iv)]
  {
  }

  /** saveEncrypted throws exactly when both writes fail; each root then
      holds what its failed write left behind. */
  lemma SaveFailsOnlyTwice(c: Codec, d: Disk, folder: string, id: string, payload: Json, env: SaveEnv)
    requires |env.aesKey| == AesKeyBytes && |env.iv| == IvBytes
    ensures var s := Save(c, d, folder, id, payload, env);
      && (s.outcome.Failure? <==> !WriteOk(d.primary, folder, env.primaryFault) && !WriteOk(d.fallback, folder, env.fallbackFault))
      && (s.outcome.Failure? ==>
            && s.outcome.error == WriteError
            && FailedWriteLeaves(d.primary, s.disk.primary, FileKey(folder, id + JsonSuffix),
                                 WrapperText(c, payload, env.aesKey, env.iv), env.primaryFault)
            && FailedWriteLeaves(d.fallback, s.disk.fallback, FileKey(folder, id + JsonSuffix),
                                 WrapperText(c, payload, env.aesKey, env.iv), env.fallbackFault))
  {
  }

  /** A save that opens the file on both roots and fails before writing
      anything leaves two empty files, so the id then reads as NOT_FOUND,
      whatever record it held before. */
  lemma DoubleTruncationLosesRecord(c: Codec, d: Disk, folder: string, id: string, payload: Json, env: SaveEnv,
                                    faults: ReadFaults)
    requires |env.aesKey| == AesKeyBytes && |env.iv| == IvBytes
    requires Opened(d.primary, folder, env.primaryFault) && env.primaryFault.written == 0
    requires Opened(d.fallback, folder, env.fallbackFault) && env.fallbackFault.written == 0
    requires FileKey(folder, id + JsonSuffix) !in faults.primaryUnreadable
    ensures Save(c, d, folder, id, payload, env).outcome == Failure(WriteError)
    ensures Read(c, Save(c, d, folder, id, payload, env).disk, faults, folder, id) == Failure(NotFound)
  {
  }

  /** Saving keeps every file inside an existing directory. */
  lemma SaveKeepsValid(c: Codec, d: Disk, folder: string, id: string, payload: Json, env: SaveEnv)
    requires |env.aesKey| == AesKeyBytes && |env.iv| == IvBytes
    requires d.Valid()
    ensures Save(c, d, folder, id, payload, env).disk.Valid()
  {
  }

  /** The wrapper carries version 1, the algorithm tag, and the checksum of
      the plaintext, and its cipher decrypts back to the payload. */
  lemma WrapperFormat(c: Codec, payload: Json, aesKey: Bytes, iv: Bytes)
    requires Lawful(c)
    requires |aesKey| == AesKeyBytes && |iv| == IvBytes
    ensures var w := c.prims.parse(WrapperText(c, payload, aesKey, iv));
      && w.Some?
      && Get(w.value, "version") == Some(JNum(1))
      && Get(w.value, "algorithm") == Some(JStr("RSA-OAEP-SHA256"))
      && Get(w.value, "checksum") == Some(JStr(CalcChecksumFromObject(c, payload)))
      && Get(w.value, "cipher") == Some(JStr(EncryptJson(c, payload, aesKey, iv)))
  {
  }

  /** Reading back the text of a wrapper gives the payload. */
  lemma DecodeWrapper(c: Codec, payload: Json, aesKey: Bytes, iv: Bytes)
    requires Lawful(c)
    requires |aesKey| == AesKeyBytes && |iv| == IvBytes
    ensures WrapperText(c, payload, aesKey, iv) != ""
    ensures DecodeContent(c, WrapperText(c, payload, aesKey, iv)) == Success(payload)
  {
    var cipher := EncryptJson(c, payload, aesKey, iv);
    var text := WrapperText(c, payload, aesKey, iv);
    assert c.prims.parse(text) == Some(Wrapper(CalcChecksumFromObject(c, payload), cipher));
    assert text != "" by {
      assert c.prims.parse("") == None;
    }
    RoundTrip(c, payload, aesKey, iv);
  }

  /** A readable, non-empty local copy decides the read; the primary root is
      not consulted. */
  lemma FallbackFirst(c: Codec, d: Disk, faults: ReadFaults, folder: string, id: string)
    requires FallbackHit(d, faults, FileKey(folder, id + JsonSuffix))
    ensures Read(c, d, faults, folder, id) == DecodeContent(c, d.fallback.files[FileKey(folder, id + JsonSuffix)])
  {
  }

  /** The error taxonomy of readEncrypted: NOT_FOUND when neither root yields
      content, SYSTEM_OFFLINE only for `usuarios` whose primary file cannot be
      read, and every other error comes from the content found. */
  lemma ReadErrors(c: Codec, d: Disk, faults: ReadFaults, folder: string, id: string)
    ensures var key := FileKey(folder, id + JsonSuffix);
            var r := Read(c, d, faults, folder, id);
      && (r == Failure(SystemOffline) <==>
            !FallbackHit(d, faults, key) && key in d.primary.files && key in faults.primaryUnreadable && folder == Usuarios)
      && (r == Failure(NotFound) <==>
            !FallbackHit(d, faults, key) &&
            (key !in d.primary.files || (key in faults.primaryUnreadable && folder != Usuarios) ||
             (key !in faults.primaryUnreadable && d.primary.files[key] == "")))
      && ((!FallbackHit(d, faults, key) && key in d.primary.files && key !in faults.primaryUnreadable
            && d.primary.files[key] != "") ==> r == DecodeContent(c, d.primary.files[key]))
  {
  }

  /** Content without a `cipher` is rejected as INVALID_FORMAT. */
  lemma MissingCipherIsInvalid(c: Codec, content: string, w: Json)
    requires c.prims.parse(content) == Some(w) && !w.JNull?
    requires !Present(Get(w, "cipher"))
    ensures DecodeContent(c, content) == Failure(InvalidFormat)
  {
  }

  /** After an offline save, reading the same id gives the payload back. */
  lemma OfflineSaveThenRead(c: Codec, d: Disk, folder: string, id: string, payload: Json, env: SaveEnv, faults: ReadFaults)
    requires Lawful(c)
    requires |env.aesKey| == AesKeyBytes && |env.iv| == IvBytes
    requires !WriteOk(d.primary, folder, env.primaryFault) && WriteOk(d.fallback, folder, env.fallbackFault)
    requires FileKey(folder, id + JsonSuffix) !in faults.fallbackUnreadable
    ensures Save(c, d, folder, id, payload, env).outcome.value.mode == Offline
    ensures Read(c, Save(c, d, folder, id, payload, env).disk, faults, folder, id) == Success(payload)
  {
    DecodeWrapper(c, payload, env.aesKey, env.iv);
  }

  /** An online save never touches the fallback tree, so a stale local copy
      still shadows it; without one the payload is read back. */
  lemma OnlineSaveThenRead(c: Codec, d: Disk, folder: string, id: string, payload: Json, env: SaveEnv, faults: ReadFaults)
    requires Lawful(c)
    requires |env.aesKey| == AesKeyBytes && |env.iv| == IvBytes
    requires WriteOk(d.primary, folder, env.primaryFault)
    requires FileKey(folder, id + JsonSuffix) !in faults.primaryUnreadable
    ensures var key := FileKey(folder, id + JsonSuffix);
            var after := Read(c, Save(c, d, folder, id, payload, env).disk, faults, folder, id);
      && (FallbackHit(d, faults, key) ==> after == DecodeContent(c, d.fallback.files[key]))
      && (!FallbackHit(d, faults, key) ==> after == Success(payload))
  {
    DecodeWrapper(c, payload, env.aesKey, env.iv);
  }

  lemma {:induction false} SuccessesAtMost(rs: seq<Result<Json, StoreError>>)
    ensures |Successes(rs)| <= |rs|
    decreases |rs|
  {
    if |rs| > 0 {
      SuccessesAtMost(rs[..|rs| - 1]);
    }
  }

  lemma {:induction false} SuccessesSound(rs: seq<Result<Json, StoreError>>, x: Json)
    requires x in Successes(rs)
    ensures exists i | 0 <= i < |rs| :: rs[i] == Success(x)
    decreases |rs|
  {
    var init := rs[..|rs| - 1];
    if x in Successes(init) {
      SuccessesSound(init, x);
      var i :| 0 <= i < |init| && init[i] == Success(x);
      assert rs[i] == init[i];
    } else {
      assert rs[|rs| - 1] == Success(x);
    }
  }

  lemma {:induction false} SuccessesComplete(rs: seq<Result<Json, StoreError>>, i: nat)
    requires i < |rs| && rs[i].Success?
    ensures rs[i].value in Successes(rs)
    decreases |rs|
  {
    if i < |rs| - 1 {
      var init := rs[..|rs| - 1];
      assert init[i] == rs[i];
      SuccessesComplete(init, i);
    }
  }

  /** Each visited name contributes at most one record. */
  lemma CollectAtMostOnePerName(c: Codec, d: Disk, faults: ReadFaults, folder: string, names: seq<string>)
    ensures |Collect(c, d, faults, folder, names)| <= |names|
  {
    SuccessesAtMost(Outcomes(c, d, faults, folder, names));
  }

  /** Every listed record is what reading one of the visited names gives. */
  lemma CollectSound(c: Codec, d: Disk, faults: ReadFaults, folder: string, names: seq<string>, x: Json)
    requires x in Collect(c, d, faults, folder, names)
    ensures exists i | 0 <= i < |names| :: Read(c, d, faults, folder, IdOf(names[i])) == Success(x)
  {
    var rs := Outcomes(c, d, faults, folder, names);
    SuccessesSound(rs, x);
    var i :| 0 <= i < |rs| && rs[i] == Success(x);
    assert Read(c, d, faults, folder, IdOf(names[i])) == Success(x);
  }

  /** Every visited name that reads successfully contributes its record. */
  lemma CollectComplete(c: Codec, d: Disk, faults: ReadFaults, folder: string, names: seq<string>, i: nat)
    requires i < |names|
    requires Read(c, d, faults, folder, IdOf(names[i])).Success?
    ensures Read(c, d, faults, folder, IdOf(names[i])).value in Collect(c, d, faults, folder, names)
  {
    var rs := Outcomes(c, d, faults, folder, names);
    assert rs[i] == Read(c, d, faults, folder, IdOf(names[i]));
    SuccessesComplete(rs, i);
  }

  /** Listing when the primary cannot be listed still returns every readable
      record of the fallback directory. */
  lemma ListSurvivesPrimaryFailure(c: Codec, d: Disk, faults: ReadFaults, folder: string, lf: ListFaults,
                                   order: seq<string>, file: string)
    requires lf.primaryListFails && !lf.fallbackListFails && d.Valid()
    requires Elements(order) == Listed(d, folder, lf)
    requires FileKey(folder, file) in d.fallback.files && EndsWith(file, JsonSuffix)
    requires Read(c, d, faults, folder, IdOf(file)).Success?
    ensures Read(c, d, faults, folder, IdOf(file)).value in Collect(c, d, faults, folder, order)
  {
    assert file in JsonNames(d.fallback, folder);
    assert file in Elements(order);
    var i :| 0 <= i < |order| && order[i] == file;
    CollectComplete(c, d, faults, folder, order, i);
  }
}
