/** Shared vocabulary of the updater: bytes, paths, the failure taxonomy and
    the external collaborators (network, hash, text codecs, JSON, compiler,
    archive download, dependency installer), which are passed in as total
    functions so that every run is deterministic in them. */
module Base {

  newtype byte = x: int | 0 <= x < 256

  type Bytes = seq<byte>
  type Text = string
  type Digest = string
  type Path = string

  datatype Option<+T> = None | Some(value: T)

  /** A value, or the exception that escapes and ends the script. */
  datatype Outcome<+T> = Ok(value: T) | Err(fault: Fault)

  /** Every uncaught exception or failed `assert` of the script. */
  datatype Fault =
    | InsecureUrl(url: string)          // URL without the https:// scheme
    | HttpFailure(code: nat)            // re-raised HTTP error
    | EmptyDigest                       // a hex digest of length zero
    | UndecodableRemote                 // remote bytes invalid in the configured encoding
    | MalformedRecipe                   // the recipe text is not JSON of the expected shape
    | UnboundEntryName                  // source_url met before any name in the section
    | MissingLocalFile(path: Path)      // opening a vanished file for update
    | IntegrityMismatch(path: Path)     // re-read hash differs from the remote hash
    | CompilerMissing(path: Path)       // no spcomp binary
    | CompilerFailed(exitCode: int)     // spcomp returned non-zero
    | ArtifactMissing(path: Path)       // no <name>.smx after compiling
    | ArchiveUnavailable                // release archive could not be downloaded
    | MissingArchiveMember(member: string)
    | DependencyInstallFailed           // pipenv install returned non-zero

  /** Two-component `os.path.join` on POSIX paths. */
  function Join(dir: Path, file: string): Path
  {
    if |file| > 0 && file[0] == '/' then file
    else if dir == [] || dir[|dir| - 1] == '/' then dir + file
    else dir + "/" + file
  }

  /** The joined path ends with the file name, and an absolute file name
      replaces the directory. */
  lemma JoinKeepsFile(dir: Path, file: string)
    ensures var p := Join(dir, file);
            |p| >= |file| && p[|p| - |file|..] == file
    ensures |file| > 0 && file[0] == '/' ==> Join(dir, file) == file
  {
  }

  /** What the compiler subprocess leaves behind: its exit status and the
      `.smx` it wrote into the working directory, if any. */
  datatype CompilerRun = CompilerRun(exitCode: int, artifact: Option<Bytes>)

  /** One entry of a recipe section: its JSON object's keys and string values in order. */
  type Entry = seq<(string, string)>

  /** A recipe section as `json_data.get(section)` sees it: `None` for a
      missing key or a JSON null, otherwise a list whose items may be null. */
  type SectionValue = Option<seq<Option<Entry>>>

  /** The decoded recipe document: its top-level object. */
  type Json = map<string, SectionValue>

  /** The text codecs: the configured encoding (used to decode remote bytes
      and to re-encode local text before hashing) and UTF-8 (the encoding the
      local files are opened with). Decoding may fail; encoding is total. */
  datatype Codec = Codec(
    decodeCfg: Bytes -> Option<Text>,
    encodeCfg: Text -> Bytes,
    decodeUtf8: Bytes -> Option<Text>,
    encodeUtf8: Text -> Bytes)

  /** Both encodings round-trip: UTF-8 text survives a write and a read, and
      whatever decodes under the configured encoding re-encodes to the same bytes. */
  ghost predicate RoundTrips(c: Codec)
  {
    && (forall t :: c.decodeUtf8(c.encodeUtf8(t)) == Some(t))
    && (forall b :: c.decodeCfg(b).Some? ==> c.encodeCfg(c.decodeCfg(b).value) == b)
  }

  /** The response of `urlopen` for a URL: a body or an HTTP error status. */
  datatype HttpResponse = Body(data: Bytes) | HttpError(code: nat)

  /** The environment the script runs in. */
  datatype Env = Env(
    fetch: string -> HttpResponse,
    digest: Bytes -> Digest,
    codec: Codec,
    parse: Text -> Option<Json>,
    compile: (Path, Bytes) -> CompilerRun,
    download: string -> Option<map<string, Bytes>>,
    pipenvInstall: Bytes -> bool,
    isWindows: bool)

  /** SHA-256 hex digests are never empty. */
  ghost predicate DigestsNonEmpty(env: Env)
  {
    forall b :: env.digest(b) != []
  }

  /** The assumptions under which the integrity check can always succeed. */
  ghost predicate Sound(env: Env)
  {
    DigestsNonEmpty(env) && RoundTrips(env.codec)
  }

  /** The directories the script works in (all resolved from `game_dir`). */
  datatype Layout = Layout(
    pluginsDir: Path,
    scriptingDir: Path,
    includesDir: Path,
    compilerDir: Path,
    selfPath: Path,
    selfDir: Path)
}
