# CreamySoup `soup.py` — a verified model of the updater

`soup.py` keeps a SourceMod game server's plugins and include files up to
date from remote "recipes". A recipe is a JSON document with an `includes`
section and a `plugins` section. Each section lists entries made of
`name` / `source_url` pairs. For each entry the updater:

- fetches the remote source over HTTPS;
- compares its SHA-256 digest with the digest of the local copy;
- rewrites the local copy when the two differ, then re-reads it and asserts
  that the digests now agree;
- for a plugin, also runs the `spcomp` compiler and moves the resulting
  `.smx` into the plugins directory.

The updater can also replace its own source with the latest GitHub release.

This project models that core in Dafny:

- `Base` holds the shared vocabulary: bytes, faults, the `Outcome` result,
  the recipe JSON shape, and `Env`. `Env` is the set of outside services the
  program calls: the HTTP fetch, SHA-256, the text codecs, the JSON parser,
  the compiler subprocess, the release-archive download and `pipenv`.
- `Fetch` models `get_url_contents` and `verify_gh_api_req`. It includes the
  rule "first digit of the status code is 5 ⇒ transient".
- `Hashing` models `get_data_hash` and `get_file_hash`.
- `SelfUpdate` models the version decision, the archive member names and the
  API phase of `self_update`.
- `RecipeSpec` is the specification of one `check_for_updates` pass, as pure
  functions:
  - the sync rule of a `source_url` key;
  - building and installing a plugin;
  - folds over the keys of an entry, the entries of a section, and the root
    sections.
- `RecipeProps` proves properties of that specification:
  - The update counters equal the updates recorded in the event log.
  - The log is ordered: write → verify → compile → install, and an install
    follows a clean compile of the same plugin.
  - An exception ends the walk.
  - The walk only appends to the log.
  - The `name` counts are right.
  - End-to-end scenarios for single entries.
- `RecipeRun` holds the class `Soup`, which owns the server's file system
  (`fs`, a map from path to bytes) and the event `log`. Its methods perform
  the pass step by step, with loops over keys, entries and sections. Each
  method is proved to leave exactly the state that the `RecipeSpec`
  function describes. `Soup.SelfUpdate` writes `requirements.txt` and the
  program file as `ApplyRelease` describes.

Python behaviour kept on purpose:

- The locals `include_name`/`local_inc_path` and
  `plugin_name`/`local_source_path` belong to the function, not the entry.
  So a `source_url` with no `name` in its own entry reuses the previous
  entry's target. With no earlier `name` at all, the names are unbound and
  the step raises (`UnboundEntryName`).
- Whether the file exists is read when `name` is seen.
- A missing file is opened with mode `"w"`, so it is created empty before the
  remote bytes are decoded.
- An undecodable local file hashes to `""` and is therefore always rewritten.
- The following are uncaught exceptions, so they end the whole
  `check_for_updates` call (`Aborted`):
  - a failing integrity assert;
  - a missing compiler;
  - a non-zero compiler exit (`check=True`);
  - a missing `.smx`;
  - a 4xx response.

  A failed compile or a missing `.smx` therefore does not abandon only that
  plugin entry: it is an uncaught exception that ends the whole pass
  (soup.py:406-417).
- Writes are in place, not atomic. A recipe file is opened with mode `"w"`
  or `r+`, then seeked, written and truncated (soup.py:280-305).
  `self_update` opens both of its files with `"wb+"`, which empties them
  before the archive member is read (soup.py:204-217). A failure midway
  therefore leaves an emptied or rewritten file behind.
- `.smx` output the compiler leaves behind is in the file system even when
  its exit code is non-zero.
- `shutil.move` onto the same path is a no-op.

## Model

| member | source | states |
|---|---|---|
| Base.JoinKeepsFile | soup.py:262-263 | the joined path ends with the file name, and an absolute file name replaces the directory, as `os.path.join` does |
| Base.Join | soup.py:262-263 | `os.path.join` of a directory and a file name on POSIX; `JoinKeepsFile` states its guarantees |
| Fetch.LeadingDigit | soup.py:101 | the first decimal digit of a code is below 10, non-zero for a positive code, and the code itself when it has one digit |
| Fetch.LeadingDigitOfMagnitude | soup.py:101 | `int(str(code)[:1])` is `d` for every code between `d·10^k` and `(d+1)·10^k` |
| Fetch.ThreeDigitLeadingDigit | soup.py:142 | for a three-digit status code the first digit is `code / 100` |
| Fetch.GetUrlContents | soup.py:93-107 | a non-HTTPS URL fails the assert; a body is returned as is; an HTTP error whose first digit is 5 gives `None`, any other is re-raised with its code |
| Fetch.IsHttps | soup.py:97 | the URL must start with `https://` |
| Fetch.ServerErrorIsTransient | soup.py:100-107 | every 5xx response to an HTTPS URL yields "unavailable", never a fault |
| Fetch.OtherErrorIsFatal | soup.py:100-106 | an HTTP error outside 5xx is re-raised with its status code |
| Fetch.VerifyGhApiReq | soup.py:137-161 | raises exactly for 4xx; returns false exactly for 5xx or an exhausted quota with all four rate-limit headers; returns true exactly otherwise |
| Fetch.RaisesForStatus | soup.py:139-140 | `raise_for_status` raises for a 4xx or 5xx status |
| Fetch.QuotaExhausted | soup.py:148-159 | the quota is used up when all four rate-limit headers are present and none remain |
| Hashing.GetDataHash | soup.py:130-134 | the result is the digest of the data, and the non-empty assert fails exactly when the digest is empty |
| Hashing.GetFileHash | soup.py:122-127 | an undecodable file hashes to `""`; otherwise the hash is the data hash of the text re-encoded in the configured encoding; a non-empty hash implies the file decoded |
| Hashing.UndecodableNeverMatches | soup.py:122-127 | an undecodable local file never matches a remote digest |
| Hashing.RewrittenFileHashesLikeRemote | soup.py:301-317 | writing the decoded remote text as UTF-8 and hashing it back gives the remote digest, when the codecs round-trip |
| SelfUpdate.VersionLessIsStrictTotalOrder | soup.py:175-176 | the version comparison is irreflexive, transitive, total and asymmetric |
| SelfUpdate.VersionLess | soup.py:175 | version precedence: major, then minor, then patch; `VersionLessIsStrictTotalOrder` states its guarantees |
| SelfUpdate.Decide | soup.py:175-179 | update exactly when the running version is lower than the release; "ahead" exactly when higher; "up to date" exactly when equal |
| SelfUpdate.SameVersionStays | soup.py:175-179 | 1.6.2 against a 1.6.2 release does nothing |
| SelfUpdate.NewerReleaseUpdates | soup.py:175-181 | 1.6.2 against a 1.7.0 release updates |
| SelfUpdate.ShortSha | soup.py:194-195 | `sha[:7]` has length `min(len, 7)` and is a prefix of the sha |
| SelfUpdate.MemberName | soup.py:197-198 | the member name is `<root>/` followed by the file name |
| SelfUpdate.MemberNames | soup.py:194-198 | the two members are `CreamySoup-soup-<sha[:7]>/soup.py` and `/requirements.txt`; they differ; they depend only on the first seven characters of the sha |
| SelfUpdate.PlanSelfUpdate | soup.py:164-198 | the archive is downloaded exactly when both API requests pass and the release is newer, from the release's zipball and with the two member names; a 4xx on the first request, or on the second once the release is newer, aborts with that error; a 5xx or exhausted quota on either returns quietly; an older or equal release never downloads |
| RecipeSpec.SourcePath | soup.py:333-334 | an include lives at `<includes>/<name>.inc` and a plugin at `<scripting>/<name>.sp` |
| RecipeSpec.CompilerBinary | soup.py:397-402 | the compiler is `spcomp.exe` exactly on Windows and `spcomp` exactly elsewhere |
| RecipeSpec.ArtifactPath | soup.py:414-416 | the compiled plugin is looked for at `./<name>.smx` |
| RecipeSpec.InstallPath | soup.py:425-427 | it is installed at `<plugins>/<name>.smx` |
| RecipeSpec.SourceIsNotArtifact | soup.py:414-427 | a plugin's `.sp` source is never the `.smx` that is moved or the install destination |
| RecipeSpec.Rewrite | soup.py:301-321 | a rewrite that succeeds leaves a target file whose re-read hash is the remote hash, logs write then verify, and changes no other file; a failed rewrite logs at most the write |
| RecipeSpec.LocalHash | soup.py:284-291 | the local hash is computed only for a file that existed when its `name` was read |
| RecipeSpec.SyncOutcome | soup.py:269-321 | the `source_url` sync rule; its guarantees are stated by the `Sync…` lemmas |
| RecipeSpec.SyncSkipped | soup.py:269-275 | the sync is skipped exactly when the source is unavailable (5xx) and a target name is bound, and then nothing is written and only a warning is logged |
| RecipeSpec.SyncUnchanged | soup.py:280-295 | the status is Unchanged exactly when the file existed and its hash equals the non-empty remote hash, and then nothing is written and nothing logged |
| RecipeSpec.SyncUpdated | soup.py:296-321 | an update means the source was fetched, only the target file changed, its re-read hash is the remote hash, it holds the remote text encoded as UTF-8, and write then verify were logged |
| RecipeSpec.SyncFrame | soup.py:269-321 | the sync rule changes no file but the current target |
| RecipeSpec.SyncEvents | soup.py:269-321 | the sync rule logs nothing, a skip warning, a write, or a write then a verification, and the last exactly on an update |
| RecipeSpec.SyncRewrites | soup.py:280-321 | a fetched source that differs from the local file, or has no local file, is written as the remote text and verified, when digest and codecs behave on that content |
| RecipeSpec.SyncIsIdempotent | soup.py:289-295 | syncing a second time after a successful sync finds the hashes equal and writes nothing |
| RecipeSpec.SyncSucceedsWhenSound | soup.py:269-321 | with a fetched source that decodes, non-empty digests and round-tripping codecs, the sync ends unchanged or updated and never raises |
| RecipeSpec.UndecodableLocalIsRewritten | soup.py:284-300 | an existing local file that is not valid UTF-8 is always rewritten |
| RecipeSpec.Move | soup.py:425-427 | after the move the destination holds the source's bytes, the source is gone unless it is the destination, and every other file is untouched |
| RecipeSpec.BuildFacts | soup.py:397-427 | a missing compiler raises before anything runs; a non-zero exit raises `CompilerFailed` with that code after logging the compile; a clean exit that left no `./<name>.smx` raises `ArtifactMissing`; the build succeeds exactly when the compiler exists, exits 0 and the `.smx` is there, and then the install destination holds the compiled bytes, compile then install are logged, and the source is kept |
| RecipeSpec.BuildFrame | soup.py:397-427 | building changes no file but `./<name>.smx` and `<plugins>/<name>.smx`, and when it raises only the compiler's output may have changed |
| RecipeSpec.BuildOutcome | soup.py:397-427 | compile the plugin source, then move `./<name>.smx` into the plugins directory; its guarantees are stated by `BuildFacts` and `BuildFrame` |
| RecipeSpec.KeyStep | soup.py:258-269 | once an exception is raised nothing more happens, and keys other than `name` and `source_url` change nothing |
| RecipeSpec.NameStep | soup.py:259-265 | a `name` key selects the target path, records whether it exists and counts the entry as processed |
| RecipeSpec.SourceStep | soup.py:269-434 | a `source_url` key syncs, then counts an updated include or builds and installs an updated plugin |
| RecipeSpec.EntryFold | soup.py:258-259 | the pairs of one entry in order; `EntryFoldConsistent` and `EntryFoldHalted` state its guarantees |
| RecipeSpec.SectionFold | soup.py:255-258 | the entries of one section in order, skipping `null`; `SectionFoldConsistent` and `SectionFoldHalted` state its guarantees |
| RecipeSpec.RootStep | soup.py:247-254 | one top-level section: absent skipped, `updater` only warns, others walked |
| RecipeSpec.RootFold | soup.py:246 | the sections `includes`, `plugins`, `updater` in that order; `RootFoldConsistent` and `RootFoldHalted` state its guarantees |
| RecipeSpec.RecipePass | soup.py:230-254 | the run is "unavailable" exactly when the recipe fetch returns `None`, and then it changes no file and logs nothing |
| RecipeProps.AfterBuildConsistent | soup.py:404-434 | compiling and installing right after a verification keeps the log ordered and counts a plugin exactly when it is installed |
| RecipeProps.AfterSyncConsistent | soup.py:269-434 | whatever follows a sync keeps the counters equal to the logged updates and the log ordered |
| RecipeProps.SourceStepConsistent | soup.py:269-434 | one `source_url` step keeps the counters equal to the logged updates and keeps the log ordered |
| RecipeProps.KeyStepConsistent | soup.py:258-434 | any key of an entry keeps the counters equal to the logged updates and keeps the log ordered |
| RecipeProps.EntryFoldConsistent | soup.py:258-434 | the same holds through the pairs of one entry |
| RecipeProps.SectionFoldConsistent | soup.py:255-434 | the same holds through the entries of one section |
| RecipeProps.RootFoldConsistent | soup.py:246-434 | the same holds through the root sections |
| RecipeProps.RecipePassCounters | soup.py:240-439 | a whole pass reports as updated exactly the verified include rewrites and the installed plugins of its log, and the log is ordered |
| RecipeProps.EntryFoldHalted | soup.py:319-321 | after an exception the remaining pairs of the entry change nothing |
| RecipeProps.SectionFoldHalted | soup.py:255-258 | after an exception the remaining entries change nothing |
| RecipeProps.RootFoldHalted | soup.py:246-255 | after an exception the remaining sections change nothing |
| RecipeProps.AfterSyncAfter | soup.py:308-434 | what follows a sync appends its events after whatever was logged before and does not depend on it |
| RecipeProps.SourceStepAfter | soup.py:269-434 | the same holds for a `source_url` step |
| RecipeProps.KeyStepAfter | soup.py:258-434 | a step appends its events after whatever was logged before and does not depend on it |
| RecipeProps.EntryFoldAfter | soup.py:258-434 | the same holds for one entry |
| RecipeProps.SectionFoldAfter | soup.py:255-434 | the same holds for one section |
| RecipeProps.RootStepAfter | soup.py:247-254 | the same holds for one root section, including the `updater` warning |
| RecipeProps.SourceStepKeepsProcessed | soup.py:269-434 | syncing, compiling and installing never change the processed counters |
| RecipeProps.EntryFoldCountsNames | soup.py:260-265 | an entry walked to its end adds its number of `name` keys to the processed counter of its section's kind |
| RecipeProps.UnavailableSourceIsSkipped | soup.py:270-275 | a 5xx source with a bound name only logs a warning and leaves files and counters as they were |
| RecipeProps.NewIncludeSourceStep | soup.py:280-328 | the `source_url` step of an include with no local file writes the remote content and counts an update |
| RecipeProps.ScenarioNewInclude | soup.py:280-328 | an include with no local file is written with the remote content and counted as processed and updated |
| RecipeProps.ScenarioUnchangedInclude | soup.py:284-295 | an include whose local file already holds the remote content is left alone, and only counted as processed |
| RecipeProps.CompileFailsSourceStep | soup.py:340-409 | the `source_url` step of a changed plugin whose compiler exits non-zero writes and verifies the source, logs the compile, and raises the compiler failure |
| RecipeProps.ScenarioCompileFails | soup.py:404-409 | a changed plugin whose compiler exits non-zero stops the run with that exit code; the new source stays on disk; nothing is installed or counted as updated |
| RecipeRun.ApplyRelease | soup.py:199-223 | a restart happens exactly when the archive was downloaded, holds both members and `pipenv` succeeded, and then `requirements.txt` and the program file hold the two members; a missing archive changes nothing; a missing member leaves its file emptied by `"wb+"`; a failed `pipenv` leaves the new `requirements.txt`; no other file changes |
| RecipeRun.NoRestartWithoutNewerRelease | soup.py:175-179 | when the release is not newer, self-update changes no file and does not restart |
| RecipeRun.NewerReleaseRestarts | soup.py:164-223 | a newer release whose API requests pass, whose archive holds both members and whose requirements install replaces both files and restarts with the same arguments |
| RecipeRun.RequirementsPath | soup.py:204-206 | `requirements.txt` is looked for in the directory of the program itself |
| RecipeRun.Soup.SyncSource | soup.py:269-321 | the method leaves exactly the status, files and log that `SyncOutcome` specifies |
| RecipeRun.Soup.CompileAndInstall | soup.py:397-427 | the method leaves exactly the fault, files and log that `BuildOutcome` specifies |
| RecipeRun.Soup.SourceKey | soup.py:269-434 | the `source_url` branch ends in the state of `SourceStep`: sync, then count an include or build and install a plugin |
| RecipeRun.Soup.ProcessEntry | soup.py:258-434 | the loop over the pairs of an entry ends in the state of `EntryFold`, stopping at the first exception |
| RecipeRun.Soup.ProcessSection | soup.py:255-258 | the loop over the entries, skipping `null`, ends in the state of `SectionFold` |
| RecipeRun.Soup.CheckForUpdates | soup.py:230-254 | the whole pass returns the outcome and leaves the files of `RecipePass`, appending its log to what was logged before |
| RecipeRun.Soup.SelfUpdate | soup.py:164-223 | self-update returns the result and leaves the files of `ApplyRelease` for the plan of `PlanSelfUpdate` |

## Left out

- Network, authentication and TLS are left out. The HTTP response for each URL is a parameter (`Env.fetch`). Non-HTTP `urlopen` errors (DNS, connection) are not modelled.
- SHA-256 and the text codecs are opaque functions. The model assumes the digest is non-empty and the codecs round-trip (`Sound`) only where a lemma needs it. `encodeCfg` is total, so a `UnicodeEncodeError` while re-encoding is not modelled.
- JSON parsing is an opaque function. The recipe is limited to a dictionary of sections, each a list of string-valued dictionaries or `null`. Other JSON shapes are not modelled: some raise in the code, others do not (a non-string value under a key other than `name`/`source_url` is only printed, any non-null `updater` value only triggers the warning, and an empty string or dictionary as a section iterates nothing).
- Configuration loading and the directory asserts at start-up (soup.py:51-83), `main` and the recipe loop (soup.py:442 onwards) are not part of this model.
- Printing and verbosity levels are left out. The model logs only the events the properties need.
- Fault is a single exception kind: once raised it ends the pass. Its traceback and message text are not modelled.
- Fetch.VerifyGhApiReq: the minutes-until-reset computation (float arithmetic and the clock) only feeds a message, so it is left out. Header values are integers; a non-integer header that would raise in `int()` is not modelled.
- SelfUpdate.Decide: versions are numeric triples; semver pre-release and build-metadata ordering are not modelled.
- Fetch.GetUrlContents: status codes are natural numbers; a negative code, whose `str` starts with `-`, is not modelled.
- RecipeRun.Soup.SelfUpdate: the restart (`subprocess.check_call` of the interpreter, then `sys.exit`) is the result `RestartRequested(argv)`. Re-executing the program is not modelled.
- The compiler writes its output to `./<name>.smx`, with the working directory taken as `.`. What else `spcomp` does is a function of the source path and bytes (`Env.compile`).
- RecipeSpec.RecipePass: in `Aborted`, the counters report how far the walk got. The program prints nothing in that case.
- RecipeRun.ApplyRelease: `pipenv install -r requirements.txt` reads the file from the working directory; the model hands it the bytes just written beside the program, so it assumes the working directory is the program's directory.
- Base.Join: this is POSIX `os.path.join`. On Windows, where `spcomp.exe` is chosen, Python uses `ntpath.join` (backslash separators, drive letters), which is not modelled.
