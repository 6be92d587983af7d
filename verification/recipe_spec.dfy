/** The recipe synchronisation pass of `check_for_updates`, as functions of
    the file system before the pass: the sync rule for one `source_url`, the
    compile-and-install step for plugins, and the walk over keys, entries and
    sections. The methods of `RecipeRun` are proved to compute exactly these. */
module RecipeSpec {
  import opened Base
  import opened Fetch
  import opened Hashing

  type FileSystem = map<Path, Bytes>

  /** Which branch of the walk an entry belongs to: `includes`, or anything else (plugins). */
  datatype Kind = Include | Plugin

  /** The local file chosen by an entry's `name` key, and whether it existed at that moment. */
  datatype Target = Target(name: string, path: Path, existed: bool)

  datatype Counters = Counters(incProcessed: nat, incUpdated: nat, plugProcessed: nat, plugUpdated: nat)

  const NoCounters := Counters(0, 0, 0, 0)

  /** The function-scoped variables of `check_for_updates` that outlive one
      entry: the four counters and the last include and plugin target. */
  datatype Locals = Locals(counters: Counters, incTarget: Option<Target>, plugTarget: Option<Target>)

  const FreshLocals := Locals(NoCounters, None, None)

  /** What the pass does that can be observed besides the files. */
  datatype Event =
    | Deprecated(section: string)          // warning for the `updater` section
    | SkippedFetch(name: string)           // source unavailable (5xx), entry left as is
    | Wrote(path: Path)                    // file rewritten from offset 0 and truncated
    | Verified(kind: Kind, path: Path)     // re-read hash equals the remote hash
    | CompilerRan(name: string, path: Path, exitCode: int)  // the compiler ran on the plugin's source
    | Installed(name: string, dest: Path)  // `<name>.smx` moved into the plugins directory

  /** `<includes>/<name>.inc` or `<scripting>/<name>.sp`. */
  function SourcePath(layout: Layout, kind: Kind, name: string): (p: Path)
    ensures kind == Include ==> p == Join(layout.includesDir, name + ".inc")
    ensures kind == Plugin ==> p == Join(layout.scriptingDir, name + ".sp")
    ensures kind == Plugin ==> |p| >= 3 && p[|p| - 3..] == ".sp"
  {
    match kind
    case Include => Join(layout.includesDir, name + ".inc")
    case Plugin =>
      var p := Join(layout.scriptingDir, name + ".sp");
      assert p[|p| - 3..] == (name + ".sp")[|name|..];
      p
  }

  /** The compiler binary: `spcomp.exe` on Windows, `spcomp` elsewhere. */
  function CompilerBinary(isWindows: bool): (b: string)
    ensures isWindows <==> b == "spcomp.exe"
    ensures !isWindows <==> b == "spcomp"
  {
    if isWindows then "spcomp.exe" else "spcomp"
  }

  /** Where the compiler leaves its output: `./<name>.smx`. */
  function ArtifactPath(name: string): (p: Path)
    ensures p == Join(".", name + ".smx")
    ensures |p| >= 4 && p[|p| - 4..] == ".smx"
  {
    var p := Join(".", name + ".smx");
    assert p[|p| - 4..] == (name + ".smx")[|name|..];
    p
  }

  /** Where the plugin is installed: `<plugins>/<name>.smx`. */
  function InstallPath(layout: Layout, name: string): (p: Path)
    ensures p == Join(layout.pluginsDir, name + ".smx")
    ensures |p| >= 4 && p[|p| - 4..] == ".smx"
  {
    var p := Join(layout.pluginsDir, name + ".smx");
    assert p[|p| - 4..] == (name + ".smx")[|name|..];
    p
  }

  /** A plugin source path never coincides with a compiled artifact's path. */
  lemma SourceIsNotArtifact(layout: Layout, name: string, other: string)
    ensures SourcePath(layout, Plugin, name) != ArtifactPath(other)
    ensures SourcePath(layout, Plugin, name) != InstallPath(layout, other)
  {
    var s := SourcePath(layout, Plugin, name);
    var a := ArtifactPath(other);
    var d := InstallPath(layout, other);
    assert s[|s| - 1] == 'p';
    assert a[|a| - 1] == 'x' && d[|d| - 1] == 'x';
  }

  // ---------------------------------------------------------------------
  // The sync rule for one `source_url` key

  datatype SyncStatus = Unchanged | Updated | Skipped

  datatype Sync = Sync(status: Outcome<SyncStatus>, fs: FileSystem, events: seq<Event>)

  /** The local hash the comparison uses: computed only for a file that existed. */
  function LocalHash(env: Env, t: Target, fs: FileSystem): Outcome<Digest>
    requires t.existed ==> t.path in fs
  {
    if t.existed then GetFileHash(env.codec, env.digest, fs[t.path]) else Ok("")
  }

  /** The file system and log after the rewrite branch, from the moment the
      local file is open (emptied by mode "w" when it did not exist). */
  function Rewrite(env: Env, kind: Kind, t: Target, data: Bytes, remoteHash: Digest, emptied: FileSystem): (r: Sync)
    ensures r.status.Ok? ==> r.status.value == Updated
    ensures r.status == Ok(Updated) ==>
              && t.path in r.fs && r.fs == emptied[t.path := r.fs[t.path]]
              && GetFileHash(env.codec, env.digest, r.fs[t.path]) == Ok(remoteHash)
              && r.events == [Wrote(t.path), Verified(kind, t.path)]
    ensures r.fs == emptied || (t.path in r.fs && r.fs == emptied[t.path := r.fs[t.path]])
    ensures r.events == [] || r.events == [Wrote(t.path)] || r.events == [Wrote(t.path), Verified(kind, t.path)]
  {
    match env.codec.decodeCfg(data)
    case None => Sync(Err(UndecodableRemote), emptied, [])
    case Some(text) =>
      var written := emptied[t.path := env.codec.encodeUtf8(text)];
      match GetFileHash(env.codec, env.digest, written[t.path])
      case Err(f) => Sync(Err(f), written, [Wrote(t.path)])
      case Ok(h) =>
        if h != remoteHash then Sync(Err(IntegrityMismatch(t.path)), written, [Wrote(t.path)])
        else Sync(Ok(Updated), written, [Wrote(t.path), Verified(kind, t.path)])
  }

  /** The `key == "source_url"` branch for the current target `cursor`:
      fetch, compare hashes, and rewrite and re-verify on a difference.
      What it guarantees is stated by the `Sync…` lemmas below. */
  function SyncOutcome(env: Env, kind: Kind, cursor: Option<Target>, url: string, fs: FileSystem): Sync
  {
    match GetUrlContents(url, env.fetch(url))
    case Failed(f) => Sync(Err(f), fs, [])
    case Unavailable =>
      if cursor.None? then Sync(Err(UnboundEntryName), fs, [])
      else Sync(Ok(Skipped), fs, [SkippedFetch(cursor.value.name)])
    case Got(data) =>
      match GetDataHash(env.digest, data)
      case Err(f) => Sync(Err(f), fs, [])
      case Ok(remoteHash) =>
        if cursor.None? then Sync(Err(UnboundEntryName), fs, [])
        else
          var t := cursor.value;
          if t.existed && t.path !in fs then Sync(Err(MissingLocalFile(t.path)), fs, [])
          else
            var emptied := if t.existed then fs else fs[t.path := []];
            var local := LocalHash(env, t, fs);
            if local.Err? then Sync(Err(local.fault), emptied, [])
            else if t.existed && local.value == remoteHash then Sync(Ok(Unchanged), emptied, [])
            else Rewrite(env, kind, t, data, remoteHash, emptied)
  }

  /** A transient failure of the source: nothing written, the walk goes on. */
  lemma SyncSkipped(env: Env, kind: Kind, cursor: Option<Target>, url: string, fs: FileSystem)
    ensures var r := SyncOutcome(env, kind, cursor, url, fs);
            r.status == Ok(Skipped) <==> GetUrlContents(url, env.fetch(url)) == Unavailable && cursor.Some?
    ensures var r := SyncOutcome(env, kind, cursor, url, fs);
            r.status == Ok(Skipped) ==> r.fs == fs && r.events == [SkippedFetch(cursor.value.name)]
  {
  }

  /** A matching hash on an existing file, and only that, means no write at all. */
  lemma SyncUnchanged(env: Env, kind: Kind, cursor: Option<Target>, url: string, fs: FileSystem)
    ensures var r := SyncOutcome(env, kind, cursor, url, fs);
            r.status == Ok(Unchanged) <==>
              && GetUrlContents(url, env.fetch(url)).Got?
              && cursor.Some? && cursor.value.existed && cursor.value.path in fs
              && GetDataHash(env.digest, GetUrlContents(url, env.fetch(url)).data).Ok?
              && GetFileHash(env.codec, env.digest, fs[cursor.value.path]) ==
                 GetDataHash(env.digest, GetUrlContents(url, env.fetch(url)).data)
    ensures var r := SyncOutcome(env, kind, cursor, url, fs);
            r.status == Ok(Unchanged) ==> r.fs == fs && r.events == []
  {
  }

  /** An update is counted only once the re-read file hashes like the remote
      content; the file then holds the remote text encoded as UTF-8. */
  lemma SyncUpdated(env: Env, kind: Kind, cursor: Option<Target>, url: string, fs: FileSystem)
    ensures var r := SyncOutcome(env, kind, cursor, url, fs);
            r.status == Ok(Updated) ==>
              && GetUrlContents(url, env.fetch(url)).Got?
              && cursor.Some? && cursor.value.path in r.fs
              && r.fs == fs[cursor.value.path := r.fs[cursor.value.path]]
              && GetFileHash(env.codec, env.digest, r.fs[cursor.value.path]) ==
                 GetDataHash(env.digest, GetUrlContents(url, env.fetch(url)).data)
              && r.events == [Wrote(cursor.value.path), Verified(kind, cursor.value.path)]
    ensures var r := SyncOutcome(env, kind, cursor, url, fs);
            r.status == Ok(Updated) ==>
              var text := env.codec.decodeCfg(GetUrlContents(url, env.fetch(url)).data);
              text.Some? && r.fs[cursor.value.path] == env.codec.encodeUtf8(text.value)
  {
  }

  /** Only the target file is ever touched. */
  lemma SyncFrame(env: Env, kind: Kind, cursor: Option<Target>, url: string, fs: FileSystem)
    ensures var r := SyncOutcome(env, kind, cursor, url, fs);
            r.fs == fs || (cursor.Some? && cursor.value.path in r.fs &&
                           r.fs == fs[cursor.value.path := r.fs[cursor.value.path]])
  {
  }

  /** The log grows by one of four shapes, and by two events exactly on an update. */
  lemma SyncEvents(env: Env, kind: Kind, cursor: Option<Target>, url: string, fs: FileSystem)
    ensures var r := SyncOutcome(env, kind, cursor, url, fs);
            r.events == [] || (cursor.Some? && r.events == [SkippedFetch(cursor.value.name)]) ||
            (cursor.Some? && r.events == [Wrote(cursor.value.path)]) ||
            (cursor.Some? && r.events == [Wrote(cursor.value.path), Verified(kind, cursor.value.path)])
    ensures var r := SyncOutcome(env, kind, cursor, url, fs);
            |r.events| == 2 <==> r.status == Ok(Updated)
  {
  }

  /** Digest and codecs behave on this remote content: it decodes to `text`,
      its digest is non-empty, and `text` survives the UTF-8 round trip. */
  predicate Behaves(env: Env, content: Bytes, text: Text)
  {
    && env.codec.decodeCfg(content) == Some(text)
    && env.digest(content) != []
    && env.codec.decodeUtf8(env.codec.encodeUtf8(text)) == Some(text)
    && env.codec.encodeCfg(text) == content
  }

  /** A fetched source that differs from the local file, or has none, with
      digest and codecs behaving on this content: the file is rewritten with
      the remote text, verified, and nothing else changes. */
  lemma SyncRewrites(env: Env, kind: Kind, t: Target, url: string, fs: FileSystem, content: Bytes, text: Text)
    requires IsHttps(url) && env.fetch(url) == Body(content) && Behaves(env, content, text)
    requires t.existed ==>
               && t.path in fs && GetFileHash(env.codec, env.digest, fs[t.path]).Ok?
               && GetFileHash(env.codec, env.digest, fs[t.path]).value != env.digest(content)
    ensures SyncOutcome(env, kind, Some(t), url, fs) ==
            Sync(Ok(Updated), fs[t.path := env.codec.encodeUtf8(text)], [Wrote(t.path), Verified(kind, t.path)])
  {
    assert GetUrlContents(url, env.fetch(url)) == Got(content);
    assert GetDataHash(env.digest, content) == Ok(env.digest(content));
    var emptied := if t.existed then fs else fs[t.path := []];
    var written := emptied[t.path := env.codec.encodeUtf8(text)];
    assert written == fs[t.path := env.codec.encodeUtf8(text)];
    assert GetFileHash(env.codec, env.digest, written[t.path]) == Ok(env.digest(content));
    assert Rewrite(env, kind, t, content, env.digest(content), emptied) ==
           Sync(Ok(Updated), written, [Wrote(t.path), Verified(kind, t.path)]);
  }

  /** Running the sync rule again with the same remote content finds the
      file it just wrote up to date and writes nothing. */
  lemma SyncIsIdempotent(env: Env, kind: Kind, t: Target, url: string, fs: FileSystem)
    requires SyncOutcome(env, kind, Some(t), url, fs).status == Ok(Updated)
    ensures var fs1 := SyncOutcome(env, kind, Some(t), url, fs).fs;
            SyncOutcome(env, kind, Some(t.(existed := true)), url, fs1) == Sync(Ok(Unchanged), fs1, [])
  {
    SyncUpdated(env, kind, Some(t), url, fs);
  }

  /** With sound codecs and digests the integrity check cannot fail: a
      decodable source is either found unchanged or rewritten and verified. */
  lemma {:induction false} SyncSucceedsWhenSound(env: Env, kind: Kind, t: Target, url: string, fs: FileSystem)
    requires Sound(env)
    requires GetUrlContents(url, env.fetch(url)).Got?
    requires env.codec.decodeCfg(GetUrlContents(url, env.fetch(url)).data).Some?
    requires t.existed ==> t.path in fs
    ensures SyncOutcome(env, kind, Some(t), url, fs).status in {Ok(Unchanged), Ok(Updated)}
  {
    var data := GetUrlContents(url, env.fetch(url)).data;
    var text := env.codec.decodeCfg(data).value;
    assert env.digest(data) != [];
    assert env.digest(env.codec.encodeCfg(text)) != [];
    RewrittenFileHashesLikeRemote(env.codec, env.digest, data, text);
    if t.existed && env.codec.decodeUtf8(fs[t.path]).Some? {
      assert env.digest(env.codec.encodeCfg(env.codec.decodeUtf8(fs[t.path]).value)) != [];
    }
  }

  /** A local file that does not decode as UTF-8 hashes to `""` and is
      therefore always rewritten (and, with sound codecs, verified). */
  lemma {:induction false} UndecodableLocalIsRewritten(env: Env, kind: Kind, t: Target, url: string, fs: FileSystem)
    requires Sound(env)
    requires GetUrlContents(url, env.fetch(url)).Got?
    requires env.codec.decodeCfg(GetUrlContents(url, env.fetch(url)).data).Some?
    requires t.existed && t.path in fs && env.codec.decodeUtf8(fs[t.path]).None?
    ensures SyncOutcome(env, kind, Some(t), url, fs).status == Ok(Updated)
  {
    SyncSucceedsWhenSound(env, kind, t, url, fs);
    var data := GetUrlContents(url, env.fetch(url)).data;
    assert env.digest(data) != [];
    UndecodableNeverMatches(env.codec, env.digest, fs[t.path], data);
  }

  // ---------------------------------------------------------------------
  // Compile and install a rewritten plugin

  datatype Build = Build(fault: Option<Fault>, fs: FileSystem, events: seq<Event>)

  /** `shutil.move` of an existing file. */
  function Move(fs: FileSystem, src: Path, dst: Path): (r: FileSystem)
    requires src in fs
    ensures dst in r && r[dst] == fs[src]
    ensures src != dst ==> src !in r
    ensures forall p | p in fs && p != src && p != dst :: p in r && r[p] == fs[p]
    ensures forall p | p in r :: p in fs || p == dst
  {
    if src == dst then fs else fs[dst := fs[src]] - {src}
  }

  /** Runs the compiler on the verified source of `t`, then moves
      `./<name>.smx` into the plugins directory; `BuildFacts` states what
      this guarantees. */
  function BuildOutcome(env: Env, layout: Layout, t: Target, fs: FileSystem): Build
    requires t.path in fs
  {
    var compiler := Join(layout.compilerDir, CompilerBinary(env.isWindows));
    if compiler !in fs then Build(Some(CompilerMissing(compiler)), fs, [])
    else
      var run := env.compile(t.path, fs[t.path]);
      var artifact := ArtifactPath(t.name);
      var afterRun := if run.artifact.Some? then fs[artifact := run.artifact.value] else fs;
      if run.exitCode != 0 then Build(Some(CompilerFailed(run.exitCode)), afterRun, [CompilerRan(t.name, t.path, run.exitCode)])
      else if artifact !in afterRun then Build(Some(ArtifactMissing(artifact)), afterRun, [CompilerRan(t.name, t.path, 0)])
      else
        var dest := InstallPath(layout, t.name);
        Build(None, Move(afterRun, artifact, dest), [CompilerRan(t.name, t.path, 0), Installed(t.name, dest)])
  }

  /** A missing compiler raises before anything runs; a non-zero exit or a
      missing `./<name>.smx` raises before anything is installed; a clean
      compile that left the `.smx` installs exactly those bytes. */
  lemma BuildFacts(env: Env, layout: Layout, t: Target, fs: FileSystem)
    requires t.path in fs
    ensures var r := BuildOutcome(env, layout, t, fs);
            var compiler := Join(layout.compilerDir, CompilerBinary(env.isWindows));
            compiler !in fs ==> r == Build(Some(CompilerMissing(compiler)), fs, [])
    ensures var r := BuildOutcome(env, layout, t, fs);
            var run := env.compile(t.path, fs[t.path]);
            Join(layout.compilerDir, CompilerBinary(env.isWindows)) in fs && run.exitCode != 0 ==>
              r.fault == Some(CompilerFailed(run.exitCode)) && r.events == [CompilerRan(t.name, t.path, run.exitCode)]
    ensures var r := BuildOutcome(env, layout, t, fs);
            var run := env.compile(t.path, fs[t.path]);
            Join(layout.compilerDir, CompilerBinary(env.isWindows)) in fs && run.exitCode == 0 &&
            run.artifact.None? && ArtifactPath(t.name) !in fs ==>
              r == Build(Some(ArtifactMissing(ArtifactPath(t.name))), fs, [CompilerRan(t.name, t.path, 0)])
    ensures var r := BuildOutcome(env, layout, t, fs);
            r.events == [] ||
            r.events == [CompilerRan(t.name, t.path, env.compile(t.path, fs[t.path]).exitCode)] ||
            r.events == [CompilerRan(t.name, t.path, 0), Installed(t.name, InstallPath(layout, t.name))]
    ensures var r := BuildOutcome(env, layout, t, fs);
            var run := env.compile(t.path, fs[t.path]);
            r.fault.None? <==>
              Join(layout.compilerDir, CompilerBinary(env.isWindows)) in fs && run.exitCode == 0 &&
              (run.artifact.Some? || ArtifactPath(t.name) in fs)
    ensures var r := BuildOutcome(env, layout, t, fs);
            var run := env.compile(t.path, fs[t.path]);
            r.fault.None? <==>
              r.events == [CompilerRan(t.name, t.path, 0), Installed(t.name, InstallPath(layout, t.name))]
    ensures var r := BuildOutcome(env, layout, t, fs);
            var run := env.compile(t.path, fs[t.path]);
            r.fault.None? ==>
              && InstallPath(layout, t.name) in r.fs
              && r.fs[InstallPath(layout, t.name)] ==
                 (if run.artifact.Some? then run.artifact.value else fs[ArtifactPath(t.name)])
    ensures var r := BuildOutcome(env, layout, t, fs);
            r.fault.None? && t.path != ArtifactPath(t.name) && t.path != InstallPath(layout, t.name) ==>
              t.path in r.fs && r.fs[t.path] == fs[t.path]
  {
  }

  /** Building touches only `./<name>.smx` and `<plugins>/<name>.smx`; when it
      raises, only the compiler's own output may have appeared. */
  lemma BuildFrame(env: Env, layout: Layout, t: Target, fs: FileSystem)
    requires t.path in fs
    ensures var r := BuildOutcome(env, layout, t, fs);
            forall p | p in fs && p != ArtifactPath(t.name) && p != InstallPath(layout, t.name) ::
              p in r.fs && r.fs[p] == fs[p]
    ensures var r := BuildOutcome(env, layout, t, fs);
            forall p | p in r.fs :: p in fs || p == ArtifactPath(t.name) || p == InstallPath(layout, t.name)
    ensures var r := BuildOutcome(env, layout, t, fs);
            r.fault.Some? ==> forall p | p in fs && p != ArtifactPath(t.name) :: p in r.fs && r.fs[p] == fs[p]
  {
  }

  // ---------------------------------------------------------------------
  // The walk

  /** The state of the walk; `fault` is the exception that ended it, if any. */
  datatype Pass = Pass(fs: FileSystem, log: seq<Event>, locals: Locals, fault: Option<Fault>)

  function Bump(c: Counters, kind: Kind, updated: bool): Counters
  {
    match (kind, updated)
    case (Include, false) => c.(incProcessed := c.incProcessed + 1)
    case (Include, true) => c.(incUpdated := c.incUpdated + 1)
    case (Plugin, false) => c.(plugProcessed := c.plugProcessed + 1)
    case (Plugin, true) => c.(plugUpdated := c.plugUpdated + 1)
  }

  function Cursor(l: Locals, kind: Kind): Option<Target>
  {
    if kind == Include then l.incTarget else l.plugTarget
  }

  /** The `key == "name"` branch: select the target and count the entry. */
  function NameStep(layout: Layout, kind: Kind, p: Pass, name: string): Pass
  {
    var path := SourcePath(layout, kind, name);
    var t := Target(name, path, path in p.fs);
    var l := p.locals.(counters := Bump(p.locals.counters, kind, false));
    p.(locals := if kind == Include then l.(incTarget := Some(t)) else l.(plugTarget := Some(t)))
  }

  /** The walk once the build of a rewritten plugin has ended as `b`. */
  function AfterBuild(p: Pass, b: Build): Pass
  {
    var p2 := p.(fs := b.fs, log := p.log + b.events);
    if b.fault.Some? then p2.(fault := b.fault)
    else p2.(locals := p2.locals.(counters := Bump(p2.locals.counters, Plugin, true)))
  }

  /** The walk once the sync rule has ended as `s`: a raise halts it, an
      updated include is counted, an updated plugin is built and installed. */
  function AfterSync(env: Env, layout: Layout, kind: Kind, cursor: Option<Target>, p: Pass, s: Sync): Pass
    requires s.status == Ok(Updated) ==> cursor.Some? && cursor.value.path in s.fs
  {
    var p1 := p.(fs := s.fs, log := p.log + s.events);
    match s.status
    case Err(f) => p1.(fault := Some(f))
    case Ok(Updated) =>
      if kind == Include then p1.(locals := p1.locals.(counters := Bump(p1.locals.counters, Include, true)))
      else AfterBuild(p1, BuildOutcome(env, layout, cursor.value, s.fs))
    case Ok(_) => p1
  }

  /** The `key == "source_url"` branch: sync, and for a rewritten plugin build and install. */
  function SourceStep(env: Env, layout: Layout, kind: Kind, p: Pass, url: string): Pass
  {
    var cursor := Cursor(p.locals, kind);
    SyncUpdated(env, kind, cursor, url, p.fs);
    AfterSync(env, layout, kind, cursor, p, SyncOutcome(env, kind, cursor, url, p.fs))
  }

  /** One key/value pair of an entry; other keys are only logged. */
  function KeyStep(env: Env, layout: Layout, kind: Kind, p: Pass, kv: (string, string)): (q: Pass)
    ensures p.fault.Some? ==> q == p
    ensures kv.0 != "name" && kv.0 != "source_url" ==> q == p
  {
    if p.fault.Some? then p
    else if kv.0 == "name" then NameStep(layout, kind, p, kv.1)
    else if kv.0 == "source_url" then SourceStep(env, layout, kind, p, kv.1)
    else p
  }

  /** The key/value pairs of one entry, in order. */
  function EntryFold(env: Env, layout: Layout, kind: Kind, p: Pass, kvs: Entry): Pass
    decreases |kvs|
  {
    if kvs == [] then p
    else KeyStep(env, layout, kind, EntryFold(env, layout, kind, p, kvs[..|kvs| - 1]), kvs[|kvs| - 1])
  }

  /** The entries of one section, in order; a `null` entry is skipped. */
  function SectionFold(env: Env, layout: Layout, kind: Kind, p: Pass, items: seq<Option<Entry>>): Pass
    decreases |items|
  {
    if items == [] then p
    else
      var q := SectionFold(env, layout, kind, p, items[..|items| - 1]);
      match items[|items| - 1]
      case None => q
      case Some(e) => EntryFold(env, layout, kind, q, e)
  }

  const RootSections: seq<string> := ["includes", "plugins", "updater"]

  /** `json_data.get(section)`. */
  function Lookup(json: Json, section: string): SectionValue
  {
    if section in json then json[section] else None
  }

  /** One top-level section: absent is skipped, `updater` only warns. */
  function RootStep(env: Env, layout: Layout, json: Json, p: Pass, section: string): Pass
  {
    if p.fault.Some? then p
    else match Lookup(json, section)
      case None => p
      case Some(items) =>
        if section == "updater" then p.(log := p.log + [Deprecated(section)])
        else SectionFold(env, layout, if section == "includes" then Include else Plugin, p, items)
  }

  function RootFold(env: Env, layout: Layout, json: Json, p: Pass, sections: seq<string>): Pass
    decreases |sections|
  {
    if sections == [] then p
    else RootStep(env, layout, json, RootFold(env, layout, json, p, sections[..|sections| - 1]), sections[|sections| - 1])
  }

  /** How one recipe ended: not fetched (5xx), walked to the end, or ended by an exception. */
  datatype RunOutcome = RecipeUnavailable | Finished(counters: Counters) | Aborted(fault: Fault, counters: Counters)

  datatype Run = Run(outcome: RunOutcome, fs: FileSystem, log: seq<Event>)

  function Start(fs: FileSystem): Pass
  {
    Pass(fs, [], FreshLocals, None)
  }

  /** `check_for_updates(recipe)`. */
  function RecipePass(env: Env, layout: Layout, fs: FileSystem, url: string): (r: Run)
    ensures r.outcome == RecipeUnavailable <==> GetUrlContents(url, env.fetch(url)) == Unavailable
    ensures r.outcome == RecipeUnavailable ==> r.fs == fs && r.log == []
  {
    match GetUrlContents(url, env.fetch(url))
    case Failed(f) => Run(Aborted(f, NoCounters), fs, [])
    case Unavailable => Run(RecipeUnavailable, fs, [])
    case Got(data) =>
      match env.codec.decodeCfg(data)
      case None => Run(Aborted(UndecodableRemote, NoCounters), fs, [])
      case Some(text) =>
        match env.parse(text)
        case None => Run(Aborted(MalformedRecipe, NoCounters), fs, [])
        case Some(json) =>
          var p := RootFold(env, layout, json, Start(fs), RootSections);
          Run(if p.fault.Some? then Aborted(p.fault.value, p.locals.counters) else Finished(p.locals.counters),
              p.fs, p.log)
  }
}
