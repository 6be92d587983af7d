/** The updater as the script runs it: an object owning the server's file
    system and the log, whose methods perform `check_for_updates` and the
    file side of `self_update` step by step. Each method is proved to end in
    exactly the state the functions of `RecipeSpec` and `SelfUpdate` describe. */
module RecipeRun {
  import opened Base
  import opened Fetch
  import opened Hashing
  import opened SelfUpdate
  import opened RecipeSpec
  import opened RecipeProps

  /** Outcome of `self_update`. */
  datatype UpdateResult =
    | NoUpdate                             // returned without acting
    | UpdateFailed(fault: Fault)           // an exception escaped
    | RestartRequested(argv: seq<string>)  // own source replaced; re-run with the same arguments

  /** The path of `requirements.txt` beside the program. */
  function RequirementsPath(layout: Layout): Path
  {
    Join(layout.selfDir, RequirementsFile)
  }

  /** The file effects of the download phase of `self_update`: each file is
      opened with "wb+" (emptied) before its archive member is read, so a
      failure after the open leaves that file empty. */
  function ApplyRelease(env: Env, layout: Layout, plan: Plan, argv: seq<string>, fs: FileSystem): (r: (UpdateResult, FileSystem))
    ensures plan.Stay? ==> r == (NoUpdate, fs)
    ensures plan.Abort? ==> r == (UpdateFailed(plan.fault), fs)
    ensures plan.Download? && env.download(plan.zipUrl).None? ==> r == (UpdateFailed(ArchiveUnavailable), fs)
    ensures r.0.RestartRequested? <==>
              && plan.Download? && env.download(plan.zipUrl).Some?
              && plan.requirementsMember in env.download(plan.zipUrl).value
              && plan.programMember in env.download(plan.zipUrl).value
              && env.pipenvInstall(env.download(plan.zipUrl).value[plan.requirementsMember])
    ensures r.0.RestartRequested? ==>
              && plan.Download? && r.0.argv == argv
              && var archive := env.download(plan.zipUrl).value;
                 r.1 == fs[RequirementsPath(layout) := archive[plan.requirementsMember]]
                          [layout.selfPath := archive[plan.programMember]]
    ensures plan.Download? && env.download(plan.zipUrl).Some? ==>
              var archive := env.download(plan.zipUrl).value;
              && (plan.requirementsMember !in archive ==>
                    r == (UpdateFailed(MissingArchiveMember(plan.requirementsMember)), fs[RequirementsPath(layout) := []]))
              && (plan.requirementsMember in archive && !env.pipenvInstall(archive[plan.requirementsMember]) ==>
                    r == (UpdateFailed(DependencyInstallFailed),
                          fs[RequirementsPath(layout) := archive[plan.requirementsMember]]))
              && (plan.requirementsMember in archive && env.pipenvInstall(archive[plan.requirementsMember]) &&
                  plan.programMember !in archive ==>
                    r == (UpdateFailed(MissingArchiveMember(plan.programMember)),
                          fs[RequirementsPath(layout) := archive[plan.requirementsMember]][layout.selfPath := []]))
    ensures forall p | p in fs && p != RequirementsPath(layout) && p != layout.selfPath :: p in r.1 && r.1[p] == fs[p]
    ensures forall p | p in r.1 :: p in fs || p == RequirementsPath(layout) || p == layout.selfPath
  {
    match plan
    case Stay => (NoUpdate, fs)
    case Abort(f) => (UpdateFailed(f), fs)
    case Download(zipUrl, reqsMember, progMember) =>
      match env.download(zipUrl)
      case None => (UpdateFailed(ArchiveUnavailable), fs)
      case Some(archive) =>
        var reqs := RequirementsPath(layout);
        if reqsMember !in archive then (UpdateFailed(MissingArchiveMember(reqsMember)), fs[reqs := []])
        else
          var fs1 := fs[reqs := archive[reqsMember]];
          if !env.pipenvInstall(archive[reqsMember]) then (UpdateFailed(DependencyInstallFailed), fs1)
          else if progMember !in archive then (UpdateFailed(MissingArchiveMember(progMember)), fs1[layout.selfPath := []])
          else (RestartRequested(argv), fs1[layout.selfPath := archive[progMember]])
  }

  /** The release is not newer than the running version: no file changes and no restart. */
  lemma NoRestartWithoutNewerRelease(env: Env, layout: Layout, running: Version, q: ReleaseQuery, argv: seq<string>, fs: FileSystem)
    requires !VersionLess(running, q.tag)
    ensures ApplyRelease(env, layout, PlanSelfUpdate(running, q), argv, fs).1 == fs
    ensures !ApplyRelease(env, layout, PlanSelfUpdate(running, q), argv, fs).0.RestartRequested?
  {
  }

  /** A newer release whose API requests pass, whose archive holds both
      members and whose requirements install: both files are replaced and
      the program restarts with its own arguments. */
  lemma NewerReleaseRestarts(env: Env, layout: Layout, running: Version, q: ReleaseQuery, argv: seq<string>, fs: FileSystem)
    requires VerifyGhApiReq(q.latest) == Ok(true) && VerifyGhApiReq(q.ref) == Ok(true)
    requires VersionLess(running, q.tag)
    requires env.download(q.zipballUrl).Some?
    requires var archive := env.download(q.zipballUrl).value;
             && MemberName(q.commitSha, RequirementsFile) in archive
             && MemberName(q.commitSha, ProgramFile) in archive
             && env.pipenvInstall(archive[MemberName(q.commitSha, RequirementsFile)])
    ensures var archive := env.download(q.zipballUrl).value;
            ApplyRelease(env, layout, PlanSelfUpdate(running, q), argv, fs) ==
              (RestartRequested(argv),
               fs[RequirementsPath(layout) := archive[MemberName(q.commitSha, RequirementsFile)]]
                 [layout.selfPath := archive[MemberName(q.commitSha, ProgramFile)]])
  {
  }

  class Soup {
    const env: Env
    const layout: Layout
    /** The server's files, by path. */
    var fs: FileSystem
    /** Warnings and actions, in the order they happened. */
    var log: seq<Event>

    constructor (env: Env, layout: Layout, fs: FileSystem)
      ensures this.env == env && this.layout == layout && this.fs == fs && this.log == []
    {
      this.env := env;
      this.layout := layout;
      this.fs := fs;
      this.log := [];
    }

    /** The `source_url` branch: fetch, compare, and on a difference rewrite
        from offset 0, truncate, re-read and check the hash. */
    method SyncSource(kind: Kind, cursor: Option<Target>, url: string) returns (status: Outcome<SyncStatus>)
      modifies this
      ensures var s := SyncOutcome(env, kind, cursor, url, old(fs));
              status == s.status && fs == s.fs && log == old(log) + s.events
    {
      var fetched := GetUrlContents(url, env.fetch(url));
      if fetched.Failed? {
        return Err(fetched.fault);
      }
      if fetched.Unavailable? {
        if cursor.None? {
          return Err(UnboundEntryName);
        }
        log := log + [SkippedFetch(cursor.value.name)];
        return Ok(Skipped);
      }
      var data := fetched.data;
      var remoteHash := GetDataHash(env.digest, data);
      if remoteHash.Err? {
        return Err(remoteHash.fault);
      }
      if cursor.None? {
        return Err(UnboundEntryName);
      }
      var t := cursor.value;
      if t.existed && t.path !in fs {
        return Err(MissingLocalFile(t.path));
      }
      var hashesMatch := false;
      if t.existed {
        var localHash := GetFileHash(env.codec, env.digest, fs[t.path]);
        if localHash.Err? {
          return Err(localHash.fault);
        }
        hashesMatch := localHash.value == remoteHash.value;
      } else {
        fs := fs[t.path := []];  // open(..., "w") creates or empties the file
      }
      if hashesMatch {
        return Ok(Unchanged);
      }
      var text := env.codec.decodeCfg(data);
      if text.None? {
        return Err(UndecodableRemote);
      }
      fs := fs[t.path := env.codec.encodeUtf8(text.value)];
      log := log + [Wrote(t.path)];
      var newHash := GetFileHash(env.codec, env.digest, fs[t.path]);
      if newHash.Err? {
        return Err(newHash.fault);
      }
      if newHash.value != remoteHash.value {
        return Err(IntegrityMismatch(t.path));
      }
      log := log + [Verified(kind, t.path)];
      return Ok(Updated);
    }

    /** Compile the verified plugin source and move `./<name>.smx` into the plugins directory. */
    method CompileAndInstall(t: Target) returns (fault: Option<Fault>)
      requires t.path in fs
      modifies this
      ensures var b := BuildOutcome(env, layout, t, old(fs));
              fault == b.fault && fs == b.fs && log == old(log) + b.events
    {
      var compiler := Join(layout.compilerDir, CompilerBinary(env.isWindows));
      if compiler !in fs {
        return Some(CompilerMissing(compiler));
      }
      var run := env.compile(t.path, fs[t.path]);
      var artifact := ArtifactPath(t.name);
      if run.artifact.Some? {
        fs := fs[artifact := run.artifact.value];
      }
      log := log + [CompilerRan(t.name, t.path, run.exitCode)];
      if run.exitCode != 0 {
        return Some(CompilerFailed(run.exitCode));
      }
      if artifact !in fs {
        return Some(ArtifactMissing(artifact));
      }
      var dest := InstallPath(layout, t.name);
      fs := Move(fs, artifact, dest);
      log := log + [Installed(t.name, dest)];
      assert log == old(log) + [CompilerRan(t.name, t.path, 0), Installed(t.name, dest)];
      return None;
    }

    /** A `source_url` key: sync the current target, count an updated
        include, build and install an updated plugin. */
    method SourceKey(kind: Kind, url: string, l0: Locals) returns (l: Locals, fault: Option<Fault>)
      modifies this
      ensures Pass(fs, log, l, fault) == SourceStep(env, layout, kind, Pass(old(fs), old(log), l0, None), url)
    {
      ghost var p := Pass(fs, log, l0, None);
      var cursor := Cursor(l0, kind);
      ghost var s := SyncOutcome(env, kind, cursor, url, fs);
      SyncUpdated(env, kind, cursor, url, fs);
      l, fault := l0, None;
      var status := SyncSource(kind, cursor, url);
      if status.Err? {
        fault := Some(status.fault);
      } else if status.value == Updated {
        if kind == Include {
          l := l.(counters := Bump(l.counters, Include, true));
        } else {
          ghost var p1 := Pass(fs, log, l, None);
          fault := CompileAndInstall(cursor.value);
          if fault.None? {
            l := l.(counters := Bump(l.counters, Plugin, true));
          }
          assert Pass(fs, log, l, fault) == AfterBuild(p1, BuildOutcome(env, layout, cursor.value, s.fs));
        }
      }
      assert Pass(fs, log, l, fault) == AfterSync(env, layout, kind, cursor, p, s);
    }

    /** The key/value pairs of one entry, in order; an exception ends the entry. */
    method ProcessEntry(kind: Kind, entry: Entry, l0: Locals) returns (l: Locals, fault: Option<Fault>)
      modifies this
      ensures Pass(fs, log, l, fault) == EntryFold(env, layout, kind, Pass(old(fs), old(log), l0, None), entry)
    {
      ghost var start := Pass(fs, log, l0, None);
      l, fault := l0, None;
      var i := 0;
      while i < |entry|
        invariant 0 <= i <= |entry|
        invariant Pass(fs, log, l, None) == EntryFold(env, layout, kind, start, entry[..i])
        invariant fault.None?
      {
        var (key, value) := entry[i];
        ghost var before := Pass(fs, log, l, None);
        assert entry[..i + 1][..i] == entry[..i];
        if key == "name" {
          var path := SourcePath(layout, kind, value);
          var t := Target(value, path, path in fs);
          var c := Bump(l.counters, kind, false);
          if kind == Include {
            l := l.(counters := c, incTarget := Some(t));
          } else {
            l := l.(counters := c, plugTarget := Some(t));
          }
        } else if key == "source_url" {
          l, fault := SourceKey(kind, value, l);
        }
        assert Pass(fs, log, l, fault) == KeyStep(env, layout, kind, before, entry[i]);
        if fault.Some? {
          EntryFoldHalted(env, layout, kind, start, entry, i + 1);
          return;
        }
        i := i + 1;
      }
      assert entry[..i] == entry;
    }

    /** The entries of one section, in order, skipping `null` entries. */
    method ProcessSection(kind: Kind, items: seq<Option<Entry>>, l0: Locals) returns (l: Locals, fault: Option<Fault>)
      modifies this
      ensures Pass(fs, log, l, fault) == SectionFold(env, layout, kind, Pass(old(fs), old(log), l0, None), items)
    {
      ghost var start := Pass(fs, log, l0, None);
      l, fault := l0, None;
      var i := 0;
      while i < |items|
        invariant 0 <= i <= |items|
        invariant Pass(fs, log, l, None) == SectionFold(env, layout, kind, start, items[..i])
        invariant fault.None?
      {
        assert items[..i + 1][..i] == items[..i];
        if items[i].Some? {
          l, fault := ProcessEntry(kind, items[i].value, l);
          if fault.Some? {
            SectionFoldHalted(env, layout, kind, start, items, i + 1);
            return;
          }
        }
        i := i + 1;
      }
      assert items[..i] == items;
    }

    /** `check_for_updates(recipe)`: fetch and decode the recipe, then walk
        `includes`, `plugins` and `updater` in that order. */
    method CheckForUpdates(url: string) returns (outcome: RunOutcome)
      modifies this
      ensures var r := RecipePass(env, layout, old(fs), url);
              outcome == r.outcome && fs == r.fs && log == old(log) + r.log
    {
      var fetched := GetUrlContents(url, env.fetch(url));
      if fetched.Failed? {
        return Aborted(fetched.fault, NoCounters);
      }
      if fetched.Unavailable? {
        return RecipeUnavailable;
      }
      var text := env.codec.decodeCfg(fetched.data);
      if text.None? {
        return Aborted(UndecodableRemote, NoCounters);
      }
      var json := env.parse(text.value);
      if json.None? {
        return Aborted(MalformedRecipe, NoCounters);
      }
      ghost var earlier := log;
      ghost var start := Start(fs);
      var l := FreshLocals;
      var fault: Option<Fault> := None;
      var i := 0;
      assert After(earlier, start) == Pass(fs, log, l, None);
      while i < |RootSections|
        invariant 0 <= i <= |RootSections|
        invariant Pass(fs, log, l, None) == After(earlier, RootFold(env, layout, json.value, start, RootSections[..i]))
      {
        var section := RootSections[i];
        ghost var before := RootFold(env, layout, json.value, start, RootSections[..i]);
        assert RootSections[..i + 1][..i] == RootSections[..i];
        RootStepAfter(env, layout, json.value, earlier, before, section);
        var value := Lookup(json.value, section);
        if value.Some? {
          if section == "updater" {
            log := log + [Deprecated(section)];
          } else {
            var kind := if section == "includes" then Include else Plugin;
            l, fault := ProcessSection(kind, value.value, l);
            if fault.Some? {
              RootFoldHalted(env, layout, json.value, start, RootSections, i + 1);
              return Aborted(fault.value, l.counters);
            }
          }
        }
        i := i + 1;
      }
      assert RootSections[..i] == RootSections;
      return Finished(l.counters);
    }

    /** `self_update`: consult the release API, and when a newer release
        exists replace `requirements.txt` and the program's own source. */
    method SelfUpdate(q: ReleaseQuery, argv: seq<string>) returns (result: UpdateResult)
      modifies this
      ensures var r := ApplyRelease(env, layout, PlanSelfUpdate(ScriptVersion, q), argv, old(fs));
              result == r.0 && fs == r.1 && log == old(log)
    {
      var plan := PlanSelfUpdate(ScriptVersion, q);
      if plan.Stay? {
        return NoUpdate;
      }
      if plan.Abort? {
        return UpdateFailed(plan.fault);
      }
      var archive := env.download(plan.zipUrl);
      if archive.None? {
        return UpdateFailed(ArchiveUnavailable);
      }
      var reqs := RequirementsPath(layout);
      fs := fs[reqs := []];  // open(..., "wb+")
      if plan.requirementsMember !in archive.value {
        return UpdateFailed(MissingArchiveMember(plan.requirementsMember));
      }
      assert fs[reqs := archive.value[plan.requirementsMember]] == old(fs)[reqs := archive.value[plan.requirementsMember]];
      fs := fs[reqs := archive.value[plan.requirementsMember]];
      ghost var fs1 := fs;
      if !env.pipenvInstall(archive.value[plan.requirementsMember]) {
        return UpdateFailed(DependencyInstallFailed);
      }
      fs := fs[layout.selfPath := []];  // open(__file__, "wb+")
      if plan.programMember !in archive.value {
        return UpdateFailed(MissingArchiveMember(plan.programMember));
      }
      assert fs[layout.selfPath := archive.value[plan.programMember]] == fs1[layout.selfPath := archive.value[plan.programMember]];
      fs := fs[layout.selfPath := archive.value[plan.programMember]];
      return RestartRequested(argv);
    }
  }
}
