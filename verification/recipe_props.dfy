/** What the recipe pass guarantees as a whole: the counters equal what the
    log shows, every write is verified before it is counted, every compile
    follows a verification and every install follows a clean compile; a
    raised exception ends the walk; and the end-to-end scenarios. */
module RecipeProps {
  import opened Base
  import opened Fetch
  import opened Hashing
  import opened RecipeSpec

  // ---------------------------------------------------------------------
  // Counting what the log shows

  /** Number of verified include rewrites in the log. */
  function IncludeUpdates(log: seq<Event>): nat
    decreases |log|
  {
    if log == [] then 0
    else IncludeUpdates(log[..|log| - 1]) + (if log[|log| - 1].Verified? && log[|log| - 1].kind == Include then 1 else 0)
  }

  /** Number of plugins installed in the log. */
  function Installs(log: seq<Event>): nat
    decreases |log|
  {
    if log == [] then 0
    else Installs(log[..|log| - 1]) + (if log[|log| - 1].Installed? then 1 else 0)
  }

  lemma {:induction false} CountsAppend(a: seq<Event>, b: seq<Event>)
    ensures IncludeUpdates(a + b) == IncludeUpdates(a) + IncludeUpdates(b)
    ensures Installs(a + b) == Installs(a) + Installs(b)
    decreases |b|
  {
    if b == [] {
      assert a + b == a;
    } else {
      var b' := b[..|b| - 1];
      assert (a + b)[..|a + b| - 1] == a + b';
      CountsAppend(a, b');
    }
  }

  /** The event at `i` has the predecessor the pass guarantees for it. */
  ghost predicate WellPreceded(log: seq<Event>, i: nat)
    requires i < |log|
  {
    match log[i]
    case Verified(_, path) => i > 0 && log[i - 1] == Wrote(path)
    case CompilerRan(_, path, _) => i > 0 && log[i - 1] == Verified(Plugin, path)
    case Installed(name, _) => i > 0 && log[i - 1].CompilerRan? && log[i - 1].name == name && log[i - 1].exitCode == 0
    case _ => true
  }

  /** Verify only after a write, compile only after a verification, install
      only after a clean compile of the same plugin. */
  ghost predicate Ordered(log: seq<Event>)
  {
    forall i | 0 <= i < |log| :: WellPreceded(log, i)
  }

  /** The invariant of the walk: the update counters are the logged updates, in order. */
  ghost predicate Consistent(p: Pass)
  {
    && p.locals.counters.incUpdated == IncludeUpdates(p.log)
    && p.locals.counters.plugUpdated == Installs(p.log)
    && Ordered(p.log)
  }

  lemma AppendOrdered(a: seq<Event>, b: seq<Event>)
    requires Ordered(a)
    requires forall i | |a| <= i < |a + b| :: WellPreceded(a + b, i)
    ensures Ordered(a + b)
  {
    forall i | 0 <= i < |a|
      ensures WellPreceded(a + b, i)
    {
      assert WellPreceded(a, i);
      assert (a + b)[i] == a[i];
      assert i > 0 ==> (a + b)[i - 1] == a[i - 1];
    }
  }

  /** Counts of the event sequences a single step appends. */
  lemma SmallCounts(e: Event, f: Event)
    ensures IncludeUpdates([]) == 0 && Installs([]) == 0
    ensures IncludeUpdates([e]) == (if e.Verified? && e.kind == Include then 1 else 0)
    ensures Installs([e]) == (if e.Installed? then 1 else 0)
    ensures IncludeUpdates([e, f]) == IncludeUpdates([e]) + (if f.Verified? && f.kind == Include then 1 else 0)
    ensures Installs([e, f]) == Installs([e]) + (if f.Installed? then 1 else 0)
  {
    assert [e][..0] == [];
    assert [e, f][..1] == [e];
  }

  /** Appending what the sync rule logs keeps the log ordered; only a
      verified include counts as an include update. */
  lemma AppendSyncEvents(log: seq<Event>, events: seq<Event>, kind: Kind, t: Target)
    requires Ordered(log)
    requires events == [] || events == [SkippedFetch(t.name)] || events == [Wrote(t.path)] ||
             events == [Wrote(t.path), Verified(kind, t.path)]
    ensures Ordered(log + events)
    ensures IncludeUpdates(log + events) ==
              IncludeUpdates(log) + (if |events| == 2 && kind == Include then 1 else 0)
    ensures Installs(log + events) == Installs(log)
    ensures |events| == 2 ==> (log + events)[|log + events| - 1] == Verified(kind, t.path)
  {
    CountsAppend(log, events);
    if events == [] {
      assert log + events == log;
    } else if |events| == 1 {
      SmallCounts(events[0], events[0]);
      assert WellPreceded(log + events, |log|);
      AppendOrdered(log, events);
    } else {
      SmallCounts(events[0], events[1]);
      assert WellPreceded(log + events, |log|);
      assert WellPreceded(log + events, |log| + 1);
      AppendOrdered(log, events);
    }
  }

  /** Appending what compiling and installing logs, right after a verified
      plugin source, keeps the log ordered; an install counts once. */
  lemma AppendBuildEvents(log: seq<Event>, events: seq<Event>, t: Target, exitCode: int, dest: Path)
    requires Ordered(log) && |log| > 0 && log[|log| - 1] == Verified(Plugin, t.path)
    requires events == [] || events == [CompilerRan(t.name, t.path, exitCode)] ||
             events == [CompilerRan(t.name, t.path, 0), Installed(t.name, dest)]
    ensures Ordered(log + events)
    ensures IncludeUpdates(log + events) == IncludeUpdates(log)
    ensures Installs(log + events) == Installs(log) + (if |events| == 2 then 1 else 0)
  {
    CountsAppend(log, events);
    if events == [] {
      assert log + events == log;
    } else if |events| == 1 {
      SmallCounts(events[0], events[0]);
      assert WellPreceded(log + events, |log|);
      AppendOrdered(log, events);
    } else {
      SmallCounts(events[0], events[1]);
      assert WellPreceded(log + events, |log|);
      assert WellPreceded(log + events, |log| + 1);
      AppendOrdered(log, events);
    }
  }

  /** A build whose log has one of the shapes `BuildFacts` allows, right
      after a verified plugin source, keeps the log ordered, and counts the
      plugin exactly when it is installed. */
  lemma AfterBuildConsistent(p: Pass, b: Build, t: Target, exitCode: int, dest: Path)
    requires Ordered(p.log) && |p.log| > 0 && p.log[|p.log| - 1] == Verified(Plugin, t.path)
    requires p.locals.counters.incUpdated == IncludeUpdates(p.log)
    requires p.locals.counters.plugUpdated == Installs(p.log)
    requires b.events == [] || b.events == [CompilerRan(t.name, t.path, exitCode)] ||
             b.events == [CompilerRan(t.name, t.path, 0), Installed(t.name, dest)]
    requires b.fault.None? <==> b.events == [CompilerRan(t.name, t.path, 0), Installed(t.name, dest)]
    ensures Consistent(AfterBuild(p, b))
  {
    AppendBuildEvents(p.log, b.events, t, exitCode, dest);
  }

  /** Whatever follows a sync whose log has one of the shapes the sync rule
      produces keeps the log ordered and counted. */
  lemma {:induction false} AfterSyncConsistent(env: Env, layout: Layout, kind: Kind, cursor: Option<Target>, p: Pass, s: Sync)
    requires Consistent(p) && p.fault.None?
    requires s.status == Ok(Updated) ==>
               && cursor.Some? && cursor.value.path in s.fs
               && s.events == [Wrote(cursor.value.path), Verified(kind, cursor.value.path)]
    requires s.events == [] ||
             (cursor.Some? && (|| s.events == [SkippedFetch(cursor.value.name)]
                               || s.events == [Wrote(cursor.value.path)]
                               || s.events == [Wrote(cursor.value.path), Verified(kind, cursor.value.path)]))
    requires |s.events| == 2 ==> s.status == Ok(Updated)
    ensures Consistent(AfterSync(env, layout, kind, cursor, p, s))
  {
    var p1 := p.(fs := s.fs, log := p.log + s.events);
    if s.events == [] {
      assert p1.log == p.log;
    } else {
      AppendSyncEvents(p.log, s.events, kind, cursor.value);
    }
    if s.status == Ok(Updated) {
      if kind == Plugin {
        var t := cursor.value;
        BuildFacts(env, layout, t, s.fs);
        AfterBuildConsistent(p1, BuildOutcome(env, layout, t, s.fs), t,
                             env.compile(t.path, s.fs[t.path]).exitCode, InstallPath(layout, t.name));
      }
    } else {
      assert Consistent(p1);
    }
  }

  /** The events of one `source_url` key keep the log ordered and counted. */
  lemma SourceStepConsistent(env: Env, layout: Layout, kind: Kind, p: Pass, url: string)
    requires Consistent(p) && p.fault.None?
    ensures Consistent(SourceStep(env, layout, kind, p, url))
  {
    var cursor := Cursor(p.locals, kind);
    SyncUpdated(env, kind, cursor, url, p.fs);
    SyncEvents(env, kind, cursor, url, p.fs);
    AfterSyncConsistent(env, layout, kind, cursor, p, SyncOutcome(env, kind, cursor, url, p.fs));
  }

  lemma KeyStepConsistent(env: Env, layout: Layout, kind: Kind, p: Pass, kv: (string, string))
    requires Consistent(p)
    ensures Consistent(KeyStep(env, layout, kind, p, kv))
  {
    if p.fault.None? && kv.0 == "source_url" {
      SourceStepConsistent(env, layout, kind, p, kv.1);
    }
  }

  lemma {:induction false} EntryFoldConsistent(env: Env, layout: Layout, kind: Kind, p: Pass, kvs: Entry)
    requires Consistent(p)
    ensures Consistent(EntryFold(env, layout, kind, p, kvs))
    decreases |kvs|
  {
    if kvs != [] {
      EntryFoldConsistent(env, layout, kind, p, kvs[..|kvs| - 1]);
      KeyStepConsistent(env, layout, kind, EntryFold(env, layout, kind, p, kvs[..|kvs| - 1]), kvs[|kvs| - 1]);
    }
  }

  lemma {:induction false} SectionFoldConsistent(env: Env, layout: Layout, kind: Kind, p: Pass, items: seq<Option<Entry>>)
    requires Consistent(p)
    ensures Consistent(SectionFold(env, layout, kind, p, items))
    decreases |items|
  {
    if items != [] {
      SectionFoldConsistent(env, layout, kind, p, items[..|items| - 1]);
      var q := SectionFold(env, layout, kind, p, items[..|items| - 1]);
      if items[|items| - 1].Some? {
        EntryFoldConsistent(env, layout, kind, q, items[|items| - 1].value);
      }
    }
  }

  lemma {:induction false} RootFoldConsistent(env: Env, layout: Layout, json: Json, p: Pass, sections: seq<string>)
    requires Consistent(p)
    ensures Consistent(RootFold(env, layout, json, p, sections))
    decreases |sections|
  {
    if sections != [] {
      RootFoldConsistent(env, layout, json, p, sections[..|sections| - 1]);
      var q := RootFold(env, layout, json, p, sections[..|sections| - 1]);
      var section := sections[|sections| - 1];
      if q.fault.None? && Lookup(json, section).Some? {
        if section == "updater" {
          CountsAppend(q.log, [Deprecated(section)]);
          SmallCounts(Deprecated(section), Deprecated(section));
          assert WellPreceded(q.log + [Deprecated(section)], |q.log|);
          AppendOrdered(q.log, [Deprecated(section)]);
        } else {
          SectionFoldConsistent(env, layout, if section == "includes" then Include else Plugin, q, Lookup(json, section).value);
        }
      }
    }
  }

  /** Whatever way a recipe ends, the reported update counters are exactly
      the verified include rewrites and the installed plugins of its log,
      and the log never shows a step out of order. */
  lemma RecipePassCounters(env: Env, layout: Layout, fs: FileSystem, url: string)
    ensures var r := RecipePass(env, layout, fs, url);
            && Ordered(r.log)
            && (r.outcome.Finished? || r.outcome.Aborted? ==>
                  && r.outcome.counters.incUpdated == IncludeUpdates(r.log)
                  && r.outcome.counters.plugUpdated == Installs(r.log))
  {
    var start := Start(fs);
    assert Consistent(start);
    match GetUrlContents(url, env.fetch(url))
    case Got(data) =>
      if env.codec.decodeCfg(data).Some? && env.parse(env.codec.decodeCfg(data).value).Some? {
        var json := env.parse(env.codec.decodeCfg(data).value).value;
        RootFoldConsistent(env, layout, json, start, RootSections);
      }
    case _ =>
  }

  // ---------------------------------------------------------------------
  // An exception ends the walk

  lemma {:induction false} EntryFoldHalted(env: Env, layout: Layout, kind: Kind, p: Pass, kvs: Entry, i: nat)
    requires i <= |kvs|
    requires EntryFold(env, layout, kind, p, kvs[..i]).fault.Some?
    ensures EntryFold(env, layout, kind, p, kvs) == EntryFold(env, layout, kind, p, kvs[..i])
    decreases |kvs|
  {
    if i == |kvs| {
      assert kvs[..i] == kvs;
    } else {
      var front := kvs[..|kvs| - 1];
      assert front[..i] == kvs[..i];
      EntryFoldHalted(env, layout, kind, p, front, i);
    }
  }

  lemma {:induction false} SectionFoldHalted(env: Env, layout: Layout, kind: Kind, p: Pass, items: seq<Option<Entry>>, i: nat)
    requires i <= |items|
    requires SectionFold(env, layout, kind, p, items[..i]).fault.Some?
    ensures SectionFold(env, layout, kind, p, items) == SectionFold(env, layout, kind, p, items[..i])
    decreases |items|
  {
    if i == |items| {
      assert items[..i] == items;
    } else {
      var front := items[..|items| - 1];
      assert front[..i] == items[..i];
      SectionFoldHalted(env, layout, kind, p, front, i);
      var q := SectionFold(env, layout, kind, p, front);
      if items[|items| - 1].Some? {
        var e := items[|items| - 1].value;
        assert e[..0] == [];
        EntryFoldHalted(env, layout, kind, q, e, 0);
      }
    }
  }

  lemma {:induction false} RootFoldHalted(env: Env, layout: Layout, json: Json, p: Pass, sections: seq<string>, i: nat)
    requires i <= |sections|
    requires RootFold(env, layout, json, p, sections[..i]).fault.Some?
    ensures RootFold(env, layout, json, p, sections) == RootFold(env, layout, json, p, sections[..i])
    decreases |sections|
  {
    if i == |sections| {
      assert sections[..i] == sections;
    } else {
      var front := sections[..|sections| - 1];
      assert front[..i] == sections[..i];
      RootFoldHalted(env, layout, json, p, front, i);
    }
  }

  // ---------------------------------------------------------------------
  // The walk only appends: what was logged before it is carried through untouched

  /** `p` with `earlier` logged ahead of its own events. */
  function After(earlier: seq<Event>, p: Pass): Pass
  {
    p.(log := earlier + p.log)
  }

  lemma AfterSyncAfter(env: Env, layout: Layout, kind: Kind, cursor: Option<Target>, earlier: seq<Event>, p: Pass, s: Sync)
    requires s.status == Ok(Updated) ==> cursor.Some? && cursor.value.path in s.fs
    ensures AfterSync(env, layout, kind, cursor, After(earlier, p), s) == After(earlier, AfterSync(env, layout, kind, cursor, p, s))
  {
    var p1 := p.(fs := s.fs, log := p.log + s.events);
    assert earlier + p.log + s.events == earlier + (p.log + s.events);
    if s.status == Ok(Updated) && kind == Plugin {
      var b := BuildOutcome(env, layout, cursor.value, s.fs);
      assert earlier + p1.log + b.events == earlier + (p1.log + b.events);
    }
  }

  lemma SourceStepAfter(env: Env, layout: Layout, kind: Kind, earlier: seq<Event>, p: Pass, url: string)
    ensures SourceStep(env, layout, kind, After(earlier, p), url) == After(earlier, SourceStep(env, layout, kind, p, url))
  {
    var cursor := Cursor(p.locals, kind);
    assert Cursor(After(earlier, p).locals, kind) == cursor;
    SyncUpdated(env, kind, cursor, url, p.fs);
    AfterSyncAfter(env, layout, kind, cursor, earlier, p, SyncOutcome(env, kind, cursor, url, p.fs));
  }

  lemma KeyStepAfter(env: Env, layout: Layout, kind: Kind, earlier: seq<Event>, p: Pass, kv: (string, string))
    ensures KeyStep(env, layout, kind, After(earlier, p), kv) == After(earlier, KeyStep(env, layout, kind, p, kv))
  {
    if p.fault.None? && kv.0 == "source_url" {
      SourceStepAfter(env, layout, kind, earlier, p, kv.1);
    }
  }

  lemma {:induction false} EntryFoldAfter(env: Env, layout: Layout, kind: Kind, earlier: seq<Event>, p: Pass, kvs: Entry)
    ensures EntryFold(env, layout, kind, After(earlier, p), kvs) == After(earlier, EntryFold(env, layout, kind, p, kvs))
    decreases |kvs|
  {
    if kvs != [] {
      var front := kvs[..|kvs| - 1];
      EntryFoldAfter(env, layout, kind, earlier, p, front);
      KeyStepAfter(env, layout, kind, earlier, EntryFold(env, layout, kind, p, front), kvs[|kvs| - 1]);
    }
  }

  lemma {:induction false} SectionFoldAfter(env: Env, layout: Layout, kind: Kind, earlier: seq<Event>, p: Pass, items: seq<Option<Entry>>)
    ensures SectionFold(env, layout, kind, After(earlier, p), items) == After(earlier, SectionFold(env, layout, kind, p, items))
    decreases |items|
  {
    if items != [] {
      var front := items[..|items| - 1];
      SectionFoldAfter(env, layout, kind, earlier, p, front);
      if items[|items| - 1].Some? {
        EntryFoldAfter(env, layout, kind, earlier, SectionFold(env, layout, kind, p, front), items[|items| - 1].value);
      }
    }
  }

  lemma RootStepAfter(env: Env, layout: Layout, json: Json, earlier: seq<Event>, p: Pass, section: string)
    ensures RootStep(env, layout, json, After(earlier, p), section) == After(earlier, RootStep(env, layout, json, p, section))
  {
    if p.fault.None? && Lookup(json, section).Some? {
      if section == "updater" {
        assert earlier + p.log + [Deprecated(section)] == earlier + (p.log + [Deprecated(section)]);
      } else {
        SectionFoldAfter(env, layout, if section == "includes" then Include else Plugin, earlier, p, Lookup(json, section).value);
      }
    }
  }

  // ---------------------------------------------------------------------
  // The processed counters

  /** Number of `name` keys among an entry's pairs. */
  function NameKeys(kvs: Entry): nat
    decreases |kvs|
  {
    if kvs == [] then 0
    else NameKeys(kvs[..|kvs| - 1]) + (if kvs[|kvs| - 1].0 == "name" then 1 else 0)
  }

  /** Syncing, compiling and installing never touch the processed counters. */
  lemma SourceStepKeepsProcessed(env: Env, layout: Layout, kind: Kind, p: Pass, url: string)
    ensures var q := SourceStep(env, layout, kind, p, url);
            && q.locals.counters.incProcessed == p.locals.counters.incProcessed
            && q.locals.counters.plugProcessed == p.locals.counters.plugProcessed
  {
  }

  /** Walking an entry to its end counts each of its `name` keys exactly once,
      whatever its `source_url` fetches return. */
  lemma {:induction false} EntryFoldCountsNames(env: Env, layout: Layout, kind: Kind, p: Pass, kvs: Entry)
    ensures var q := EntryFold(env, layout, kind, p, kvs);
            q.fault.None? ==>
              && q.locals.counters.incProcessed ==
                 p.locals.counters.incProcessed + (if kind == Include then NameKeys(kvs) else 0)
              && q.locals.counters.plugProcessed ==
                 p.locals.counters.plugProcessed + (if kind == Plugin then NameKeys(kvs) else 0)
    decreases |kvs|
  {
    if kvs != [] {
      var front := kvs[..|kvs| - 1];
      var kv := kvs[|kvs| - 1];
      var q' := EntryFold(env, layout, kind, p, front);
      EntryFoldCountsNames(env, layout, kind, p, front);
      if q'.fault.None? && kv.0 == "source_url" {
        SourceStepKeepsProcessed(env, layout, kind, q', kv.1);
      }
    }
  }

  /** A source that is temporarily unavailable (5xx) leaves the walk running
      with files and counters as they were; only a warning is logged. */
  lemma UnavailableSourceIsSkipped(env: Env, layout: Layout, kind: Kind, p: Pass, url: string)
    requires p.fault.None? && Cursor(p.locals, kind).Some?
    requires GetUrlContents(url, env.fetch(url)) == Unavailable
    ensures KeyStep(env, layout, kind, p, ("source_url", url)) ==
              p.(log := p.log + [SkippedFetch(Cursor(p.locals, kind).value.name)])
  {
  }

  // ---------------------------------------------------------------------
  // End-to-end scenarios for one entry `{"name": name, "source_url": url}`

  function OneEntry(name: string, url: string): Entry
  {
    [("name", name), ("source_url", url)]
  }

  lemma OneEntryUnfolds(env: Env, layout: Layout, kind: Kind, p: Pass, name: string, url: string)
    ensures EntryFold(env, layout, kind, p, OneEntry(name, url)) ==
            KeyStep(env, layout, kind, KeyStep(env, layout, kind, p, ("name", name)), ("source_url", url))
  {
    var kvs := OneEntry(name, url);
    assert kvs[..1] == [("name", name)];
    assert kvs[..1][..0] == [];
    assert EntryFold(env, layout, kind, p, kvs[..1][..0]) == p;
    assert EntryFold(env, layout, kind, p, kvs[..1]) == KeyStep(env, layout, kind, p, ("name", name));
  }

  /** The `source_url` step for an include target that did not exist. */
  lemma NewIncludeSourceStep(env: Env, layout: Layout, p: Pass, url: string, content: Bytes, text: Text)
    requires p.fault.None?
    requires IsHttps(url) && env.fetch(url) == Body(content) && Behaves(env, content, text)
    requires p.locals.incTarget.Some? && !p.locals.incTarget.value.existed
    ensures var q := SourceStep(env, layout, Include, p, url);
            && q.fault.None?
            && q.fs == p.fs[p.locals.incTarget.value.path := env.codec.encodeUtf8(text)]
            && q.locals.counters == Bump(p.locals.counters, Include, true)
  {
    SyncRewrites(env, Include, p.locals.incTarget.value, url, p.fs, content, text);
  }

  /** No local file yet: the include is written with the remote content and counted as updated. */
  lemma ScenarioNewInclude(env: Env, layout: Layout, p: Pass, name: string, url: string, content: Bytes, text: Text)
    requires p.fault.None?
    requires IsHttps(url) && env.fetch(url) == Body(content) && Behaves(env, content, text)
    requires SourcePath(layout, Include, name) !in p.fs
    ensures var q := EntryFold(env, layout, Include, p, OneEntry(name, url));
            && q.fault.None?
            && q.fs == p.fs[SourcePath(layout, Include, name) := env.codec.encodeUtf8(text)]
            && q.locals.counters == p.locals.counters.(incProcessed := p.locals.counters.incProcessed + 1,
                                                      incUpdated := p.locals.counters.incUpdated + 1)
  {
    OneEntryUnfolds(env, layout, Include, p, name, url);
    var t := Target(name, SourcePath(layout, Include, name), false);
    var p1 := KeyStep(env, layout, Include, p, ("name", name));
    assert p1 == p.(locals := p.locals.(counters := Bump(p.locals.counters, Include, false), incTarget := Some(t)));
    NewIncludeSourceStep(env, layout, p1, url, content, text);
  }

  /** The local include already holds the remote content: nothing is written and nothing counted as updated. */
  lemma ScenarioUnchangedInclude(env: Env, layout: Layout, p: Pass, name: string, url: string, content: Bytes, text: Text)
    requires p.fault.None?
    requires IsHttps(url) && env.fetch(url) == Body(content) && Behaves(env, content, text)
    requires SourcePath(layout, Include, name) in p.fs
    requires p.fs[SourcePath(layout, Include, name)] == env.codec.encodeUtf8(text)
    ensures var q := EntryFold(env, layout, Include, p, OneEntry(name, url));
            && q.fault.None? && q.fs == p.fs && q.log == p.log
            && q.locals.counters == p.locals.counters.(incProcessed := p.locals.counters.incProcessed + 1)
  {
    OneEntryUnfolds(env, layout, Include, p, name, url);
    var p1 := KeyStep(env, layout, Include, p, ("name", name));
    var t := Target(name, SourcePath(layout, Include, name), true);
    assert p1.locals.incTarget == Some(t) && p1.fs == p.fs && p1.log == p.log;
    assert GetUrlContents(url, env.fetch(url)) == Got(content);
    assert GetFileHash(env.codec, env.digest, p.fs[t.path]) == GetDataHash(env.digest, content);
    SyncUnchanged(env, Include, Some(t), url, p1.fs);
  }

  /** The `source_url` step for a changed plugin whose compiler exits non-zero. */
  lemma CompileFailsSourceStep(env: Env, layout: Layout, p: Pass, url: string, content: Bytes, text: Text)
    requires p.fault.None?
    requires IsHttps(url) && env.fetch(url) == Body(content) && Behaves(env, content, text)
    requires p.locals.plugTarget.Some?
    requires var t := p.locals.plugTarget.value;
             && t.path == SourcePath(layout, Plugin, t.name)
             && (t.existed ==>
                   && t.path in p.fs && GetFileHash(env.codec, env.digest, p.fs[t.path]).Ok?
                   && GetFileHash(env.codec, env.digest, p.fs[t.path]).value != env.digest(content))
    requires Join(layout.compilerDir, CompilerBinary(env.isWindows)) in p.fs
    requires env.compile(p.locals.plugTarget.value.path, env.codec.encodeUtf8(text)).exitCode != 0
    ensures var t := p.locals.plugTarget.value;
            var q := SourceStep(env, layout, Plugin, p, url);
            var code := env.compile(t.path, env.codec.encodeUtf8(text)).exitCode;
            && q.fault == Some(CompilerFailed(code))
            && t.path in q.fs && q.fs[t.path] == env.codec.encodeUtf8(text)
            && q.locals == p.locals
            && q.log == p.log + [Wrote(t.path), Verified(Plugin, t.path), CompilerRan(t.name, t.path, code)]
  {
    var t := p.locals.plugTarget.value;
    SyncRewrites(env, Plugin, t, url, p.fs, content, text);
    var s := SyncOutcome(env, Plugin, Some(t), url, p.fs);
    SourceIsNotArtifact(layout, t.name, t.name);
    var b := BuildOutcome(env, layout, t, s.fs);
    var code := env.compile(t.path, s.fs[t.path]).exitCode;
    assert b.fault == Some(CompilerFailed(code)) && b.events == [CompilerRan(t.name, t.path, code)];
    assert t.path in b.fs && b.fs[t.path] == s.fs[t.path];
    assert p.log + s.events + b.events == p.log + [Wrote(t.path), Verified(Plugin, t.path), CompilerRan(t.name, t.path, code)];
  }

  /** A changed plugin whose compiler exits non-zero: the new source is on
      disk, the run stops with the compiler failure, nothing is installed
      and the plugin is not counted as updated. */
  lemma ScenarioCompileFails(env: Env, layout: Layout, p: Pass, name: string, url: string, content: Bytes, text: Text)
    requires p.fault.None?
    requires IsHttps(url) && env.fetch(url) == Body(content) && Behaves(env, content, text)
    requires var src := SourcePath(layout, Plugin, name);
             src in p.fs ==>
               && GetFileHash(env.codec, env.digest, p.fs[src]).Ok?
               && GetFileHash(env.codec, env.digest, p.fs[src]).value != env.digest(content)
    requires Join(layout.compilerDir, CompilerBinary(env.isWindows)) in p.fs
    requires env.compile(SourcePath(layout, Plugin, name), env.codec.encodeUtf8(text)).exitCode != 0
    ensures var q := EntryFold(env, layout, Plugin, p, OneEntry(name, url));
            var src := SourcePath(layout, Plugin, name);
            && q.fault == Some(CompilerFailed(env.compile(src, env.codec.encodeUtf8(text)).exitCode))
            && src in q.fs && q.fs[src] == env.codec.encodeUtf8(text)
            && q.locals.counters.plugUpdated == p.locals.counters.plugUpdated
            && Installs(q.log) == Installs(p.log)
  {
    OneEntryUnfolds(env, layout, Plugin, p, name, url);
    var src := SourcePath(layout, Plugin, name);
    var p1 := KeyStep(env, layout, Plugin, p, ("name", name));
    var t := Target(name, src, src in p.fs);
    assert p1.locals.plugTarget == Some(t);
    assert p1.fs == p.fs && p1.log == p.log;
    CompileFailsSourceStep(env, layout, p1, url, content, text);
    var code := env.compile(src, env.codec.encodeUtf8(text)).exitCode;
    var added := [Wrote(src), Verified(Plugin, src), CompilerRan(name, src, code)];
    CountsAppend(p.log, added);
    assert added[..2] == [Wrote(src), Verified(Plugin, src)];
    SmallCounts(added[0], added[1]);
  }
}
