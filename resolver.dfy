/**
  The module state of lib/index.js (and of index.js, by `variant`) as one
  object: `entryConfigPath`, `hasParsedEntryConfigPath` and `config` are its
  fields, and each function of the source that changes them is a method.
  Every method is proved to compute what the function of the same role in
  module Traversal computes from the state it starts in, and to leave the
  state that function describes; what those functions promise is proved in
  module TraversalProps. The host (path operations, file system, matcher) is
  fixed when the object is made.
 */
module Resolver {
  import opened StringUtil
  import opened Env
  import opened EntryNaming
  import opened NodeModuleEntry
  import opened Traversal
  import TraversalProps

  /** Assigning a key twice leaves the second value. */
  lemma OverwriteKey(m: EntryMap, k: string, a: EntryValue, b: EntryValue)
    ensures m[k := a][k := b] == m[k := b]
  {
  }

  /** A JavaScript array of root manifest paths, which `getAllEntry` empties. */
  class PathList {
    var items: seq<string>

    constructor(items0: seq<string>)
      ensures items == items0
    {
      items := items0;
    }
  }

  class MiniEntry {
    const variant: Variant
    const ops: PathOps
    const disk: Disk
    var config: Config
    /** `entryConfigPath`: a `Set`, kept in insertion order. */
    var entryConfigPath: seq<string>
    /** `hasParsedEntryConfigPath` */
    var hasParsedEntryConfigPath: set<string>
    /** The config files the config pass has read, in order. */
    ghost var configReads: seq<string>

    /** The module as loaded: both sets empty, `config` still `{}`. */
    constructor(variant0: Variant, ops0: PathOps, disk0: Disk)
      ensures variant == variant0 && ops == ops0 && disk == disk0
      ensures config == Config([], Suffixes("", "", ""), Suffixes("", "", ""))
      ensures State() == Fresh
    {
      variant := variant0;
      ops := ops0;
      disk := disk0;
      config := Config([], Suffixes("", "", ""), Suffixes("", "", ""));
      entryConfigPath := [];
      hasParsedEntryConfigPath := {};
      configReads := [];
    }

    function Context(): Ctx
      reads this
    {
      Ctx(variant, ops, disk, config)
    }

    ghost function State(): RunState
      reads this
    {
      RunState(entryConfigPath, hasParsedEntryConfigPath, configReads)
    }

    /** `parsePages(pages)` */
    method ParsePages(pages: Option<seq<string>>) returns (r: Result<EntryMap>)
      requires Context().Valid()
      modifies this
      ensures config == old(config)
      ensures var spec := Pages(old(Context()), pages, old(State()));
        && (r.Ok? <==> spec.Ok?)
        && (r.Ok? ==> r.value == spec.value.0 && State() == spec.value.1)
        && (r.Err? ==> r.error == spec.error)
    {
      if pages.None? {
        return Ok(map[]);
      }
      r := ParsePageList(pages.value);
    }

    /** The `forEach` of `parsePages` over an array of pages, first to last; a failure aborts it. */
    method ParsePageList(ps: seq<string>) returns (r: Result<EntryMap>)
      requires Context().Valid()
      modifies this
      ensures config == old(config)
      ensures var spec := PagesFrom(old(Context()), ps, 0, map[], old(State()));
        && (r.Ok? <==> spec.Ok?)
        && (r.Ok? ==> r.value == spec.value.0 && State() == spec.value.1)
        && (r.Err? ==> r.error == spec.error)
    {
      ghost var ctx := Context();
      ghost var st0 := State();
      var entry: EntryMap := map[];
      var i := 0;
      while i < |ps|
        invariant 0 <= i <= |ps|
        invariant config == old(config) && Context() == ctx
        invariant PagesFrom(ctx, ps, 0, map[], st0) == PagesFrom(ctx, ps, i, entry, State())
      {
        TraversalProps.PagesUnfold(ctx, ps, i, entry, State());
        var next := ParsePage(ps[i], entry);
        if next.Err? {
          return Err(next.error);
        }
        entry := next.value;
        i := i + 1;
      }
      return Ok(entry);
    }

    /** The body of the `forEach` in `parsePages` for one page, with its effects. */
    method ParsePage(page: string, entry: EntryMap) returns (r: Result<EntryMap>)
      requires Context().Valid()
      modifies this
      ensures config == old(config)
      ensures var o := PageOutcome(old(Context()), page);
        && (r.Ok? <==> o.Ok?)
        && (r.Ok? ==> r.value == entry[o.value.name := Group(o.value.group)] && State() == Record(old(State()), o.value.config))
        && (r.Err? ==> r.error == o.error)
    {
      if variant == Lib && ops.isNodeModuleInPath(page) {
        var m := GenerateNodeModuleEntry(ops, disk, page, config.compiledSuffix);
        TraversalProps.LibNodeModulePage(Context(), page);
        if m.Err? {
          return Err(m.error);
        }
        entryConfigPath := SetAdd(entryConfigPath, m.value.json);
        return Ok(entry[m.value.entryName := Group(m.value.entry)]);
      }
      var entryName := if variant == Lib then GenerateEntryName(page) else page;
      assert PageOutcome(Context(), page) == Ok(LocalPage(Context(), page, entryName));
      var next := ParseLocalPage(page, entryName, entry);
      return Ok(next);
    }

    /**
      One project-local page of `parsePages`: the template, then the `.json` when it
      exists (recorded as a config), then the script or its `.js` fallback.
     */
    method ParseLocalPage(page: string, entryName: string, entry: EntryMap) returns (next: EntryMap)
      requires Context().Valid()
      modifies this
      ensures config == old(config)
      ensures var pe := LocalPage(old(Context()), page, entryName);
        next == entry[entryName := Group(pe.group)] && State() == Record(old(State()), pe.config)
    {
      var scriptPath := AbsolutePath(Context(), page + "." + config.entrySuffix.js);
      next := entry[entryName := Group([AbsolutePath(Context(), page + "." + config.entrySuffix.xml)])];
      ghost var group := [AbsolutePath(Context(), page + "." + config.entrySuffix.xml)];
      var pageJsonPath := AbsolutePath(Context(), page + ".json");
      if disk.fileExists(pageJsonPath) {
        entryConfigPath := SetAdd(entryConfigPath, pageJsonPath);
        OverwriteKey(entry, entryName, Group(group), Group(group + [pageJsonPath]));
        next := next[entryName := Group(next[entryName].files + [pageJsonPath])];
        group := group + [pageJsonPath];
      }
      if !disk.fileExists(scriptPath) {
        scriptPath := AbsolutePath(Context(), page + ".js");
      }
      OverwriteKey(entry, entryName, Group(group), Group(group + [scriptPath]));
      next := next[entryName := Group(next[entryName].files + [scriptPath])];
      group := group + [scriptPath];
      assert group == LocalPage(old(Context()), page, entryName).group;
    }

    /** `parseSubPages(subpackages)`: the names are computed without effects, then parsed as pages. */
    method ParseSubPages(subs: Option<seq<SubPackage>>) returns (r: Result<EntryMap>)
      requires Context().Valid()
      modifies this
      ensures config == old(config)
      ensures var spec := SubPages(old(Context()), subs, old(State()));
        && (r.Ok? <==> spec.Ok?)
        && (r.Ok? ==> r.value == spec.value.0 && State() == spec.value.1)
        && (r.Err? ==> r.error == spec.error)
    {
      if subs.None? {
        return Err(SubpackagesNotArray);
      }
      var names := SubPageNames(ops, subs.value);
      if names.Err? {
        return Err(names.error);
      }
      r := ParsePages(Some(names.value));
    }

    /** `parseComponents(user, components)` */
    method ParseComponents(user: string, refs: seq<string>) returns (r: Result<EntryMap>)
      requires Context().Valid()
      modifies this
      ensures config == old(config)
      ensures var spec := Components(old(Context()), user, refs, old(State()));
        && (r.Ok? <==> spec.Ok?)
        && (r.Ok? ==> r.value == spec.value.0 && State() == spec.value.1)
        && (r.Err? ==> r.error == spec.error)
    {
      if user == "" {
        return Ok(map[]);
      }
      var resolved := ResolveAll(Context(), user, refs);
      if resolved.Err? {
        return Err(resolved.error);
      }
      var paths := resolved.value;
      var filterSet: set<string> := {};
      var kept: seq<string> := [];
      for j := 0 to |paths|
        invariant kept == Dedup(paths[..j])
        invariant forall x :: x in filterSet <==> x in kept
      {
        assert paths[..j + 1][..j] == paths[..j];
        if paths[j] !in filterSet {
          filterSet := filterSet + {paths[j]};
          kept := kept + [paths[j]];
        }
      }
      assert paths[..|paths|] == paths;
      ProbeConfigs(kept);
      r := ParsePages(Some(kept));
    }

    /** The last `map` of `parseComponents`: record the sibling `.json` of each path that has one. */
    method ProbeConfigs(kept: seq<string>)
      requires Context().Valid()
      modifies this
      ensures config == old(config)
      ensures State() == ProbeFrom(old(Context()), kept, 0, old(State()))
    {
      ghost var ctx := Context();
      ghost var st0 := State();
      for j := 0 to |kept|
        invariant Context() == ctx
        invariant ProbeFrom(ctx, kept, 0, st0) == ProbeFrom(ctx, kept, j, State())
      {
        var configPath := AbsolutePath(Context(), kept[j] + ".json");
        if disk.fileExists(configPath) {
          entryConfigPath := SetAdd(entryConfigPath, configPath);
        }
      }
    }

    /**
      `parseComponentInPageAndComponent(entryConfigPath)`: walks the set by index
      while the expansions append to it.
     */
    method ParseComponentInPageAndComponent() returns (r: Result<EntryMap>)
      requires Context().Valid()
      modifies this
      ensures config == old(config)
      ensures var spec := ConfigPass(old(Context()), old(State()));
        && (r.Ok? <==> spec.Ok?)
        && (r.Ok? ==> r.value == spec.value.0 && State() == spec.value.1)
        && (r.Err? ==> r.error == spec.error)
    {
      ghost var ctx := Context();
      ghost var st0 := State();
      var componentEntry: EntryMap := map[];
      var i := 0;
      while i < |entryConfigPath|
        invariant i <= |entryConfigPath|
        invariant config == old(config) && Context() == ctx
        invariant ConfigPassFrom(ctx, 0, map[], st0) == ConfigPassFrom(ctx, i, componentEntry, State())
        decreases |disk.manifests.Keys - hasParsedEntryConfigPath|, |entryConfigPath| - i
      {
        var configPathUrl := entryConfigPath[i];
        if configPathUrl in hasParsedEntryConfigPath {
          TraversalProps.ConfigPassSkip(ctx, i, componentEntry, State());
          i := i + 1;
        } else {
          ghost var st := State();
          ghost var acc := componentEntry;
          var step := ParseConfigPath(configPathUrl, componentEntry);
          TraversalProps.ConfigPassExpand(ctx, i, acc, st);
          if step.Err? {
            return Err(step.error);
          }
          FewerUnread(disk.manifests.Keys, st.visited, configPathUrl);
          componentEntry := step.value;
          i := i + 1;
        }
      }
      return Ok(componentEntry);
    }

    /** One round of that walk for a config not parsed yet: read it, mark it, parse its components. */
    method ParseConfigPath(configPathUrl: string, componentEntry: EntryMap) returns (r: Result<EntryMap>)
      requires Context().Valid() && configPathUrl !in hasParsedEntryConfigPath
      modifies this
      ensures config == old(config)
      ensures var spec := ExpandConfig(old(Context()), configPathUrl, componentEntry, old(State()));
        && (r.Ok? <==> spec.Ok?)
        && (r.Ok? ==> r.value == spec.value.0 && State() == spec.value.1)
        && (r.Err? ==> r.error == spec.error)
    {
      if configPathUrl !in disk.manifests {
        return Err(ReadFailed(configPathUrl));
      }
      var configData := disk.manifests[configPathUrl];
      hasParsedEntryConfigPath := hasParsedEntryConfigPath + {configPathUrl};
      configReads := configReads + [configPathUrl];
      if configData.usingComponents.None? {
        return Ok(componentEntry);
      }
      var components := ParseComponents(configPathUrl, configData.usingComponents.value);
      if components.Err? {
        return Err(components.error);
      }
      return Ok(componentEntry + components.value);
    }

    /** `parseApp(configFile)` */
    method ParseApp(configFile: string) returns (r: Result<EntryMap>)
      requires Context().Valid()
      modifies this
      ensures config == old(config)
      ensures var spec := Traversal.ParseApp(old(Context()), configFile, old(State()));
        && (r.Ok? <==> spec.Ok?)
        && (r.Ok? ==> r.value == spec.value.0 && State() == spec.value.1)
        && (r.Err? ==> r.error == spec.error)
    {
      if configFile !in disk.manifests {
        return Err(ReadFailed(configFile));
      }
      var configData := disk.manifests[configFile];
      var mainPages :- ParsePages(configData.pages);
      var subPages :- ParseSubPages(configData.subpackages);
      var entryFileAbsolutePath := ops.join([ops.cwd, configFile]);
      var components :- ParseComponents(entryFileAbsolutePath,
        if configData.usingComponents.Some? then configData.usingComponents.value else []);
      return Ok(mainPages + subPages + components);
    }

    /** `getAllEntry(configFiles)`: empties the array, then parses its roots first to last. */
    method GetAllEntry(configFiles: PathList) returns (r: Result<EntryMap>)
      requires Context().Valid()
      modifies this, configFiles
      ensures config == old(config)
      ensures configFiles.items == []
      ensures var spec := AllEntry(old(Context()), old(configFiles.items), old(State()));
        && (r.Ok? <==> spec.Ok?)
        && (r.Ok? ==> r.value == spec.value.0 && State() == spec.value.1)
        && (r.Err? ==> r.error == spec.error)
      decreases |configFiles.items|
    {
      var tmpConfigFiles := configFiles.items;
      configFiles.items := [];
      if |tmpConfigFiles| == 0 {
        return Ok(map[]);
      }
      var appEntryFilePath := tmpConfigFiles[0];
      tmpConfigFiles := tmpConfigFiles[1..];
      var appEntry :- ParseApp(appEntryFilePath);
      var componentEntry :- ParseComponentInPageAndComponent();
      var entry := AppEntry(Context(), appEntryFilePath) + appEntry + componentEntry;
      var rest := new PathList(tmpConfigFiles);
      var result :- GetAllEntry(rest);
      return Ok(entry + result);
    }

    /** `getEntry(options)`: clears both sets, takes the options, and fails when no root matches. */
    method GetEntry(options: Config) returns (r: Result<EntryMap>)
      modifies this
      ensures config == options
      ensures r == Traversal.GetEntry(variant, ops, disk, options)
      ensures r.Ok? ==> State() == Run(variant, ops, disk, options).value.1
    {
      entryConfigPath := [];
      hasParsedEntryConfigPath := {};
      configReads := [];
      config := options;
      var paths := MatchRoots(disk, config);
      if |paths| == 0 {
        return Err(NotFoundEntryFile);
      }
      var list := new PathList(paths);
      var entry :- GetAllEntry(list);
      return Ok(entry);
    }
  }
}
