/**
  The entry resolution of lib/index.js and of its older copy index.js, as
  functions of the run's state. `Variant` says which file is meant; the two
  differ only in page naming, the node-module branch of `parsePages`, the
  rewriting of package references, the directory a resolved reference is made
  relative to, the working directory as base of a node-module path in
  `getAbsolutePathWithBasePath`, and its `isFile` test, which index.js never calls.

  The module-level sets are the fields of `RunState`: `discovered` is
  `entryConfigPath` (a `Set`, so insertion-ordered and duplicate-free),
  `visited` is `hasParsedEntryConfigPath`, and `readLog` lists the config files
  the config pass reads, in order. Each step that walks a list is written
  tail-recursively with its accumulator, i.e. as the loop it is in the source.
  An exception is an `Err`; the state it leaves behind is not modelled, since
  the next run starts by clearing it.
 */
module Traversal {
  import opened StringUtil
  import opened Env
  import opened Classify
  import opened EntryNaming
  import opened NodeModuleEntry

  datatype Variant = Lib | Legacy

  /** What a run reads but never changes: the variant, the host and the options. */
  datatype Ctx = Ctx(variant: Variant, ops: PathOps, disk: Disk, config: Config) {
    /** Parsing only starts once some pattern matched, so `config.entry` has a first value. */
    predicate Valid() {
      |config.entry| > 0
    }
  }

  /** The app-stem entry is a single path; every other entry is a group of files. */
  datatype EntryValue = AppFile(path: string) | Group(files: seq<string>)

  type EntryMap = map<string, EntryValue>

  datatype RunState = RunState(discovered: seq<string>, visited: set<string>, readLog: seq<string>)

  const Fresh := RunState([], {}, [])

  /** Outside the config pass the state only gains discovered configs. */
  predicate Grows(st: RunState, st': RunState) {
    && st.discovered <= st'.discovered
    && st'.visited == st.visited
    && st'.readLog == st.readLog
    && (NoDup(st.discovered) ==> NoDup(st'.discovered))
  }

  /** The invariant of the two sets: every read config is visited and was discovered, and was read once. */
  ghost predicate Consistent(st: RunState) {
    && NoDup(st.discovered)
    && NoDup(st.readLog)
    && (forall x :: x in st.readLog <==> x in st.visited)
    && (forall x :: x in st.visited ==> x in st.discovered)
  }

  lemma GrowsTransitive(a: RunState, b: RunState, c: RunState)
    requires Grows(a, b) && Grows(b, c)
    ensures Grows(a, c)
  {
    assert c.discovered[..|a.discovered|] == b.discovered[..|a.discovered|];
  }

  // ---------------------------------------------------------------- paths

  /** The first segment of the first entry pattern, relative to the working directory. */
  function SourceDir(ctx: Ctx): (r: string)
    requires ctx.Valid()
    ensures var rel := ctx.ops.normalize(ctx.ops.relative(ctx.ops.cwd, ctx.config.entry[0].1));
      '/' !in r && StartsWith(rel, r) && (r == rel || rel[|r|] == '/')
  {
    FirstSegment(ctx.ops.normalize(ctx.ops.relative(ctx.ops.cwd, ctx.config.entry[0].1)))
  }

  /** `join(cwd, getSourceDir(), p)` */
  function AbsolutePath(ctx: Ctx, p: string): string
    requires ctx.Valid()
  {
    ctx.ops.join([ctx.ops.cwd, SourceDir(ctx), p])
  }

  /**
    `getAbsolutePathWithBasePath(base, p)`. `fs.statSync` throws on a missing base.
    The older copy tests `statSync(base).isFile` without calling it, a function
    value that is always truthy, so it always takes the directory of the base.
   */
  function AbsolutePathWithBase(ctx: Ctx, base: string, p: string): (r: Result<string>)
    requires ctx.Valid()
    ensures StartsWith(p, "/") ==> r.Ok?
    ensures r.Err? ==> r.error.StatFailed? && !ctx.disk.fileExists(r.error.path)
  {
    if StartsWith(p, "/") then Ok(AbsolutePath(ctx, p[1..]))
    else
      var b0 := if ctx.ops.isAbsolute(base) then base else AbsolutePath(ctx, base);
      var b := if ctx.variant == Lib && ctx.ops.isNodeModuleInPath(p) then ctx.ops.cwd else b0;
      if !ctx.disk.fileExists(b) then Err(StatFailed(b))
      else if ctx.variant == Legacy || ctx.disk.isFile(b) then Ok(ctx.ops.join([ctx.ops.dirname(b), p]))
      else Ok(ctx.ops.join([b, p]))
  }

  // ---------------------------------------------------------------- pages

  /** One page's entry name, file group, and the config it records, if any. */
  datatype PageEntry = PageEntry(name: string, group: seq<string>, config: Option<string>)

  /** A project-local page: template, `.json` when it exists, script with a `.js` fallback. */
  function LocalPage(ctx: Ctx, page: string, name: string): (r: PageEntry)
    requires ctx.Valid()
    ensures r.name == name && 2 <= |r.group| <= 3
    ensures r.config.Some? <==> |r.group| == 3
    ensures r.config.Some? ==> r.group[1] == r.config.value == AbsolutePath(ctx, page + ".json")
  {
    var script := AbsolutePath(ctx, page + "." + ctx.config.entrySuffix.js);
    var template := AbsolutePath(ctx, page + "." + ctx.config.entrySuffix.xml);
    var json := AbsolutePath(ctx, page + ".json");
    var hasJson := ctx.disk.fileExists(json);
    var scriptOrFallback := if ctx.disk.fileExists(script) then script else AbsolutePath(ctx, page + ".js");
    PageEntry(name,
              [template] + (if hasJson then [json] else []) + [scriptOrFallback],
              if hasJson then Some(json) else None)
  }

  /**
    The body of the `forEach` in `parsePages`, without its effects. A node-module page
    is built by `generateNodeModuleEntry` as written, owner election included.
   */
  function PageOutcome(ctx: Ctx, page: string): (r: Result<PageEntry>)
    requires ctx.Valid()
    ensures r.Err? ==> ctx.variant == Lib && ctx.ops.isNodeModuleInPath(page)
    ensures ctx.variant == Legacy ==> r.Ok? && r.value.name == page
  {
    match ctx.variant
    case Legacy => Ok(LocalPage(ctx, page, page))
    case Lib =>
      if ctx.ops.isNodeModuleInPath(page) then
        var m :- GenerateNodeModuleEntry(ctx.ops, ctx.disk, page, ctx.config.compiledSuffix);
        Ok(PageEntry(m.entryName, m.entry, Some(m.json)))
      else Ok(LocalPage(ctx, page, GenerateEntryName(page)))
  }

  /** `entryConfigPath.add(c)` when there is a config to record. */
  function Record(st: RunState, c: Option<string>): (r: RunState)
    ensures Grows(st, r)
    ensures c.Some? ==> c.value in r.discovered
  {
    if c.Some? then st.(discovered := SetAdd(st.discovered, c.value)) else st
  }

  /** `Record` appends the config at the end when it is new, and otherwise changes nothing. */
  lemma RecordAppends(st: RunState, c: Option<string>)
    ensures var r := Record(st, c);
      r.discovered == st.discovered || (c.Some? && c.value !in st.discovered && r.discovered == st.discovered + [c.value])
    ensures var r := Record(st, c);
      r.visited == st.visited && r.readLog == st.readLog
  {
  }

  /** After `Record`, a config is discovered exactly when it already was or is the recorded one. */
  lemma RecordMembers(st: RunState, c: Option<string>, y: string)
    ensures y in Record(st, c).discovered <==> y in st.discovered || c == Some(y)
  {
  }

  /** `parsePages` from the `i`-th page on, with the entries built so far. */
  function PagesFrom(ctx: Ctx, pages: seq<string>, i: nat, entry: EntryMap, st: RunState): (r: Result<(EntryMap, RunState)>)
    requires ctx.Valid() && i <= |pages|
    ensures r.Ok? ==> Grows(st, r.value.1)
    decreases |pages| - i
  {
    if i == |pages| then Ok((entry, st))
    else
      var pe :- PageOutcome(ctx, pages[i]);
      var st' := Record(st, pe.config);
      var r := PagesFrom(ctx, pages, i + 1, entry[pe.name := Group(pe.group)], st');
      if r.Ok? then GrowsTransitive(st, st', r.value.1); r else r
  }

  /** `parsePages`: a value that is not an array yields no entries. */
  function Pages(ctx: Ctx, pages: Option<seq<string>>, st: RunState): (r: Result<(EntryMap, RunState)>)
    requires ctx.Valid()
    ensures r.Ok? ==> Grows(st, r.value.1)
  {
    match pages
    case None => Ok((map[], st))
    case Some(ps) => PagesFrom(ctx, ps, 0, map[], st)
  }

  /** One sub-package's page names, `join(root, page)`, in page order. */
  function JoinRoot(ops: PathOps, root: string, pages: seq<string>): seq<string> {
    seq(|pages|, j requires 0 <= j < |pages| => ops.join([root, pages[j]]))
  }

  /** The `map`/`reduce` of `parseSubPages`: names in sub-package order, then page order. */
  function SubPageNames(ops: PathOps, subs: seq<SubPackage>): (r: Result<seq<string>>)
    ensures r.Ok? <==> forall j :: 0 <= j < |subs| ==> subs[j].pages.Some?
    ensures r.Err? ==> r.error.SubpackagePagesNotArray?
  {
    if |subs| == 0 then Ok([])
    else
      match subs[0].pages
      case None => Err(SubpackagePagesNotArray(subs[0].root))
      case Some(ps) =>
        var rest :- SubPageNames(ops, subs[1..]);
        Ok(JoinRoot(ops, subs[0].root, ps) + rest)
  }

  /** `parseSubPages`, which has no guard against a missing `subpackages`. */
  function SubPages(ctx: Ctx, subs: Option<seq<SubPackage>>, st: RunState): (r: Result<(EntryMap, RunState)>)
    requires ctx.Valid()
    ensures r.Ok? ==> Grows(st, r.value.1)
  {
    match subs
    case None => Err(SubpackagesNotArray)
    case Some(ss) =>
      var names :- SubPageNames(ctx.ops, ss);
      Pages(ctx, Some(names), st)
  }

  // ---------------------------------------------------------------- components

  /**
    The first `map`s of `parseComponents`: lib/index.js moves a package reference
    under `node_modules` (dropping one leading `node_modules`) and normalises twice;
    index.js normalises once.
   */
  function RewrittenReference(ctx: Ctx, reference: string): string {
    match ctx.variant
    case Lib =>
      ctx.ops.normalize(
        if IsNodeModule(reference) then ctx.ops.join([ModuleDirName, StripPrefix(reference, ModuleDirName)])
        else ctx.ops.normalize(reference))
    case Legacy => ctx.ops.normalize(reference)
  }

  /** The `map` chain of `parseComponents` for one reference: a path relative to the source root or to the working directory. */
  function ResolveReference(ctx: Ctx, user: string, reference: string): (r: Result<string>)
    requires ctx.Valid()
    ensures StartsWith(RewrittenReference(ctx, reference), "/") ==> r.Ok?
    ensures r.Err? ==> r.error.StatFailed?
  {
    var p := RewrittenReference(ctx, reference);
    if StartsWith(p, "/") then Ok(p[1..])
    else
      var abs :- AbsolutePathWithBase(ctx, user, p);
      var base := if ctx.variant == Lib && ctx.ops.isNodeModuleInPath(abs) then ctx.ops.cwd else AbsolutePath(ctx, "");
      Ok(ctx.ops.relative(base, abs))
  }

  /** Every reference resolved, in order; the first failure aborts. */
  function ResolveAll(ctx: Ctx, user: string, refs: seq<string>): (r: Result<seq<string>>)
    requires ctx.Valid()
    ensures r.Ok? <==> forall j :: 0 <= j < |refs| ==> ResolveReference(ctx, user, refs[j]).Ok?
    ensures r.Ok? ==> |r.value| == |refs| && forall j :: 0 <= j < |refs| ==> Ok(r.value[j]) == ResolveReference(ctx, user, refs[j])
    ensures r.Err? ==> exists j :: && 0 <= j < |refs| && ResolveReference(ctx, user, refs[j]).Err?
                                   && r.error == ResolveReference(ctx, user, refs[j]).error
                                   && forall i :: 0 <= i < j ==> ResolveReference(ctx, user, refs[i]).Ok?
  {
    if |refs| == 0 then Ok([])
    else
      var p :- ResolveReference(ctx, user, refs[0]);
      var rest :- ResolveAll(ctx, user, refs[1..]);
      assert forall j :: 1 <= j < |refs| ==> refs[j] == refs[1..][j - 1];
      Ok([p] + rest)
  }

  /** The last `map` of `parseComponents` from the `i`-th path on: record each sibling `.json` that exists. */
  function ProbeFrom(ctx: Ctx, paths: seq<string>, i: nat, st: RunState): (r: RunState)
    requires ctx.Valid() && i <= |paths|
    ensures Grows(st, r)
    decreases |paths| - i
  {
    if i == |paths| then st
    else
      var c := AbsolutePath(ctx, paths[i] + ".json");
      var st' := Record(st, if ctx.disk.fileExists(c) then Some(c) else None);
      var r := ProbeFrom(ctx, paths, i + 1, st');
      GrowsTransitive(st, st', r);
      r
  }

  /** `parseComponents(user, components)`; a falsy user path yields no entries. */
  function Components(ctx: Ctx, user: string, refs: seq<string>, st: RunState): (r: Result<(EntryMap, RunState)>)
    requires ctx.Valid()
    ensures r.Ok? ==> Grows(st, r.value.1)
  {
    if user == "" then Ok((map[], st))
    else
      var resolved :- ResolveAll(ctx, user, refs);
      var kept := Dedup(resolved);
      var st' := ProbeFrom(ctx, kept, 0, st);
      var r := Pages(ctx, Some(kept), st');
      if r.Ok? then GrowsTransitive(st, st', r.value.1); r else r
  }

  // ---------------------------------------------------------------- config pass

  /** One round of the `forEach` in `parseComponentInPageAndComponent` for an unvisited config. */
  function ExpandConfig(ctx: Ctx, c: string, acc: EntryMap, st: RunState): (r: Result<(EntryMap, RunState)>)
    requires ctx.Valid() && c !in st.visited
    ensures r.Ok? ==> && c in ctx.disk.manifests
                      && r.value.1.visited == st.visited + {c}
                      && r.value.1.readLog == st.readLog + [c]
                      && st.discovered <= r.value.1.discovered
                      && (NoDup(st.discovered) ==> NoDup(r.value.1.discovered))
  {
    if c !in ctx.disk.manifests then Err(ReadFailed(c))
    else
      var data := ctx.disk.manifests[c];
      var st' := st.(visited := st.visited + {c}, readLog := st.readLog + [c]);
      match data.usingComponents
      case None => Ok((acc, st'))
      case Some(refs) =>
        var comps :- Components(ctx, c, refs, st');
        Ok((acc + comps.0, comps.1))
  }

  lemma FewerUnread(keys: set<string>, visited: set<string>, c: string)
    requires c in keys && c !in visited
    ensures |keys - (visited + {c})| < |keys - visited|
  {
    assert keys - visited == (keys - (visited + {c})) + {c};
  }

  /**
    The config pass from index `i` of the growing `discovered` sequence: configs added
    while the pass runs are reached as well, as `Set.prototype.forEach` does. It stops
    because each expansion reads one more of the finitely many readable files.
   */
  function ConfigPassFrom(ctx: Ctx, i: nat, acc: EntryMap, st: RunState): (r: Result<(EntryMap, RunState)>)
    requires ctx.Valid() && i <= |st.discovered|
    ensures r.Ok? ==> st.discovered <= r.value.1.discovered && st.visited <= r.value.1.visited
    decreases |ctx.disk.manifests.Keys - st.visited|, |st.discovered| - i
  {
    if i == |st.discovered| then Ok((acc, st))
    else if st.discovered[i] in st.visited then ConfigPassFrom(ctx, i + 1, acc, st)
    else
      var step :- ExpandConfig(ctx, st.discovered[i], acc, st);
      FewerUnread(ctx.disk.manifests.Keys, st.visited, st.discovered[i]);
      var r := ConfigPassFrom(ctx, i + 1, step.0, step.1);
      if r.Ok? then
        assert r.value.1.discovered[..|st.discovered|] == step.1.discovered[..|st.discovered|];
        r
      else r
  }

  function ConfigPass(ctx: Ctx, st: RunState): (r: Result<(EntryMap, RunState)>)
    requires ctx.Valid()
    ensures r.Ok? ==> st.discovered <= r.value.1.discovered && st.visited <= r.value.1.visited
  {
    ConfigPassFrom(ctx, 0, map[], st)
  }

  // ---------------------------------------------------------------- roots

  /** The key of the app entry of a root manifest: the stem of its absolute path. */
  function AppStem(ops: PathOps, root: string): string {
    ops.stem(ops.join([ops.cwd, root]))
  }

  /** `getAppEntry`: the manifest's file stem mapped to its absolute path. */
  function AppEntry(ctx: Ctx, root: string): (r: EntryMap)
    ensures r.Keys == {AppStem(ctx.ops, root)}
    ensures forall k :: k in r ==> r[k] == AppFile(ctx.ops.join([ctx.ops.cwd, root]))
  {
    map[AppStem(ctx.ops, root) := AppFile(ctx.ops.join([ctx.ops.cwd, root]))]
  }

  /** `parseApp`: main pages, then sub-package pages, then the root's own components. */
  function ParseApp(ctx: Ctx, root: string, st: RunState): (r: Result<(EntryMap, RunState)>)
    requires ctx.Valid()
    ensures r.Ok? ==> Grows(st, r.value.1)
  {
    if root !in ctx.disk.manifests then Err(ReadFailed(root))
    else
      var data := ctx.disk.manifests[root];
      var main :- Pages(ctx, data.pages, st);
      var sub :- SubPages(ctx, data.subpackages, main.1);
      var refs := if data.usingComponents.Some? then data.usingComponents.value else [];
      var comps :- Components(ctx, ctx.ops.join([ctx.ops.cwd, root]), refs, sub.1);
      GrowsTransitive(st, main.1, sub.1);
      GrowsTransitive(st, sub.1, comps.1);
      Ok((main.0 + sub.0 + comps.0, comps.1))
  }

  /** One root of `getAllEntry`: its app entry, its manifest, then the config pass. */
  function RootEntry(ctx: Ctx, root: string, st: RunState): (r: Result<(EntryMap, RunState)>)
    requires ctx.Valid()
    ensures r.Ok? ==> AppStem(ctx.ops, root) in r.value.0
  {
    var app :- ParseApp(ctx, root, st);
    var comps :- ConfigPass(ctx, app.1);
    Ok((AppEntry(ctx, root) + app.0 + comps.0, comps.1))
  }

  /** `getAllEntry`: the first root, then the rest, the rest's entries winning. */
  function AllEntry(ctx: Ctx, roots: seq<string>, st: RunState): (r: Result<(EntryMap, RunState)>)
    requires ctx.Valid()
    ensures r.Ok? ==> forall j :: 0 <= j < |roots| ==> AppStem(ctx.ops, roots[j]) in r.value.0
  {
    if |roots| == 0 then Ok((map[], st))
    else
      var first :- RootEntry(ctx, roots[0], st);
      var rest :- AllEntry(ctx, roots[1..], first.1);
      MergedStems(ctx.ops, roots, first.0, rest.0);
      Ok((first.0 + rest.0, rest.1))
  }

  lemma MergedStems(ops: PathOps, roots: seq<string>, first: EntryMap, rest: EntryMap)
    requires |roots| > 0 && AppStem(ops, roots[0]) in first
    requires forall j :: 0 <= j < |roots[1..]| ==> AppStem(ops, roots[1..][j]) in rest
    ensures forall j :: 0 <= j < |roots| ==> AppStem(ops, roots[j]) in first + rest
  {
    forall j | 0 <= j < |roots| ensures AppStem(ops, roots[j]) in first + rest {
      if j > 0 {
        assert roots[j] == roots[1..][j - 1];
      }
    }
  }

  /** The root manifests: the matcher finds nothing when there is no pattern. */
  function MatchRoots(disk: Disk, config: Config): (r: seq<string>)
    ensures |config.entry| == 0 ==> r == []
  {
    var patterns := EntryPatterns(config);
    if |patterns| == 0 then [] else disk.globEntries(patterns)
  }

  /** `getEntry` with its final state: both sets start empty. */
  function Run(variant: Variant, ops: PathOps, disk: Disk, config: Config): (r: Result<(EntryMap, RunState)>)
    ensures MatchRoots(disk, config) == [] ==> r == Err(NotFoundEntryFile)
    ensures r.Ok? ==> forall root :: root in MatchRoots(disk, config) ==> AppStem(ops, root) in r.value.0
  {
    var paths := MatchRoots(disk, config);
    if |paths| == 0 then Err(NotFoundEntryFile)
    else AllEntry(Ctx(variant, ops, disk, config), paths, Fresh)
  }

  function GetEntry(variant: Variant, ops: PathOps, disk: Disk, config: Config): (r: Result<EntryMap>)
    ensures MatchRoots(disk, config) == [] ==> r == Err(NotFoundEntryFile)
    ensures r.Ok? ==> forall root :: root in MatchRoots(disk, config) ==> AppStem(ops, root) in r.value
  {
    var r :- Run(variant, ops, disk, config);
    Ok(r.0)
  }
}
