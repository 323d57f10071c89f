# mini-entry: entry resolution, modelled in Dafny

mini-entry computes the webpack entry map of a WeChat-style mini-program. It
matches the root `app.json` manifests named by `config.entry` and collects each
manifest's main pages and sub-package pages. It then follows every
`usingComponents` reference, including references into `node_modules`, until
no unread component `.json` remains. The root manifest's stem maps to the
manifest's path. Every page or component maps to a file group:

- a project page: its template, then its `.json` when that file exists, then its script;
- a page inside `node_modules`: its compiled script, compiled template and `.json`, then its compiled style when that file exists.

The project models this in three layers:

- **Functions (modules `Traversal`, `NodeModuleEntry`, `EntryNaming`, `Classify`, `StringUtil`).**
  Each resolution step is a function of the run's state.
  - `RunState.discovered` is `entryConfigPath`: an insertion-ordered `Set`, held as a duplicate-free sequence.
  - `RunState.visited` is `hasParsedEntryConfigPath`.
  - `RunState.readLog` is the list of config files the config pass reads.
  - Loops are tail-recursive functions with their accumulator.
  - The config pass walks the growing `discovered` sequence by index, as `Set.prototype.forEach` does.
    It terminates because each expansion reads one more of the finitely many readable files.
  - An exception is an `Err` value of `Env.Error`.
- **Class (module `Resolver`).** `Resolver.MiniEntry` holds `entryConfigPath`,
  `hasParsedEntryConfigPath` and `config` as fields, and its methods follow the
  source's statements: the loops, the `push`es and the `splice`. Each method is
  proved to return what the matching function returns from its starting state,
  and to leave the state that function describes.
- **Lemmas (module `TraversalProps`, and beside each function).** These prove
  what the resolver promises about those functions.

Both copies of the resolver are modelled: `lib/index.js` and its older version
`index.js`. `Traversal.Variant` tells them apart (`Lib`, `Legacy`). The two
differ in six places:

- page naming: lib/index.js names a page by `generateEntryName` (lib/index.js:189), index.js by its raw string (index.js:187);
- the node-module branch of `parsePages`, which only lib/index.js has (lib/index.js:191-200);
- the rewriting of package references under `node_modules`, which only lib/index.js does (lib/index.js:255-258);
- the directory a resolved reference is made relative to: lib/index.js uses the working directory for a node-module path and the source root otherwise (lib/index.js:274-278); index.js always uses the source root (index.js:245-248);
- the base of a node-module path in `getAbsolutePathWithBasePath`, which lib/index.js resets to the working directory (lib/index.js:325-327);
- the `isFile` test, which index.js never calls (index.js:295).

Each lemma that does not fix the variant holds for both.

The host is a set of function-valued fields, so every property holds whatever
they compute:

- Node's `path` functions, `process.cwd()` and `isNodeModuleInPath` are fields of `Env.PathOps`.
- `fs.existsSync`, `fs.statSync().isFile()` and the JSON files on disk are fields of `Env.Disk`.
- The two `globby` searches are also fields of `Env.Disk`.

The path separator is `/`.

Some behaviours of the code are proved as they are:

- The owner of a package reference is the first surviving descriptor in matcher
  order, not necessarily the one with the shortest directory
  (`NodeModuleEntry.OwnerIsFirstSurvivorNotShortest`). A survivor's directory
  need only occur somewhere in the reference (`includes`); it does not have to
  be a prefix. The resolver model builds node-module pages with this election, as
  lib/index.js:192-198 does. "## Findings" gives the root election the comment at
  lib/utils/generateNodeModuleEntry.js:38 names, and proves it separately.
- A bare reference such as `components/a` is classified as a package and
  rewritten under `node_modules` (`Classify.OtherReferencesArePackages`,
  `TraversalProps.ReferenceRewriting`).
- The entry directory is stripped from a reference as a plain prefix, not as a
  path segment: with module directory `vant` and entry directory `lib`,
  `vant/library/x` leaves `rary/x` (`NodeModuleEntry.EntryDirStripCutsSegment`).

## Model

| member | source | states |
|---|---|---|
| StringUtil.StripPrefix | utils/generateEntryName.js:5 | a string that starts with the prefix becomes exactly what follows the prefix; any other string is unchanged |
| StringUtil.IncludesIff | utils/isNodeModule.js:12 | `includes` holds exactly when the needle occurs at some position of the string |
| StringUtil.FirstSegment | lib/utils/generateNodeModuleEntry.js:20-21 | `split(sep)[0]`: a prefix of the input with no separator, ending at the input's end or just before its first separator |
| StringUtil.SetAdd | lib/index.js:197 | `Set.add`: the old members keep their order, exactly the new value is added, and no duplicate appears |
| StringUtil.Dedup | lib/index.js:280-286 | the `filterSet` filter: no duplicates, and exactly the members of the input |
| StringUtil.DedupKeepsFirstOccurrences | lib/index.js:280-286 | deduplicating a prefix of the input gives a prefix of the result, so each value stays at its first occurrence, in input order |
| Classify.LeadingDotsThenSlashIff | utils/isNodeModule.js:16-18 | `/^\.*\//` matches exactly when some position holds `/` and only dots come before it |
| Classify.IsNodeModule | utils/isNodeModule.js:11-19 | a reference is a package exactly when `node_modules` occurs in it, or it does not start with dots followed by a separator |
| Classify.SeparatorAndDotReferencesAreLocal | utils/isNodeModule.js:16-18 | `/a`, `./a` and `../a` forms are not packages unless they mention `node_modules` |
| Classify.ModuleDirMentionWins | utils/isNodeModule.js:12-14 | a mention of `node_modules` anywhere makes a package, whatever the prefix |
| Classify.OtherReferencesArePackages | utils/isNodeModule.js:16-18 | the empty string and anything that starts with neither `/` nor `.` is a package |
| Classify.ClassifierExamples | utils/isNodeModule.js:8-18 | `/a`, `./a` and `../a` are local; `components/a`, `""` and `./node_modules/a` are packages |
| EntryNaming.GenerateEntryName | utils/generateEntryName.js:3-8 | a name starting with `node_modules/` loses exactly that prefix; any other name is returned unchanged |
| EntryNaming.PrefixedIsPackage | utils/generateEntryName.js:4 | a name starting with `node_modules/` always passes the classifier, so the strip always applies to it |
| EntryNaming.EntryNameIsShortSuffix | utils/generateEntryName.js:4-7 | the result is a suffix of the input, at most 13 characters shorter |
| EntryNaming.EntryNameNotIdempotent | utils/generateEntryName.js:5 | `node_modules/node_modules/a` becomes `node_modules/a`, and naming again gives `a` |
| NodeModuleEntry.ModuleName | lib/utils/generateNodeModuleEntry.js:19-21 | the module name is the first separator-free segment of the reference, after the leading `node_modules/` is dropped |
| NodeModuleEntry.PathUrl | lib/utils/generateNodeModuleEntry.js:19 | the normalised reference loses one leading `node_modules/` when it has one, and is otherwise unchanged |
| NodeModuleEntry.Survivors | lib/utils/generateNodeModuleEntry.js:29-36 | the kept descriptors are exactly those not under a nested `node_modules` whose directory occurs in the reference; the first kept one is preceded only by dropped ones |
| NodeModuleEntry.Owner | lib/utils/generateNodeModuleEntry.js:29-39 | there is no owner exactly when no descriptor survives; otherwise the owner survives and is the first survivor in matcher order |
| NodeModuleEntry.EntryDir | lib/utils/generateNodeModuleEntry.js:46 | there is no entry directory exactly when `miniprogram` is missing or empty and `files` is missing or empty; an entry directory other than `miniprogram` is the first element of `files` |
| NodeModuleEntry.Remainder | lib/utils/generateNodeModuleEntry.js:52-54 | a reference that starts with `moduleDir/entryDir` is exactly that prefix followed by the remainder; one that starts with neither `moduleDir` nor `/entryDir` is its own remainder |
| NodeModuleEntry.BuildWithOwner | lib/utils/generateNodeModuleEntry.js:39-78 | for a given owner the builder fails exactly when the owner's descriptor is unreadable or names no entry directory; on success the group has 3 or 4 paths and `json` is the cwd-absolute form of the third |
| NodeModuleEntry.GenerateNodeModuleEntry | lib/utils/generateNodeModuleEntry.js:18-79 | without a surviving descriptor the builder throws for the stripped reference; on success the group has 3 or 4 paths and `json` is the cwd-absolute form of the third |
| NodeModuleEntry.NodeModuleEntryFailures | lib/utils/generateNodeModuleEntry.js:39-46 | the builder throws when no owner survives or its descriptor is unreadable, and otherwise exactly when the descriptor has neither a `miniprogram` nor a first `files` entry |
| NodeModuleEntry.EntryDirChoice | lib/utils/generateNodeModuleEntry.js:46 | the entry directory is a non-empty `miniprogram`, otherwise the first element of `files` |
| NodeModuleEntry.NodeModuleGroupShape | lib/utils/generateNodeModuleEntry.js:57-77 | the group has 3 or 4 paths, all under `node_modules/`: compiled script, compiled template and `.json` of one base path, then the compiled style exactly when that file exists; `json` is the cwd-absolute form of the third path |
| NodeModuleEntry.BuildIgnoresEntryDirSpelling | lib/utils/generateNodeModuleEntry.js:48-76 | for one owner, the remainder after the module directory with and without the entry directory spelled out builds the same entry, named `join(moduleDir, rest)`, whose real path holds the entry directory once |
| NodeModuleEntry.EntryDirSpellingIrrelevant | lib/utils/generateNodeModuleEntry.js:18-79 | two page references that elect the same owner, one spelling out the entry directory after the module directory and one leaving it out, build the same entry: its name is `join(moduleDir, rest)` and its real path holds the entry directory once |
| NodeModuleEntry.OwnerIsFirstSurvivorNotShortest | lib/utils/generateNodeModuleEntry.js:29-39 | of two surviving descriptors, the first listed owns the reference, whatever their directory lengths |
| NodeModuleEntry.OwnerDependsOnSpelling | lib/utils/generateNodeModuleEntry.js:29-39 | with `vant/lib/package.json` listed before `vant/package.json`, `node_modules/vant/lib/button` is owned by `vant/lib` and built under `vant/lib/lib/button`, while `node_modules/vant/button` is owned by `vant` and built under `vant/lib/button`; the two entry names differ |
| NodeModuleEntry.RootSurvivor | lib/utils/generateNodeModuleEntry.js:29-39 | the root election: no result exactly when nothing survives; otherwise a surviving descriptor whose directory is no longer than any other survivor's |
| NodeModuleEntry.RootOwnedEntry | lib/utils/generateNodeModuleEntry.js:18-79 | the builder with the root election has an owner exactly when the code's builder has one, throws the same error without one, and on success has the same group shape |
| NodeModuleEntry.RootOwnerIgnoresSpelling | lib/utils/generateNodeModuleEntry.js:29-55 | with the root election both spellings of the `vant` example are owned by `vant/package.json` and build one entry, `vant/button` under `vant/lib/button` |
| NodeModuleEntry.RootIsFirstWhenShortest | lib/utils/generateNodeModuleEntry.js:29-39 | when the first survivor has the shortest directory of all survivors, the root election picks it |
| NodeModuleEntry.RootOwnedEntryAgrees | lib/utils/generateNodeModuleEntry.js:18-79 | the two builders agree on every reference whose first survivor has the shortest directory, and on every reference with no survivor |
| NodeModuleEntry.RootSurvivorIsOnlySurvivor | lib/utils/generateNodeModuleEntry.js:29-39 | with a single survivor both elections choose it |
| NodeModuleEntry.EntryDirStripCutsSegment | lib/utils/generateNodeModuleEntry.js:52-54 | the entry directory is stripped as a plain prefix: module directory `vant`, entry directory `lib` and reference `vant/library/x` leave `rary/x` |
| Traversal.SourceDir | lib/index.js:301-306 | the source directory is the first segment of the first entry pattern relative to cwd, or `""` |
| Traversal.AbsolutePathWithBase | lib/index.js:318-334 | a path starting with `/` always resolves; a failure is a `statSync` of a base path that does not exist |
| Traversal.LocalPage | lib/index.js:203-216 | a local page keeps its name and has 2 or 3 paths; it records a config exactly when it has 3, and that config is its second path, the source-root form of `<page>.json` |
| Traversal.PageOutcome | lib/index.js:188-216 | only a node-module page of lib/index.js can fail, and it is built by `generateNodeModuleEntry` as written; index.js always produces an entry keyed by the raw page |
| Traversal.Record | lib/index.js:206-209 | `entryConfigPath.add`: no discovered config is lost, none becomes duplicated, the visited set and the read log stay as they are, and the recorded config is afterwards discovered |
| Traversal.RecordMembers | lib/index.js:206-209 | after recording, a config is discovered exactly when it already was or is the recorded one |
| Traversal.RecordAppends | lib/index.js:206-209 | recording appends a new config at the end and leaves a known one in place; the visited set and the read log are unchanged |
| Traversal.PagesFrom | lib/index.js:188-217 | parsing pages only adds discovered configs: it never drops one, never reads a config, and keeps the set duplicate-free |
| TraversalProps.PagesFromDiscovered | lib/index.js:188-217 | after parsing pages from an index on, a config is discovered exactly when it already was or some remaining page recorded it |
| Traversal.Pages | lib/index.js:182-220 | the same holds for `parsePages` on any input |
| Traversal.SubPages | lib/index.js:227-238 | the same holds for `parseSubPages` |
| Traversal.SubPageNames | lib/index.js:228-236 | the names succeed exactly when every sub-package has a `pages` array; otherwise the error says so |
| Traversal.ResolveReference | lib/index.js:254-279 | a reference that rewrites to a path starting with `/` always resolves; a failure is a `statSync` failure |
| Traversal.ResolveAll | lib/index.js:253-279 | succeeds exactly when every reference resolves; then it yields one path per reference, each the result of resolving that reference; a failure is the error of the first reference that fails |
| Traversal.ProbeFrom | lib/index.js:287-293 | probing sibling `.json` files only adds discovered configs |
| Traversal.Components | lib/index.js:248-296 | `parseComponents` only adds discovered configs |
| Traversal.ExpandConfig | lib/index.js:143-162 | a successful expansion read an existing config, marked it visited, logged exactly that one read, and only added discovered configs |
| Traversal.ConfigPassFrom | lib/index.js:137-166 | the pass over the growing set terminates, and on success it only adds discovered and visited configs |
| Traversal.ConfigPass | lib/index.js:137-166 | `parseComponentInPageAndComponent` on success only adds discovered and visited configs |
| Traversal.ParseApp | lib/index.js:111-130 | `parseApp` only adds discovered configs |
| Traversal.AppEntry | lib/index.js:96-104 | `getAppEntry` has exactly one key, the stem of the root's absolute path, mapped to that absolute path |
| Traversal.RootEntry | lib/index.js:70-81 | one root's entries, on success, include its app stem |
| Traversal.AllEntry | lib/index.js:62-89 | `getAllEntry`, on success, has an entry for the app stem of every root |
| Traversal.MatchRoots | lib/index.js:346 | with no entry pattern the matcher yields no path |
| Traversal.Run | lib/index.js:340-353 | no matched root throws "Not Found Entry File"; on success every matched root's app stem is a key |
| Traversal.GetEntry | lib/index.js:340-355 | `getEntry` has the same two properties |
| TraversalProps.NoMatchThrows | lib/index.js:340-350 | when the matcher returns no path, `getEntry` throws "Not Found Entry File" |
| TraversalProps.NoPatternThrows | lib/index.js:346-350 | an options object with no entry pattern throws the same error |
| TraversalProps.ConfigPassFromConsistent | lib/index.js:143-163 | the config pass keeps both sets duplicate-free; a config is read exactly when it is visited, and only discovered configs are visited, so no config is read twice |
| TraversalProps.ConfigPassFromClosed | lib/index.js:143-163 | when the configs before the starting index are visited, every config discovered by the end is visited, including those added during the pass |
| TraversalProps.UnreadableConfigThrows | lib/index.js:148 | an unvisited discovered config that cannot be read aborts the pass with a read error |
| TraversalProps.ConfigWithoutComponents | lib/index.js:148-152 | a config without `usingComponents` is marked visited and read once, and contributes nothing else |
| TraversalProps.ExpandConfigOverrides | lib/index.js:154-162 | in the config pass, a later config's components override the entries gathered so far; other entries keep their values |
| TraversalProps.RootEntrySound | lib/index.js:70-81 | after one root, the set invariant still holds and every discovered config is visited |
| TraversalProps.AllEntrySound | lib/index.js:62-89 | the same holds after any non-empty list of roots |
| TraversalProps.RunReadsEachConfigOnce | lib/index.js:340-352 | in a successful run the config pass reads each component config at most once, reads exactly the visited configs, and visits exactly the discovered ones |
| TraversalProps.LocalPageGroup | lib/index.js:203-216 | a local page's group is template, then `.json` exactly when it exists, then the script or the unchecked `.js` fallback; the `.json` is recorded exactly when it is in the group |
| TraversalProps.LibLocalPage | lib/index.js:189-216 | a page that is not a node-module path is named by `generateEntryName` and grouped locally |
| TraversalProps.LibNodeModulePage | lib/index.js:191-200 | a node-module page takes the name and group of `generateNodeModuleEntry` as written (first-survivor owner) verbatim and always records its `json`; the builder's failure is the page's failure |
| TraversalProps.LegacyPageKeyedByRawName | index.js:185-199 | index.js keys every page by its raw string and never takes the node-module branch |
| TraversalProps.PagesFromOkIff | lib/index.js:188-217 | `parsePages` succeeds exactly when every page from the given index on produces an entry |
| TraversalProps.PagesFromKeys | lib/index.js:188-217 | the names present are those already present plus those produced by the remaining pages |
| TraversalProps.PagesFromLastWins | lib/index.js:188-217 | a repeated name ends with the group of its last page; a name no remaining page produces keeps its old value |
| TraversalProps.PagesLastOccurrenceWins | lib/index.js:182-220 | `parsePages` has an entry exactly for each produced name, holding the group of the last page that produced it |
| TraversalProps.NonArrayPagesYieldNothing | lib/index.js:183-185 | a `pages` value that is not an array yields `{}` and records nothing |
| TraversalProps.SubPageNamesOrder | lib/index.js:228-236 | sub-package names are `join(root, page)`, sub-package by sub-package then page by page, with nothing else; the names fail exactly when some `pages` is not an array |
| TraversalProps.MissingSubpackagesThrows | lib/index.js:114 | a manifest without a `subpackages` array makes `parseApp` throw |
| TraversalProps.FalsyUserYieldsNothing | lib/index.js:249-251 | an empty user path yields no entries and records nothing |
| TraversalProps.ProbeRecordsExisting | lib/index.js:287-293 | after probing, a path is discovered exactly when it already was, or was the `.json` of a probed path and exists |
| TraversalProps.ComponentsArePagesOfKept | lib/index.js:280-295 | component entries are the page entries of the resolved paths with repeats removed, parsed after their `.json` files are probed |
| TraversalProps.ComponentKeys | lib/index.js:248-296 | a name has a component entry exactly when a kept resolved path produces it |
| TraversalProps.ComponentConfigsRecorded | lib/index.js:287-293 | the `.json` beside every resolved component path is recorded when it exists |
| TraversalProps.ReferenceRewriting | lib/index.js:254-263 | a package reference becomes `join("node_modules", reference minus one leading node_modules)`, normalised; other references are only normalised, and index.js only normalises |
| TraversalProps.PackageReferenceAnchorsAtCwd | lib/index.js:264-279 | a rewritten node-module reference resolves from the working directory, and is made relative to it |
| TraversalProps.RootRelativeReference | lib/index.js:265-267 | a reference that rewrites to a path starting with `/` loses that separator and nothing else |
| TraversalProps.ReferenceFromUserFile | lib/index.js:269-278 | any other reference resolves from the directory of the user's file, relative to the source root unless the result is a node-module path |
| TraversalProps.LegacyReferenceFromUserDir | index.js:240-248 | index.js resolves every other reference from the directory of its user, file or directory, relative to the source root |
| TraversalProps.LeadingSeparatorUnderSourceRoot | lib/index.js:319-321 | a path starting with `/` resolves under the source root without that separator |
| TraversalProps.LibBaseFileOrDirectory | lib/index.js:323-333 | an absolute base that is a file contributes its directory; a directory base contributes itself |
| TraversalProps.LibNodeModuleAnchorsAtCwd | lib/index.js:325-333 | a node-module path is resolved from the working directory, whatever the base |
| TraversalProps.LegacyAlwaysTakesDirname | index.js:293-296 | index.js always joins against the base's directory, since its `isFile` test is a function value that is never called |
| TraversalProps.MissingBaseThrows | lib/index.js:329 | `fs.statSync` on a missing base throws |
| TraversalProps.RootEntryPrecedence | lib/index.js:73-81 | within one root: config-pass entries override the root's components, which override sub-package pages, which override main pages, which override the app stem; the app stem maps to the single path `join(cwd, root)` |
| TraversalProps.MergeAllLastWins | lib/index.js:85-88 | in a merge of maps, a key is present exactly when some map has it, and takes the value from the last map that has it |
| TraversalProps.AllEntryMergesRootsInOrder | lib/index.js:62-89 | `getAllEntry` handles roots first to last, each from the state the previous one left; the result is their merge in that order, so later roots override earlier ones |
| Resolver.MiniEntry.constructor | lib/index.js:34-37 | the module loads with both sets empty |
| Resolver.MiniEntry.ParsePages | lib/index.js:182-220 | the loop of assignments and `push`es returns what `Traversal.Pages` computes from the starting state, and leaves the state it describes |
| Resolver.MiniEntry.ParsePageList | lib/index.js:188-217 | the `forEach` over an array of pages returns what `Traversal.PagesFrom` computes from the starting state, and leaves the state it describes |
| Resolver.MiniEntry.ParsePage | lib/index.js:188-216 | one page's assignments and `push`es: the map gains the entry `Traversal.PageOutcome` describes and the state records its config; a failure is that outcome's error |
| Resolver.MiniEntry.ParseLocalPage | lib/index.js:203-216 | a local page's group is built by `push`es into what `Traversal.LocalPage` describes, and its config is recorded |
| Resolver.MiniEntry.ParseSubPages | lib/index.js:227-238 | returns and leaves what `Traversal.SubPages` describes |
| Resolver.MiniEntry.ParseComponents | lib/index.js:248-296 | the `filterSet` loop keeps exactly the first occurrences, and the probe loop records what `Traversal.ProbeFrom` does; the method returns and leaves what `Traversal.Components` describes |
| Resolver.MiniEntry.ProbeConfigs | lib/index.js:287-293 | the probe loop leaves the state `Traversal.ProbeFrom` describes |
| Resolver.MiniEntry.ParseComponentInPageAndComponent | lib/index.js:137-166 | the index walk over the growing set terminates, returns what `Traversal.ConfigPass` computes, and leaves the state it describes |
| Resolver.MiniEntry.ParseConfigPath | lib/index.js:143-162 | one round for an unparsed config returns and leaves what `Traversal.ExpandConfig` describes |
| Resolver.MiniEntry.ParseApp | lib/index.js:111-130 | returns and leaves what `Traversal.ParseApp` describes |
| Resolver.MiniEntry.GetAllEntry | lib/index.js:62-89 | empties the array it is given and returns and leaves what `Traversal.AllEntry` describes for its old contents |
| Resolver.MiniEntry.GetEntry | lib/index.js:340-355 | the result depends only on the options, because both sets are cleared first; it equals `Traversal.GetEntry`, and on success the state is the run's final state |

## Findings

| source | as written | input that shows it | evidently intended | confidence | as-written member | corrected member |
|---|---|---|---|---|---|---|
| lib/utils/generateNodeModuleEntry.js:29-39 | the owning descriptor is `modulesPath[0]`, the first survivor in the order the matcher lists them | a host where `globby` lists `vant/lib/package.json` before `vant/package.json`: `node_modules/vant/lib/button` is owned by `vant/lib` and built under `vant/lib/lib/button`, while `node_modules/vant/button` is owned by `vant`; the same component gets two different entries | the module's root descriptor, as the comment at line 38 says, which is the survivor with the shortest directory | medium; not executed; needs the matcher to list a nested descriptor before the root | NodeModuleEntry.OwnerDependsOnSpelling | NodeModuleEntry.RootOwnerIgnoresSpelling |

## Left out

- `globby` matching is not modelled. Its results are inputs (`Disk.globEntries`, `Disk.globPackageJson`), and an empty pattern list yields no path.
- `jsonfile` reads, `fs.existsSync` and `fs.statSync` are oracles on `Disk`. A read of a path outside `Disk.manifests` or `Disk.descriptors` throws.
- Node's `path` functions and `process.cwd()` are uninterpreted. Nothing assumes POSIX or Windows normalisation. Properties such as "starts with `node_modules/`" after `join` are therefore stated as the `join` expression itself.
- `isNodeModuleInPath` is not part of this model. It is an uninterpreted predicate on `PathOps`.
- The regular expressions built from `moduleDir` and the entry directory are modelled as literal prefix strips. The two agree only when those names hold no regular-expression metacharacter.
- `async`/`await` and `console.log` in index.js are not modelled. They are sequential waiting and logging.
- lib/utils/isIgnore.js is not part of this model. Nothing in the modelled files calls it.
- typings/index.d.ts is not part of this model. It only declares types.
- Key order of the entry objects is not modelled. Entries are maps, so order among distinct keys, including JavaScript's integer-key ordering, is not captured.
- The in-place `entry.push` of the style file in the node-module builder is modelled as a conditional append to a sequence.
- The two `filter` calls over the descriptor list are modelled as one filter with both tests. Both are side-effect free.
- `parseComponents` returns `[]` for a falsy user path. It is modelled as an empty map, which is what spreading `[]` contributes.
- `entry[entryName]` groups are arrays that `parsePages` pushes onto in place. In the class they are sequences that each `push` replaces. No other reference to them exists, so no aliasing is lost.
- The `instanceof Set` guard in `parseComponentInPageAndComponent` is not modelled. The only caller always passes the set.
- Resolver.MiniEntry.ParsePages: when it throws, the state it leaves is not stated. The same holds for the other `Resolver.MiniEntry` methods. The next `getEntry` clears it.
- Traversal.ConfigPassFrom: its own contract only says that the sets grow. The consistency of the sets and the closure are proved separately by `TraversalProps.ConfigPassFromConsistent` and `TraversalProps.ConfigPassFromClosed`.
