/**
  What the resolution of lib/index.js and index.js promises, proved about the
  functions of module Traversal: the run starts from empty sets, each config
  is read at most once and the pass reaches every discovered config, the
  shape of each file group, the order of sub-package names, deduplication of
  components, path resolution, and which entry wins on a repeated name.
 */
module TraversalProps {
  import opened StringUtil
  import opened Env
  import opened Classify
  import opened EntryNaming
  import opened NodeModuleEntry
  import opened Traversal

  // ---------------------------------------------------------------- run start

  /** No matched root manifest: the run throws before parsing anything. */
  lemma NoMatchThrows(variant: Variant, ops: PathOps, disk: Disk, config: Config)
    requires MatchRoots(disk, config) == []
    ensures GetEntry(variant, ops, disk, config) == Err(NotFoundEntryFile)
  {
  }

  /** With no pattern at all the run throws the same error. */
  lemma NoPatternThrows(variant: Variant, ops: PathOps, disk: Disk, config: Config)
    requires config.entry == []
    ensures GetEntry(variant, ops, disk, config) == Err(NotFoundEntryFile)
  {
  }

  // ---------------------------------------------------------------- config pass

  lemma GrowsKeepsConsistent(st: RunState, st': RunState)
    requires Consistent(st) && Grows(st, st')
    ensures Consistent(st')
  {
    forall x | x in st'.visited ensures x in st'.discovered {
      var j :| 0 <= j < |st.discovered| && st.discovered[j] == x;
      assert st'.discovered[j] == x;
    }
  }

  /** Expanding an unvisited, discovered config keeps the invariant of the two sets. */
  lemma ExpandConfigConsistent(ctx: Ctx, i: nat, acc: EntryMap, st: RunState)
    requires ctx.Valid() && i < |st.discovered| && st.discovered[i] !in st.visited
    requires Consistent(st)
    requires ExpandConfig(ctx, st.discovered[i], acc, st).Ok?
    ensures Consistent(ExpandConfig(ctx, st.discovered[i], acc, st).value.1)
  {
    var c := st.discovered[i];
    var st' := ExpandConfig(ctx, c, acc, st).value.1;
    assert c !in st.readLog;
    forall x | x in st'.visited ensures x in st'.discovered {
      var j: int;
      if x == c {
        j := i;
      } else {
        j :| 0 <= j < |st.discovered| && st.discovered[j] == x;
      }
      assert st'.discovered[j] == x;
    }
  }

  /** A visited config is skipped. */
  lemma ConfigPassSkip(ctx: Ctx, i: nat, acc: EntryMap, st: RunState)
    requires ctx.Valid() && i < |st.discovered| && st.discovered[i] in st.visited
    ensures ConfigPassFrom(ctx, i, acc, st) == ConfigPassFrom(ctx, i + 1, acc, st)
  {
  }

  /** One step of the config pass at an unvisited config, success or failure. */
  lemma ConfigPassExpand(ctx: Ctx, i: nat, acc: EntryMap, st: RunState)
    requires ctx.Valid() && i < |st.discovered| && st.discovered[i] !in st.visited
    ensures var e := ExpandConfig(ctx, st.discovered[i], acc, st);
      ConfigPassFrom(ctx, i, acc, st)
        == if e.Err? then Err(e.error) else ConfigPassFrom(ctx, i + 1, e.value.0, e.value.1)
  {
    if st.discovered[i] in ctx.disk.manifests {
      FewerUnread(ctx.disk.manifests.Keys, st.visited, st.discovered[i]);
    }
  }

  /** One expansion step of the config pass, unfolded once. */
  lemma ConfigPassStep(ctx: Ctx, i: nat, acc: EntryMap, st: RunState)
    requires ctx.Valid() && i < |st.discovered| && st.discovered[i] !in st.visited
    requires ConfigPassFrom(ctx, i, acc, st).Ok?
    ensures ExpandConfig(ctx, st.discovered[i], acc, st).Ok?
    ensures var step := ExpandConfig(ctx, st.discovered[i], acc, st).value;
      ConfigPassFrom(ctx, i, acc, st) == ConfigPassFrom(ctx, i + 1, step.0, step.1)
  {
    FewerUnread(ctx.disk.manifests.Keys, st.visited, st.discovered[i]);
  }

  /**
    The config pass from index `i` keeps the invariant: no config is read twice,
    every read config is visited and every visited one was discovered.
   */
  lemma {:induction false} ConfigPassFromConsistent(ctx: Ctx, i: nat, acc: EntryMap, st: RunState)
    requires ctx.Valid() && i <= |st.discovered|
    requires Consistent(st)
    requires ConfigPassFrom(ctx, i, acc, st).Ok?
    ensures Consistent(ConfigPassFrom(ctx, i, acc, st).value.1)
    decreases |ctx.disk.manifests.Keys - st.visited|, |st.discovered| - i
  {
    if i < |st.discovered| {
      var c := st.discovered[i];
      if c in st.visited {
        ConfigPassSkip(ctx, i, acc, st);
        ConfigPassFromConsistent(ctx, i + 1, acc, st);
      } else {
        ConfigPassStep(ctx, i, acc, st);
        var step := ExpandConfig(ctx, c, acc, st).value;
        FewerUnread(ctx.disk.manifests.Keys, st.visited, c);
        ExpandConfigConsistent(ctx, i, acc, st);
        ConfigPassFromConsistent(ctx, i + 1, step.0, step.1);
      }
    }
  }

  /** Every discovered config has been read. */
  ghost predicate Closed(st: RunState) {
    forall x :: x in st.discovered ==> x in st.visited
  }

  /** The configs before index `i` have been read. */
  ghost predicate ReadBefore(st: RunState, i: int) {
    forall j :: 0 <= j < i && j < |st.discovered| ==> st.discovered[j] in st.visited
  }

  /** Expanding the config at index `i` marks it read and keeps the earlier ones read. */
  lemma ExpandConfigReadBefore(ctx: Ctx, i: nat, acc: EntryMap, st: RunState)
    requires ctx.Valid() && i < |st.discovered| && st.discovered[i] !in st.visited
    requires ReadBefore(st, i)
    requires ExpandConfig(ctx, st.discovered[i], acc, st).Ok?
    ensures ReadBefore(ExpandConfig(ctx, st.discovered[i], acc, st).value.1, i + 1)
  {
    var st' := ExpandConfig(ctx, st.discovered[i], acc, st).value.1;
    forall j | 0 <= j < i + 1 && j < |st'.discovered| ensures st'.discovered[j] in st'.visited {
      assert st'.discovered[j] == st.discovered[j];
    }
  }

  /**
    When every config before index `i` is visited, every config discovered by the
    end of the pass is visited: the pass computes the closure over `usingComponents`.
   */
  lemma {:induction false} ConfigPassFromClosed(ctx: Ctx, i: nat, acc: EntryMap, st: RunState)
    requires ctx.Valid() && i <= |st.discovered|
    requires ReadBefore(st, i)
    requires ConfigPassFrom(ctx, i, acc, st).Ok?
    ensures Closed(ConfigPassFrom(ctx, i, acc, st).value.1)
    decreases |ctx.disk.manifests.Keys - st.visited|, |st.discovered| - i
  {
    if i == |st.discovered| {
      forall x | x in st.discovered ensures x in st.visited {
        var j :| 0 <= j < |st.discovered| && st.discovered[j] == x;
      }
    } else {
      var c := st.discovered[i];
      if c in st.visited {
        ConfigPassSkip(ctx, i, acc, st);
        ConfigPassFromClosed(ctx, i + 1, acc, st);
      } else {
        ConfigPassStep(ctx, i, acc, st);
        var step := ExpandConfig(ctx, c, acc, st).value;
        FewerUnread(ctx.disk.manifests.Keys, st.visited, c);
        ExpandConfigReadBefore(ctx, i, acc, st);
        ConfigPassFromClosed(ctx, i + 1, step.0, step.1);
      }
    }
  }

  /** A discovered config that cannot be read aborts the pass. */
  lemma UnreadableConfigThrows(ctx: Ctx, i: nat, acc: EntryMap, st: RunState)
    requires ctx.Valid() && i < |st.discovered|
    requires st.discovered[i] !in st.visited && st.discovered[i] !in ctx.disk.manifests
    ensures ConfigPassFrom(ctx, i, acc, st) == Err(ReadFailed(st.discovered[i]))
  {
  }

  /** A config is marked visited when read; one without `usingComponents` adds nothing else. */
  lemma ConfigWithoutComponents(ctx: Ctx, c: string, acc: EntryMap, st: RunState)
    requires ctx.Valid() && c !in st.visited
    requires c in ctx.disk.manifests && ctx.disk.manifests[c].usingComponents.None?
    ensures ExpandConfig(ctx, c, acc, st) == Ok((acc, st.(visited := st.visited + {c}, readLog := st.readLog + [c])))
  {
  }

  /** In the config pass a later config's components override what earlier ones produced. */
  lemma ExpandConfigOverrides(ctx: Ctx, c: string, acc: EntryMap, st: RunState, k: string)
    requires ctx.Valid() && c !in st.visited && c in ctx.disk.manifests
    requires ctx.disk.manifests[c].usingComponents.Some?
    requires ExpandConfig(ctx, c, acc, st).Ok?
    ensures var comps := Components(ctx, c, ctx.disk.manifests[c].usingComponents.value,
                                    st.(visited := st.visited + {c}, readLog := st.readLog + [c])).value.0;
      var out := ExpandConfig(ctx, c, acc, st).value.0;
      && (k in comps ==> k in out && out[k] == comps[k])
      && (k !in comps && k in acc ==> k in out && out[k] == acc[k])
      && (k in out ==> k in comps || k in acc)
  {
  }

  // ---------------------------------------------------------------- whole run

  lemma {:induction false} RootEntrySound(ctx: Ctx, root: string, st: RunState)
    requires ctx.Valid()
    requires RootEntry(ctx, root, st).Ok?
    ensures Consistent(st) ==> Consistent(RootEntry(ctx, root, st).value.1)
    ensures forall x :: x in RootEntry(ctx, root, st).value.1.discovered ==> x in RootEntry(ctx, root, st).value.1.visited
  {
    var app := ParseApp(ctx, root, st).value;
    ConfigPassFromClosed(ctx, 0, map[], app.1);
    if Consistent(st) {
      GrowsKeepsConsistent(st, app.1);
      ConfigPassFromConsistent(ctx, 0, map[], app.1);
    }
  }

  lemma {:induction false} AllEntrySound(ctx: Ctx, roots: seq<string>, st: RunState)
    requires ctx.Valid()
    requires AllEntry(ctx, roots, st).Ok?
    ensures Consistent(st) ==> Consistent(AllEntry(ctx, roots, st).value.1)
    ensures |roots| > 0 ==> forall x :: x in AllEntry(ctx, roots, st).value.1.discovered ==> x in AllEntry(ctx, roots, st).value.1.visited
  {
    if |roots| > 0 {
      var first := RootEntry(ctx, roots[0], st).value;
      RootEntrySound(ctx, roots[0], st);
      AllEntrySound(ctx, roots[1..], first.1);
    }
  }

  /**
    A successful run reads each discovered config at most once (`readLog` has no
    repeats and lists exactly the visited ones), and leaves no discovered config unread.
   */
  lemma RunReadsEachConfigOnce(variant: Variant, ops: PathOps, disk: Disk, config: Config)
    requires Run(variant, ops, disk, config).Ok?
    ensures var st := Run(variant, ops, disk, config).value.1;
      && NoDup(st.readLog)
      && (forall x :: x in st.readLog <==> x in st.visited)
      && (forall x :: x in st.discovered <==> x in st.visited)
  {
    var paths := MatchRoots(disk, config);
    var ctx := Ctx(variant, ops, disk, config);
    AllEntrySound(ctx, paths, Fresh);
  }

  // ---------------------------------------------------------------- page groups

  /**
    A project-local page: template first, the `.json` second exactly when it exists,
    the script last, falling back to `.js` without checking that the fallback exists;
    the `.json` is recorded exactly when it is put in the group.
   */
  lemma LocalPageGroup(ctx: Ctx, page: string, name: string)
    requires ctx.Valid()
    ensures var pe := LocalPage(ctx, page, name);
      var json := AbsolutePath(ctx, page + ".json");
      var script := AbsolutePath(ctx, page + "." + ctx.config.entrySuffix.js);
      && pe.name == name
      && (|pe.group| == 2 || |pe.group| == 3)
      && pe.group[0] == AbsolutePath(ctx, page + "." + ctx.config.entrySuffix.xml)
      && (|pe.group| == 3 <==> ctx.disk.fileExists(json))
      && (|pe.group| == 3 ==> pe.group[1] == json)
      && pe.group[|pe.group| - 1] == (if ctx.disk.fileExists(script) then script else AbsolutePath(ctx, page + ".js"))
      && (pe.config.Some? <==> |pe.group| == 3)
      && (pe.config.Some? ==> pe.config.value == pe.group[1])
  {
  }

  /** In lib/index.js a project page is named by `generateEntryName` and grouped locally. */
  lemma LibLocalPage(ctx: Ctx, page: string)
    requires ctx.Valid() && ctx.variant == Lib && !ctx.ops.isNodeModuleInPath(page)
    ensures PageOutcome(ctx, page) == Ok(LocalPage(ctx, page, GenerateEntryName(page)))
  {
  }

  /** A node-module page takes the builder's name and group verbatim and records its `json` unconditionally. */
  lemma LibNodeModulePage(ctx: Ctx, page: string)
    requires ctx.Valid() && ctx.variant == Lib && ctx.ops.isNodeModuleInPath(page)
    ensures var m := GenerateNodeModuleEntry(ctx.ops, ctx.disk, page, ctx.config.compiledSuffix);
      && (PageOutcome(ctx, page).Ok? <==> m.Ok?)
      && (m.Ok? ==> PageOutcome(ctx, page).value == PageEntry(m.value.entryName, m.value.entry, Some(m.value.json)))
      && (m.Err? ==> PageOutcome(ctx, page) == Err(m.error))
  {
  }

  /** index.js keys every page by its raw string and never takes the node-module branch. */
  lemma LegacyPageKeyedByRawName(ctx: Ctx, page: string)
    requires ctx.Valid() && ctx.variant == Legacy
    ensures PageOutcome(ctx, page) == Ok(LocalPage(ctx, page, page))
  {
  }

  ghost predicate NamedAt(ctx: Ctx, pages: seq<string>, j: int, k: string)
    requires ctx.Valid()
  {
    0 <= j < |pages| && PageOutcome(ctx, pages[j]).Ok? && PageOutcome(ctx, pages[j]).value.name == k
  }

  /** Page `j` is the last one named `k`. */
  ghost predicate LastNamedAt(ctx: Ctx, pages: seq<string>, j: int, k: string)
    requires ctx.Valid()
  {
    NamedAt(ctx, pages, j, k) && forall l :: j < l < |pages| ==> !NamedAt(ctx, pages, l, k)
  }

  /** One step of `parsePages`, success or failure. */
  lemma PagesUnfold(ctx: Ctx, pages: seq<string>, i: nat, entry: EntryMap, st: RunState)
    requires ctx.Valid() && i < |pages|
    ensures var o := PageOutcome(ctx, pages[i]);
      PagesFrom(ctx, pages, i, entry, st)
        == if o.Err? then Err(o.error)
           else PagesFrom(ctx, pages, i + 1, entry[o.value.name := Group(o.value.group)], Record(st, o.value.config))
  {
  }

  /** One step of `parsePages`, unfolded once. */
  lemma PagesStep(ctx: Ctx, pages: seq<string>, i: nat, entry: EntryMap, st: RunState)
    requires ctx.Valid() && i < |pages|
    requires PagesFrom(ctx, pages, i, entry, st).Ok?
    ensures PageOutcome(ctx, pages[i]).Ok?
    ensures var pe := PageOutcome(ctx, pages[i]).value;
      PagesFrom(ctx, pages, i, entry, st) == PagesFrom(ctx, pages, i + 1, entry[pe.name := Group(pe.group)], Record(st, pe.config))
  {
  }

  /** `parsePages` from `i` on succeeds exactly when every page from `i` on produces an entry. */
  lemma {:induction false} PagesFromOkIff(ctx: Ctx, pages: seq<string>, i: nat, entry: EntryMap, st: RunState)
    requires ctx.Valid() && i <= |pages|
    ensures PagesFrom(ctx, pages, i, entry, st).Ok? <==> forall j :: i <= j < |pages| ==> PageOutcome(ctx, pages[j]).Ok?
    decreases |pages| - i
  {
    if i < |pages| {
      PagesUnfold(ctx, pages, i, entry, st);
      var o := PageOutcome(ctx, pages[i]);
      if o.Ok? {
        PagesFromOkIff(ctx, pages, i + 1, entry[o.value.name := Group(o.value.group)], Record(st, o.value.config));
        if forall j :: i + 1 <= j < |pages| ==> PageOutcome(ctx, pages[j]).Ok? {
          forall j | i <= j < |pages| ensures PageOutcome(ctx, pages[j]).Ok? {
            if j > i {
              assert i + 1 <= j < |pages|;
            }
          }
        }
      }
    }
  }

  /** The names present after `parsePages` from `i` on are those of `entry` and of the pages from `i` on. */
  lemma {:induction false} PagesFromKeys(ctx: Ctx, pages: seq<string>, i: nat, entry: EntryMap, st: RunState, k: string)
    requires ctx.Valid() && i <= |pages|
    requires PagesFrom(ctx, pages, i, entry, st).Ok?
    ensures k in PagesFrom(ctx, pages, i, entry, st).value.0 <==> k in entry || exists j :: i <= j && NamedAt(ctx, pages, j, k)
    decreases |pages| - i
  {
    if i < |pages| {
      PagesStep(ctx, pages, i, entry, st);
      var pe := PageOutcome(ctx, pages[i]).value;
      var entry' := entry[pe.name := Group(pe.group)];
      PagesFromKeys(ctx, pages, i + 1, entry', Record(st, pe.config), k);
      assert NamedAt(ctx, pages, i, k) <==> k == pe.name;
      if exists j :: i <= j && NamedAt(ctx, pages, j, k) {
        var j :| i <= j && NamedAt(ctx, pages, j, k);
        if j != i {
          assert i + 1 <= j && NamedAt(ctx, pages, j, k);
        }
      }
    }
  }

  /** A name produced by some page from `i` on holds the group of the last such page; otherwise it keeps its value in `entry`. */
  lemma {:induction false} PagesFromLastWins(ctx: Ctx, pages: seq<string>, i: nat, entry: EntryMap, st: RunState, k: string)
    requires ctx.Valid() && i <= |pages|
    requires PagesFrom(ctx, pages, i, entry, st).Ok?
    requires k in PagesFrom(ctx, pages, i, entry, st).value.0
    ensures forall j :: i <= j && LastNamedAt(ctx, pages, j, k) ==>
      PagesFrom(ctx, pages, i, entry, st).value.0[k] == Group(PageOutcome(ctx, pages[j]).value.group)
    ensures (forall j :: i <= j ==> !NamedAt(ctx, pages, j, k)) && k in entry ==>
      PagesFrom(ctx, pages, i, entry, st).value.0[k] == entry[k]
    decreases |pages| - i
  {
    if i < |pages| {
      var pe := PageOutcome(ctx, pages[i]).value;
      var entry' := entry[pe.name := Group(pe.group)];
      var st' := Record(st, pe.config);
      var out := PagesFrom(ctx, pages, i, entry, st).value.0;
      PagesStep(ctx, pages, i, entry, st);
      PagesFromLastWins(ctx, pages, i + 1, entry', st', k);
      assert NamedAt(ctx, pages, i, pe.name);
      if k == pe.name && forall j :: i + 1 <= j ==> !NamedAt(ctx, pages, j, k) {
        assert out[k] == entry'[k];
      }
      forall j | i <= j && LastNamedAt(ctx, pages, j, k)
        ensures out[k] == Group(PageOutcome(ctx, pages[j]).value.group)
      {
        if j == i {
          assert forall l :: i + 1 <= l ==> !NamedAt(ctx, pages, l, k);
        }
      }
    }
  }

  /** Page `j` produces an entry that records config `y`. */
  ghost predicate RecordsAt(ctx: Ctx, pages: seq<string>, j: int, y: string)
    requires ctx.Valid()
  {
    0 <= j < |pages| && PageOutcome(ctx, pages[j]).Ok? && PageOutcome(ctx, pages[j]).value.config == Some(y)
  }

  /** The configs `parsePages` from `i` on records: those already discovered, and the config of each remaining page. */
  lemma {:induction false} PagesFromDiscovered(ctx: Ctx, pages: seq<string>, i: nat, entry: EntryMap, st: RunState, y: string)
    requires ctx.Valid() && i <= |pages|
    requires PagesFrom(ctx, pages, i, entry, st).Ok?
    ensures y in PagesFrom(ctx, pages, i, entry, st).value.1.discovered <==>
      y in st.discovered || exists j :: i <= j && RecordsAt(ctx, pages, j, y)
    decreases |pages| - i
  {
    if i < |pages| {
      PagesStep(ctx, pages, i, entry, st);
      var pe := PageOutcome(ctx, pages[i]).value;
      PagesFromDiscovered(ctx, pages, i + 1, entry[pe.name := Group(pe.group)], Record(st, pe.config), y);
      RecordMembers(st, pe.config, y);
      assert RecordsAt(ctx, pages, i, y) <==> pe.config == Some(y);
      if exists j :: i <= j && RecordsAt(ctx, pages, j, y) {
        var j :| i <= j && RecordsAt(ctx, pages, j, y);
        if j != i {
          assert i + 1 <= j && RecordsAt(ctx, pages, j, y);
        }
      }
    }
  }

  /**
    `parsePages` over an array: an entry exists for every name some page produces,
    and a name produced more than once holds the group of its last page.
   */
  lemma PagesLastOccurrenceWins(ctx: Ctx, pages: seq<string>, st: RunState, k: string)
    requires ctx.Valid()
    requires Pages(ctx, Some(pages), st).Ok?
    ensures forall j :: 0 <= j < |pages| ==> PageOutcome(ctx, pages[j]).Ok?
    ensures var out := Pages(ctx, Some(pages), st).value.0;
      && (k in out <==> exists j :: NamedAt(ctx, pages, j, k))
      && (forall j :: LastNamedAt(ctx, pages, j, k) ==> out[k] == Group(PageOutcome(ctx, pages[j]).value.group))
  {
    PagesFromOkIff(ctx, pages, 0, map[], st);
    PagesFromKeys(ctx, pages, 0, map[], st, k);
    if k in Pages(ctx, Some(pages), st).value.0 {
      PagesFromLastWins(ctx, pages, 0, map[], st, k);
    }
  }

  /** A value of `pages` that is not an array yields no entries and records nothing. */
  lemma NonArrayPagesYieldNothing(ctx: Ctx, st: RunState)
    requires ctx.Valid()
    ensures Pages(ctx, None, st) == Ok((map[], st))
  {
  }

  // ---------------------------------------------------------------- sub-packages

  function PageCount(sp: SubPackage): nat {
    if sp.pages.Some? then |sp.pages.value| else 0
  }

  /** The number of pages of the first `i` sub-packages. */
  function Offset(subs: seq<SubPackage>, i: nat): nat
    requires i <= |subs|
  {
    if i == 0 then 0 else PageCount(subs[0]) + Offset(subs[1..], i - 1)
  }

  /** Page `j` of sub-package `i` is named at its offset. */
  ghost predicate PlacedAt(ops: PathOps, subs: seq<SubPackage>, names: seq<string>, i: int, j: int)
    requires 0 <= i < |subs|
  {
    0 <= j < PageCount(subs[i]) ==>
      Offset(subs, i) + j < |names| && names[Offset(subs, i) + j] == ops.join([subs[i].root, subs[i].pages.value[j]])
  }

  /**
    Sub-package page names are `join(root, page)`, sub-package by sub-package and
    page by page; a sub-package whose `pages` is not an array makes it throw.
   */
  lemma {:induction false} SubPageNamesOrder(ops: PathOps, subs: seq<SubPackage>)
    ensures SubPageNames(ops, subs).Ok? <==> forall i :: 0 <= i < |subs| ==> subs[i].pages.Some?
    ensures SubPageNames(ops, subs).Ok? ==>
      && |SubPageNames(ops, subs).value| == Offset(subs, |subs|)
      && forall i, j :: 0 <= i < |subs| ==> PlacedAt(ops, subs, SubPageNames(ops, subs).value, i, j)
  {
    if |subs| > 0 {
      SubPageNamesOrder(ops, subs[1..]);
      if SubPageNames(ops, subs).Ok? {
        var names := SubPageNames(ops, subs).value;
        var ps := subs[0].pages.value;
        var rest := SubPageNames(ops, subs[1..]).value;
        assert names == JoinRoot(ops, subs[0].root, ps) + rest;
        assert Offset(subs, |subs|) == |ps| + Offset(subs[1..], |subs| - 1);
        forall i, j | 0 <= i < |subs| ensures PlacedAt(ops, subs, names, i, j) {
          if 0 <= j < PageCount(subs[i]) {
            if i == 0 {
              assert names[j] == JoinRoot(ops, subs[0].root, ps)[j];
            } else {
              assert subs[i] == subs[1..][i - 1];
              assert Offset(subs, i) + j == |ps| + (Offset(subs[1..], i - 1) + j);
              assert PlacedAt(ops, subs[1..], rest, i - 1, j);
              assert names[Offset(subs, i) + j] == rest[Offset(subs[1..], i - 1) + j];
            }
          }
        }
      }
      if forall i :: 0 <= i < |subs| ==> subs[i].pages.Some? {
        forall i | 0 <= i < |subs[1..]| ensures subs[1..][i].pages.Some? {
          assert subs[1..][i] == subs[i + 1];
        }
      }
    }
  }

  /** `parseApp` hands `subpackages` over unguarded: without an array there the root throws. */
  lemma MissingSubpackagesThrows(ctx: Ctx, root: string, st: RunState)
    requires ctx.Valid() && root in ctx.disk.manifests
    requires ctx.disk.manifests[root].subpackages.None?
    ensures ParseApp(ctx, root, st).Err?
  {
  }

  // ---------------------------------------------------------------- components

  /** A falsy user path yields no entries and records nothing. */
  lemma FalsyUserYieldsNothing(ctx: Ctx, refs: seq<string>, st: RunState)
    requires ctx.Valid()
    ensures Components(ctx, "", refs, st) == Ok((map[], st))
  {
  }

  /** The probe records the sibling `.json` of every path whose `.json` exists, and nothing else. */
  lemma {:induction false} ProbeRecordsExisting(ctx: Ctx, paths: seq<string>, i: nat, st: RunState, y: string)
    requires ctx.Valid() && i <= |paths|
    ensures y in ProbeFrom(ctx, paths, i, st).discovered <==>
      y in st.discovered
      || exists j :: i <= j < |paths| && y == AbsolutePath(ctx, paths[j] + ".json") && ctx.disk.fileExists(y)
    decreases |paths| - i
  {
    if i < |paths| {
      var c := AbsolutePath(ctx, paths[i] + ".json");
      ProbeRecordsExisting(ctx, paths, i + 1, Record(st, if ctx.disk.fileExists(c) then Some(c) else None), y);
    }
  }

  /** Components are the page entries of the resolved paths with repeats dropped. */
  lemma ComponentsArePagesOfKept(ctx: Ctx, user: string, refs: seq<string>, st: RunState)
    requires ctx.Valid() && user != ""
    ensures Components(ctx, user, refs, st).Ok? ==> ResolveAll(ctx, user, refs).Ok?
    ensures ResolveAll(ctx, user, refs).Ok? ==>
      var kept := Dedup(ResolveAll(ctx, user, refs).value);
      Components(ctx, user, refs, st) == Pages(ctx, Some(kept), ProbeFrom(ctx, kept, 0, st))
  {
  }

  /** A name has a component entry exactly when some resolved reference, kept once, produces it. */
  lemma ComponentKeys(ctx: Ctx, user: string, refs: seq<string>, st: RunState, k: string)
    requires ctx.Valid() && user != ""
    requires Components(ctx, user, refs, st).Ok?
    ensures ResolveAll(ctx, user, refs).Ok?
    ensures k in Components(ctx, user, refs, st).value.0 <==>
      exists j :: NamedAt(ctx, Dedup(ResolveAll(ctx, user, refs).value), j, k)
  {
    ComponentsArePagesOfKept(ctx, user, refs, st);
    var kept := Dedup(ResolveAll(ctx, user, refs).value);
    PagesLastOccurrenceWins(ctx, kept, ProbeFrom(ctx, kept, 0, st), k);
  }

  /** The `.json` beside every resolved path is recorded when it exists. */
  lemma ComponentConfigsRecorded(ctx: Ctx, user: string, refs: seq<string>, st: RunState, x: string)
    requires ctx.Valid() && user != ""
    requires Components(ctx, user, refs, st).Ok?
    ensures ResolveAll(ctx, user, refs).Ok?
    ensures x in ResolveAll(ctx, user, refs).value && ctx.disk.fileExists(AbsolutePath(ctx, x + ".json")) ==>
      AbsolutePath(ctx, x + ".json") in Components(ctx, user, refs, st).value.1.discovered
  {
    ComponentsArePagesOfKept(ctx, user, refs, st);
    var resolved := ResolveAll(ctx, user, refs).value;
    var kept := Dedup(resolved);
    var st' := ProbeFrom(ctx, kept, 0, st);
    var y := AbsolutePath(ctx, x + ".json");
    if x in resolved && ctx.disk.fileExists(y) {
      var j :| 0 <= j < |kept| && kept[j] == x;
      ProbeRecordsExisting(ctx, kept, 0, st, y);
      var out := Pages(ctx, Some(kept), st').value.1;
      var l :| 0 <= l < |st'.discovered| && st'.discovered[l] == y;
      assert out.discovered[l] == y;
    }
  }

  /**
    lib/index.js rewrites a reference its classifier calls a package to
    `node_modules` joined with the reference minus one leading `node_modules`;
    other references, and every reference in index.js, are only normalised.
   */
  lemma ReferenceRewriting(ctx: Ctx, reference: string)
    ensures ctx.variant == Lib && IsNodeModule(reference) ==>
      RewrittenReference(ctx, reference) == ctx.ops.normalize(ctx.ops.join([ModuleDirName, StripPrefix(reference, ModuleDirName)]))
    ensures ctx.variant == Lib && !IsNodeModule(reference) ==>
      RewrittenReference(ctx, reference) == ctx.ops.normalize(ctx.ops.normalize(reference))
    ensures ctx.variant == Legacy ==> RewrittenReference(ctx, reference) == ctx.ops.normalize(reference)
  {
  }

  /**
    lib/index.js resolves a rewritten package reference against the working
    directory on both ends, when the path helper recognises it.
   */
  lemma PackageReferenceAnchorsAtCwd(ctx: Ctx, user: string, reference: string)
    requires ctx.Valid() && ctx.variant == Lib
    requires var p := RewrittenReference(ctx, reference);
      && !StartsWith(p, "/")
      && ctx.ops.isNodeModuleInPath(p)
      && ctx.disk.fileExists(ctx.ops.cwd) && !ctx.disk.isFile(ctx.ops.cwd)
      && ctx.ops.isNodeModuleInPath(ctx.ops.join([ctx.ops.cwd, p]))
    ensures var p := RewrittenReference(ctx, reference);
      ResolveReference(ctx, user, reference) == Ok(ctx.ops.relative(ctx.ops.cwd, ctx.ops.join([ctx.ops.cwd, p])))
  {
  }

  /** A reference that rewrites to a root-relative path loses its leading separator and nothing else. */
  lemma RootRelativeReference(ctx: Ctx, user: string, reference: string)
    requires ctx.Valid() && StartsWith(RewrittenReference(ctx, reference), "/")
    ensures ResolveReference(ctx, user, reference) == Ok(RewrittenReference(ctx, reference)[1..])
  {
  }

  /**
    Any other reference is resolved from the directory of its user when that is an
    existing file, and made relative to the source root unless lib/index.js sees a
    node-module path.
   */
  lemma ReferenceFromUserFile(ctx: Ctx, user: string, reference: string)
    requires ctx.Valid()
    requires var p := RewrittenReference(ctx, reference);
      && !StartsWith(p, "/")
      && (ctx.variant == Legacy || !ctx.ops.isNodeModuleInPath(p))
      && ctx.ops.isAbsolute(user) && ctx.disk.fileExists(user) && ctx.disk.isFile(user)
    ensures var p := RewrittenReference(ctx, reference);
      var abs := ctx.ops.join([ctx.ops.dirname(user), p]);
      ResolveReference(ctx, user, reference)
        == Ok(ctx.ops.relative(if ctx.variant == Lib && ctx.ops.isNodeModuleInPath(abs) then ctx.ops.cwd else AbsolutePath(ctx, ""), abs))
  {
  }

  /**
    index.js resolves every reference that is not root-relative from the directory
    of its user, file or not, and makes it relative to the source root.
   */
  lemma LegacyReferenceFromUserDir(ctx: Ctx, user: string, reference: string)
    requires ctx.Valid() && ctx.variant == Legacy
    requires !StartsWith(ctx.ops.normalize(reference), "/")
    requires ctx.ops.isAbsolute(user) && ctx.disk.fileExists(user)
    ensures ResolveReference(ctx, user, reference)
      == Ok(ctx.ops.relative(AbsolutePath(ctx, ""), ctx.ops.join([ctx.ops.dirname(user), ctx.ops.normalize(reference)])))
  {
  }

  // ---------------------------------------------------------------- paths

  /** A reference starting with the separator resolves under the source root without its first `/`. */
  lemma LeadingSeparatorUnderSourceRoot(ctx: Ctx, base: string, p: string)
    requires ctx.Valid() && StartsWith(p, "/")
    ensures AbsolutePathWithBase(ctx, base, p) == Ok(ctx.ops.join([ctx.ops.cwd, SourceDir(ctx), p[1..]]))
  {
  }

  /** lib/index.js: a file base contributes its directory, a directory base itself. */
  lemma LibBaseFileOrDirectory(ctx: Ctx, base: string, p: string)
    requires ctx.Valid() && ctx.variant == Lib
    requires !StartsWith(p, "/") && !ctx.ops.isNodeModuleInPath(p)
    requires ctx.ops.isAbsolute(base) && ctx.disk.fileExists(base)
    ensures AbsolutePathWithBase(ctx, base, p)
      == Ok(if ctx.disk.isFile(base) then ctx.ops.join([ctx.ops.dirname(base), p]) else ctx.ops.join([base, p]))
  {
  }

  /** lib/index.js: a node-module path is anchored at the working directory, whatever the base. */
  lemma LibNodeModuleAnchorsAtCwd(ctx: Ctx, base: string, p: string)
    requires ctx.Valid() && ctx.variant == Lib
    requires !StartsWith(p, "/") && ctx.ops.isNodeModuleInPath(p)
    requires ctx.disk.fileExists(ctx.ops.cwd) && !ctx.disk.isFile(ctx.ops.cwd)
    ensures AbsolutePathWithBase(ctx, base, p) == Ok(ctx.ops.join([ctx.ops.cwd, p]))
  {
  }

  /** index.js: the base's directory is taken even when the base is a directory. */
  lemma LegacyAlwaysTakesDirname(ctx: Ctx, base: string, p: string)
    requires ctx.Valid() && ctx.variant == Legacy
    requires !StartsWith(p, "/") && ctx.ops.isAbsolute(base) && ctx.disk.fileExists(base)
    ensures AbsolutePathWithBase(ctx, base, p) == Ok(ctx.ops.join([ctx.ops.dirname(base), p]))
  {
  }

  /** `fs.statSync` on a missing base throws (a node-module path in lib/index.js is based at the working directory instead). */
  lemma MissingBaseThrows(ctx: Ctx, base: string, p: string)
    requires ctx.Valid() && (ctx.variant == Legacy || !ctx.ops.isNodeModuleInPath(p))
    requires !StartsWith(p, "/") && ctx.ops.isAbsolute(base) && !ctx.disk.fileExists(base)
    ensures AbsolutePathWithBase(ctx, base, p) == Err(StatFailed(base))
  {
  }

  // ---------------------------------------------------------------- merge precedence

  /**
    Within one root, the config pass's entries override the root's components, which
    override sub-package pages, which override main pages, which override the single
    app-stem path.
   */
  lemma RootEntryPrecedence(ctx: Ctx, root: string, st: RunState, k: string)
    requires ctx.Valid()
    requires RootEntry(ctx, root, st).Ok?
    ensures root in ctx.disk.manifests
    ensures var data := ctx.disk.manifests[root];
      var main := Pages(ctx, data.pages, st).value;
      var sub := SubPages(ctx, data.subpackages, main.1).value;
      var refs := if data.usingComponents.Some? then data.usingComponents.value else [];
      var comps := Components(ctx, ctx.ops.join([ctx.ops.cwd, root]), refs, sub.1).value;
      var pass := ConfigPass(ctx, comps.1).value;
      var app := AppEntry(ctx, root);
      var out := RootEntry(ctx, root, st).value.0;
      && (k in out <==> k in app || k in main.0 || k in sub.0 || k in comps.0 || k in pass.0)
      && (k in pass.0 ==> out[k] == pass.0[k])
      && (k !in pass.0 && k in comps.0 ==> out[k] == comps.0[k])
      && (k !in pass.0 && k !in comps.0 && k in sub.0 ==> out[k] == sub.0[k])
      && (k !in pass.0 && k !in comps.0 && k !in sub.0 && k in main.0 ==> out[k] == main.0[k])
      && (k !in pass.0 && k !in comps.0 && k !in sub.0 && k !in main.0 && k in app ==>
            out[k] == AppFile(ctx.ops.join([ctx.ops.cwd, root])))
  {
  }

  /** `{...m[0], ...m[1], ...}`: later maps override earlier ones. */
  function MergeAll(ms: seq<EntryMap>): EntryMap {
    if |ms| == 0 then map[] else MergeAll(ms[..|ms| - 1]) + ms[|ms| - 1]
  }

  lemma {:induction false} MergeAllCons(e: EntryMap, ms: seq<EntryMap>)
    ensures MergeAll([e] + ms) == e + MergeAll(ms)
    decreases |ms|
  {
    if |ms| > 0 {
      var last := ms[|ms| - 1];
      assert ([e] + ms)[..|ms|] == [e] + ms[..|ms| - 1];
      MergeAllCons(e, ms[..|ms| - 1]);
      assert (e + MergeAll(ms[..|ms| - 1])) + last == e + (MergeAll(ms[..|ms| - 1]) + last);
    } else {
      assert [e] + ms == [e];
      assert MergeAll([e]) == MergeAll([]) + e;
    }
  }

  /** A key is in the merge exactly when some map has it, and it takes the value of the last such map. */
  lemma {:induction false} MergeAllLastWins(ms: seq<EntryMap>, k: string)
    ensures k in MergeAll(ms) <==> exists i :: 0 <= i < |ms| && k in ms[i]
    ensures forall i :: 0 <= i < |ms| && k in ms[i] && (forall l :: i < l < |ms| ==> k !in ms[l]) ==>
      MergeAll(ms)[k] == ms[i][k]
    decreases |ms|
  {
    if |ms| > 0 {
      var init := ms[..|ms| - 1];
      MergeAllLastWins(init, k);
      assert forall i :: 0 <= i < |init| ==> init[i] == ms[i];
      if exists i :: 0 <= i < |ms| && k in ms[i] {
        var i :| 0 <= i < |ms| && k in ms[i];
        if i < |ms| - 1 {
          assert k in init[i];
        }
      }
    }
  }

  /** The entries of each root in order, the state threaded from one root to the next. */
  function RootEntries(ctx: Ctx, roots: seq<string>, st: RunState): Result<(seq<EntryMap>, RunState)>
    requires ctx.Valid()
  {
    if |roots| == 0 then Ok(([], st))
    else
      var first :- RootEntry(ctx, roots[0], st);
      var rest :- RootEntries(ctx, roots[1..], first.1);
      Ok(([first.0] + rest.0, rest.1))
  }

  /**
    `getAllEntry` processes the roots first to last, each from the state the previous
    one left, and its result is their merge in that order: later roots override earlier ones.
   */
  lemma {:induction false} AllEntryMergesRootsInOrder(ctx: Ctx, roots: seq<string>, st: RunState)
    requires ctx.Valid()
    ensures AllEntry(ctx, roots, st).Ok? <==> RootEntries(ctx, roots, st).Ok?
    ensures AllEntry(ctx, roots, st).Ok? ==>
      && AllEntry(ctx, roots, st).value.0 == MergeAll(RootEntries(ctx, roots, st).value.0)
      && AllEntry(ctx, roots, st).value.1 == RootEntries(ctx, roots, st).value.1
      && |RootEntries(ctx, roots, st).value.0| == |roots|
  {
    if |roots| > 0 {
      var first := RootEntry(ctx, roots[0], st);
      if first.Ok? {
        AllEntryMergesRootsInOrder(ctx, roots[1..], first.value.1);
        if RootEntries(ctx, roots[1..], first.value.1).Ok? {
          MergeAllCons(first.value.0, RootEntries(ctx, roots[1..], first.value.1).value.0);
        }
      }
    }
  }
}
