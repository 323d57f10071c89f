/**
  lib/utils/generateNodeModuleEntry.js: the entry of a component that lives
  in an installed package. The reference loses a leading `node_modules/`;
  its first segment names the module whose `package.json` files the matcher
  lists; the first listed descriptor that is not nested in another package
  and whose directory occurs in the reference owns it; the owner's
  `miniprogram` field (else the first of its `files`) is the entry directory.
  The group lists, relative to the working directory, the compiled script,
  template and `.json`, and the compiled style when that file exists.

  The source removes `moduleDir` and `/<entry dir>` with regular expressions
  built from those strings; here they are literal prefix strips, which agree
  as long as the two names hold no regular-expression metacharacter.

  `GenerateNodeModuleEntry` is the function as written. `RootOwnedEntry` is the
  same builder with the owner elected as the module's root, the surviving
  descriptor with the shortest directory, which the comment on the election
  names as the intended owner. The resolver in module Traversal uses the
  builder as written.
 */
module NodeModuleEntry {
  import opened StringUtil
  import opened Env
  import opened Classify
  import opened EntryNaming

  datatype ModuleEntry = ModuleEntry(entry: seq<string>, entryName: string, json: string)

  /** The normalised reference without one leading `node_modules/`. */
  function PathUrl(ops: PathOps, reference: string): (r: string)
    ensures StartsWith(ops.normalize(reference), ModulePrefix) ==> ops.normalize(reference) == ModulePrefix + r
    ensures !StartsWith(ops.normalize(reference), ModulePrefix) ==> r == ops.normalize(reference)
  {
    StripPrefix(ops.normalize(reference), ModulePrefix)
  }

  /** The first segment of the reference: the name the descriptor search is given. */
  function ModuleName(pathUrl: string): (r: string)
    ensures '/' !in r && StartsWith(pathUrl, r)
    ensures r == pathUrl || pathUrl[|r|] == '/'
  {
    FirstSegment(pathUrl)
  }

  /** A descriptor kept by both filters of the source. */
  predicate Survives(ops: PathOps, pathUrl: string, item: string) {
    !Includes(item, ModuleDirName) && Includes(pathUrl, ops.dirname(item))
  }

  /** `items.filter(not nested).filter(directory occurs in pathUrl)`. */
  function Survivors(ops: PathOps, pathUrl: string, items: seq<string>): (r: seq<string>)
    ensures forall x :: x in r <==> x in items && Survives(ops, pathUrl, x)
    ensures |r| > 0 ==>
      exists k :: 0 <= k < |items| && items[k] == r[0] && forall j :: 0 <= j < k ==> !Survives(ops, pathUrl, items[j])
  {
    if |items| == 0 then []
    else
      var rest := Survivors(ops, pathUrl, items[1..]);
      if !Survives(ops, pathUrl, items[0]) then
        assert |rest| > 0 ==>
          exists k :: 0 <= k < |items| && items[k] == rest[0] && forall j :: 0 <= j < k ==> !Survives(ops, pathUrl, items[j]) by {
          if |rest| > 0 {
            var k :| 0 <= k < |items[1..]| && items[1..][k] == rest[0]
              && forall j :: 0 <= j < k ==> !Survives(ops, pathUrl, items[1..][j]);
            assert items[k + 1] == rest[0];
          }
        }
        rest
      else
        assert items[0] == ([items[0]] + rest)[0];
        [items[0]] + rest
  }

  /** The owning descriptor: the first survivor in matcher order. */
  function Owner(ops: PathOps, disk: Disk, pathUrl: string): (r: Option<string>)
    ensures var items := disk.globPackageJson(ModuleName(pathUrl));
      && (r.None? <==> forall x :: x in items ==> !Survives(ops, pathUrl, x))
      && (r.Some? ==> Survives(ops, pathUrl, r.value))
      && (r.Some? ==>
            exists k :: 0 <= k < |items| && items[k] == r.value && forall j :: 0 <= j < k ==> !Survives(ops, pathUrl, items[j]))
  {
    var survivors := Survivors(ops, pathUrl, disk.globPackageJson(ModuleName(pathUrl)));
    if |survivors| == 0 then None
    else
      assert survivors[0] in survivors;
      Some(survivors[0])
  }

  /** `pkg.miniprogram || pkg.files[0]`; `None` where the source throws. */
  function EntryDir(pkg: Descriptor): (r: Option<string>)
    ensures r.None? <==> (pkg.miniprogram.None? || pkg.miniprogram.value == "") && (pkg.files.None? || pkg.files.value == [])
    ensures r.Some? && r != pkg.miniprogram ==> pkg.files.Some? && |pkg.files.value| > 0 && r.value == pkg.files.value[0]
  {
    if pkg.miniprogram.Some? && pkg.miniprogram.value != "" then Some(pkg.miniprogram.value)
    else if pkg.files.Some? && |pkg.files.value| > 0 then Some(pkg.files.value[0])
    else None
  }

  /** The reference with a leading module directory, then a leading `/<entry dir>`, removed. */
  function Remainder(pathUrl: string, moduleDir: string, entryDir: string): (r: string)
    ensures StartsWith(pathUrl, moduleDir + "/" + entryDir) ==> pathUrl == moduleDir + "/" + entryDir + r
    ensures !StartsWith(pathUrl, moduleDir) && !StartsWith(pathUrl, "/" + entryDir) ==> r == pathUrl
  {
    var s := StripPrefix(pathUrl, moduleDir);
    assert StartsWith(pathUrl, moduleDir + "/" + entryDir) ==> s == pathUrl[|moduleDir|..] && StartsWith(s, "/" + entryDir) by {
      if StartsWith(pathUrl, moduleDir + "/" + entryDir) {
        var full := moduleDir + "/" + entryDir;
        assert pathUrl[..|moduleDir|] == full[..|moduleDir|] == moduleDir;
        assert pathUrl[|moduleDir|..][..|"/" + entryDir|] == full[|moduleDir|..] == "/" + entryDir;
      }
    }
    StripPrefix(s, "/" + entryDir)
  }

  /** The location of the owner's descriptor. */
  function DescriptorPath(ops: PathOps, owner: string): string {
    ops.join([ops.cwd, ModuleDirName, owner])
  }

  /** Lines 39-78 once the owner is known. */
  function BuildWithOwner(ops: PathOps, disk: Disk, pathUrl: string, owner: string, compiled: Suffixes): (r: Result<ModuleEntry>)
    ensures r.Err? <==> DescriptorPath(ops, owner) !in disk.descriptors || EntryDir(disk.descriptors[DescriptorPath(ops, owner)]).None?
    ensures r.Ok? ==> 3 <= |r.value.entry| <= 4 && r.value.json == ops.join([ops.cwd, r.value.entry[2]])
  {
    var moduleDir := ops.dirname(owner);
    var pkgPath := DescriptorPath(ops, owner);
    if pkgPath !in disk.descriptors then Err(ReadFailed(pkgPath))
    else
      match EntryDir(disk.descriptors[pkgPath])
      case None => Err(NoEntryDir(pkgPath))
      case Some(entryDir) =>
        var rest := Remainder(pathUrl, moduleDir, entryDir);
        var base := ModulePrefix + ops.join([moduleDir, entryDir, rest]);
        var group := [base + "." + compiled.js, base + "." + compiled.xml, base + ".json"];
        var style := base + "." + compiled.css;
        Ok(ModuleEntry(
          if disk.fileExists(ops.join([ops.cwd, style])) then group + [style] else group,
          ops.join([moduleDir, rest]),
          ops.join([ops.cwd, base + ".json"])))
  }

  function GenerateNodeModuleEntry(ops: PathOps, disk: Disk, pagePath: string, compiled: Suffixes): (r: Result<ModuleEntry>)
    ensures Owner(ops, disk, PathUrl(ops, pagePath)).None? ==> r == Err(NoOwnerPackage(PathUrl(ops, pagePath)))
    ensures r.Ok? ==> 3 <= |r.value.entry| <= 4 && r.value.json == ops.join([ops.cwd, r.value.entry[2]])
  {
    var pathUrl := PathUrl(ops, pagePath);
    match Owner(ops, disk, pathUrl)
    case None => Err(NoOwnerPackage(pathUrl))
    case Some(owner) => BuildWithOwner(ops, disk, pathUrl, owner, compiled)
  }

  /** Once the owner is known, the builder is `BuildWithOwner` for it. */
  lemma GenerateWithOwner(ops: PathOps, disk: Disk, pagePath: string, owner: string, compiled: Suffixes)
    requires Owner(ops, disk, PathUrl(ops, pagePath)) == Some(owner)
    ensures GenerateNodeModuleEntry(ops, disk, pagePath, compiled) == BuildWithOwner(ops, disk, PathUrl(ops, pagePath), owner, compiled)
  {
  }

  /** The builder fails exactly when no owner survives, its descriptor is unreadable, or it names no entry directory. */
  lemma NodeModuleEntryFailures(ops: PathOps, disk: Disk, pagePath: string, compiled: Suffixes)
    ensures var pathUrl := PathUrl(ops, pagePath);
      var r := GenerateNodeModuleEntry(ops, disk, pagePath, compiled);
      var o := Owner(ops, disk, pathUrl);
      && (o.None? ==> r == Err(NoOwnerPackage(pathUrl)))
      && (o.Some? && DescriptorPath(ops, o.value) !in disk.descriptors ==> r == Err(ReadFailed(DescriptorPath(ops, o.value))))
      && (o.Some? && DescriptorPath(ops, o.value) in disk.descriptors ==>
            var pkg := disk.descriptors[DescriptorPath(ops, o.value)];
            (r.Err? <==> (pkg.miniprogram.None? || pkg.miniprogram.value == "") && (pkg.files.None? || pkg.files.value == [])))
  {
  }

  /** The entry directory is `miniprogram` when it is non-empty and the first of `files` otherwise. */
  lemma EntryDirChoice(pkg: Descriptor)
    ensures pkg.miniprogram.Some? && pkg.miniprogram.value != "" ==> EntryDir(pkg) == pkg.miniprogram
    ensures (pkg.miniprogram.None? || pkg.miniprogram.value == "") && pkg.files.Some? && |pkg.files.value| > 0
      ==> EntryDir(pkg) == Some(pkg.files.value[0])
  {
  }

  /**
    A successful entry is three or four paths relative to the working directory:
    compiled script, compiled template and `.json` of one base path, and the compiled
    style exactly when it exists; `json` is the working-directory form of the third.
   */
  lemma NodeModuleGroupShape(ops: PathOps, disk: Disk, pathUrl: string, owner: string, compiled: Suffixes)
    requires BuildWithOwner(ops, disk, pathUrl, owner, compiled).Ok?
    ensures var m := BuildWithOwner(ops, disk, pathUrl, owner, compiled).value;
      && 3 <= |m.entry| <= 4
      && (forall i :: 0 <= i < |m.entry| ==> StartsWith(m.entry[i], ModulePrefix))
      && (exists base :: && m.entry[..3] == [ModulePrefix + base + "." + compiled.js,
                                               ModulePrefix + base + "." + compiled.xml,
                                               ModulePrefix + base + ".json"]
                          && (|m.entry| == 4 <==> disk.fileExists(ops.join([ops.cwd, ModulePrefix + base + "." + compiled.css])))
                          && (|m.entry| == 4 ==> m.entry[3] == ModulePrefix + base + "." + compiled.css))
      && m.json == ops.join([ops.cwd, m.entry[2]])
  {
    var m := BuildWithOwner(ops, disk, pathUrl, owner, compiled).value;
    var moduleDir := ops.dirname(owner);
    var entryDir := EntryDir(disk.descriptors[DescriptorPath(ops, owner)]).value;
    var base := ops.join([moduleDir, entryDir, Remainder(pathUrl, moduleDir, entryDir)]);
    forall i | 0 <= i < |m.entry| ensures StartsWith(m.entry[i], ModulePrefix) {
      assert m.entry[i][..|ModulePrefix|] == ModulePrefix;
    }
    assert m.entry[..3] == [ModulePrefix + base + "." + compiled.js,
                            ModulePrefix + base + "." + compiled.xml,
                            ModulePrefix + base + ".json"];
  }

  /**
    For one owner, a reference that spells out the entry directory after the module
    directory and one that leaves it out produce the same entry: same name, and a
    real path that holds the entry directory exactly once.
   */
  lemma {:induction false} BuildIgnoresEntryDirSpelling(ops: PathOps, disk: Disk, owner: string, rest: string, compiled: Suffixes)
    requires DescriptorPath(ops, owner) in disk.descriptors
    requires EntryDir(disk.descriptors[DescriptorPath(ops, owner)]).Some?
    requires !StartsWith(rest, "/" + EntryDir(disk.descriptors[DescriptorPath(ops, owner)]).value)
    ensures var moduleDir := ops.dirname(owner);
      var entryDir := EntryDir(disk.descriptors[DescriptorPath(ops, owner)]).value;
      var short := BuildWithOwner(ops, disk, moduleDir + rest, owner, compiled);
      var long := BuildWithOwner(ops, disk, moduleDir + "/" + entryDir + rest, owner, compiled);
      && short == long
      && short.Ok?
      && short.value.entryName == ops.join([moduleDir, rest])
      && short.value.entry[2] == ModulePrefix + ops.join([moduleDir, entryDir, rest]) + ".json"
  {
    var moduleDir := ops.dirname(owner);
    var entryDir := EntryDir(disk.descriptors[DescriptorPath(ops, owner)]).value;
    assert (moduleDir + rest)[..|moduleDir|] == moduleDir;
    assert (moduleDir + rest)[|moduleDir|..] == rest;
    assert Remainder(moduleDir + rest, moduleDir, entryDir) == rest;
    var long := moduleDir + "/" + entryDir + rest;
    assert long == moduleDir + (("/" + entryDir) + rest);
    assert long[..|moduleDir|] == moduleDir;
    assert long[|moduleDir|..] == ("/" + entryDir) + rest;
    assert (("/" + entryDir) + rest)[..|"/" + entryDir|] == "/" + entryDir;
    assert (("/" + entryDir) + rest)[|"/" + entryDir|..] == rest;
    assert Remainder(long, moduleDir, entryDir) == rest;
  }

  /**
    Two page references, one spelling out the entry directory after the module directory
    and one leaving it out, build the same entry when both elect the same owner. The
    owner is elected per reference, so the election may differ (`OwnerDependsOnSpelling`).
   */
  lemma EntryDirSpellingIrrelevant(ops: PathOps, disk: Disk, short: string, long: string, owner: string, rest: string, compiled: Suffixes)
    requires Owner(ops, disk, PathUrl(ops, short)) == Some(owner)
    requires Owner(ops, disk, PathUrl(ops, long)) == Some(owner)
    requires DescriptorPath(ops, owner) in disk.descriptors
    requires EntryDir(disk.descriptors[DescriptorPath(ops, owner)]).Some?
    requires PathUrl(ops, short) == ops.dirname(owner) + rest
    requires PathUrl(ops, long) == ops.dirname(owner) + "/" + EntryDir(disk.descriptors[DescriptorPath(ops, owner)]).value + rest
    requires !StartsWith(rest, "/" + EntryDir(disk.descriptors[DescriptorPath(ops, owner)]).value)
    ensures var moduleDir := ops.dirname(owner);
      var entryDir := EntryDir(disk.descriptors[DescriptorPath(ops, owner)]).value;
      var a := GenerateNodeModuleEntry(ops, disk, short, compiled);
      && a == GenerateNodeModuleEntry(ops, disk, long, compiled)
      && a.Ok?
      && a.value.entryName == ops.join([moduleDir, rest])
      && a.value.entry[2] == ModulePrefix + ops.join([moduleDir, entryDir, rest]) + ".json"
  {
    BuildIgnoresEntryDirSpelling(ops, disk, owner, rest, compiled);
  }

  /**
    With two surviving descriptors the first one listed owns the reference, whatever
    the lengths of their directories.
   */
  lemma OwnerIsFirstSurvivorNotShortest(ops: PathOps, disk: Disk, pathUrl: string, first: string, second: string)
    requires disk.globPackageJson(ModuleName(pathUrl)) == [first, second]
    requires Survives(ops, pathUrl, first) && Survives(ops, pathUrl, second)
    ensures Owner(ops, disk, pathUrl) == Some(first)
  {
    var items := disk.globPackageJson(ModuleName(pathUrl));
    var o := Owner(ops, disk, pathUrl);
    assert first in items;
    var k :| 0 <= k < |items| && items[k] == o.value && forall j :: 0 <= j < k ==> !Survives(ops, pathUrl, items[j]);
    assert k == 0;
  }

  // ---------------------------------------------------------------- two quirks of the builder

  /** A host's `path.join`: parts separated by one `/`, the leading `/` of a later part dropped. */
  function JoinSlash(parts: seq<string>): string {
    if |parts| == 0 then ""
    else if |parts| == 1 then parts[0]
    else parts[0] + "/" + StripPrefix(JoinSlash(parts[1..]), "/")
  }

  /** The directories of the two descriptors of the example host. */
  function VantDirname(p: string): string {
    if p == "vant/lib/package.json" then "vant/lib"
    else if p == "vant/package.json" then "vant"
    else "."
  }

  /**
    A host with one module, `vant`, whose matcher lists a nested `vant/lib/package.json`
    before the root `vant/package.json`; both descriptors name `lib` as entry directory.
   */
  const VantOps := PathOps("/app", JoinSlash, p => p, (from, to) => to, VantDirname, p => p, p => false, p => false)
  const VantDisk := Disk(
    p => false, p => false, map[],
    map["/app" + "/" + ModuleDirName + "/" + "vant/lib/package.json" := Descriptor(Some("lib"), None),
        "/app" + "/" + ModuleDirName + "/" + "vant/package.json" := Descriptor(Some("lib"), None)],
    patterns => [],
    name => ["vant/lib/package.json", "vant/package.json"])

  /** A string that lacks one of the characters of `t` does not include `t`. */
  lemma {:induction false} MissingCharExcludes(s: string, t: string, c: char)
    requires c in t && c !in s
    ensures !Includes(s, t)
    decreases |s|
  {
    if |s| > 0 {
      assert forall x :: x in s[1..] ==> x in s;
      MissingCharExcludes(s[1..], t, c);
    }
  }

  /** `vant/lib/package.json` is outside every nested `node_modules` directory. */
  lemma VantNestedNotNested()
    ensures !Includes("vant/lib/package.json", ModuleDirName)
  {
    assert ModuleDirName[4] == '_';
    MissingCharExcludes("vant/lib/package.json", ModuleDirName, '_');
  }

  /** `vant/package.json` is outside every nested `node_modules` directory. */
  lemma VantRootNotNested()
    ensures !Includes("vant/package.json", ModuleDirName)
  {
    assert ModuleDirName[4] == '_';
    MissingCharExcludes("vant/package.json", ModuleDirName, '_');
  }

  /** The survivors of a two-element descriptor list. */
  lemma SurvivorsOfTwo(ops: PathOps, pathUrl: string, x: string, y: string)
    ensures Survivors(ops, pathUrl, [x, y])
      == (if Survives(ops, pathUrl, x) then [x] else []) + (if Survives(ops, pathUrl, y) then [y] else [])
  {
    assert [x, y][1..] == [y];
    assert [y][1..] == [];
  }

  lemma StartIncludes(s: string, t: string)
    requires StartsWith(s, t)
    ensures Includes(s, t)
  {
  }

  /** Both descriptors survive for a reference of which both directories are part. */
  lemma BothSurvive(ops: PathOps, pathUrl: string, x: string, y: string)
    requires Survives(ops, pathUrl, x) && Survives(ops, pathUrl, y)
    ensures Survivors(ops, pathUrl, [x, y]) == [x, y]
  {
    SurvivorsOfTwo(ops, pathUrl, x, y);
  }

  lemma SecondSurvives(ops: PathOps, pathUrl: string, x: string, y: string)
    requires !Survives(ops, pathUrl, x) && Survives(ops, pathUrl, y)
    ensures Survivors(ops, pathUrl, [x, y]) == [y]
  {
    SurvivorsOfTwo(ops, pathUrl, x, y);
  }

  /** The owner is the first of the survivors the matcher's list leaves. */
  lemma OwnerOfSurvivors(ops: PathOps, disk: Disk, pathUrl: string, items: seq<string>, kept: seq<string>)
    requires disk.globPackageJson(ModuleName(pathUrl)) == items
    requires Survivors(ops, pathUrl, items) == kept && |kept| > 0
    ensures Owner(ops, disk, pathUrl) == Some(kept[0])
  {
  }

  lemma VantNestedDirname()
    ensures VantOps.dirname("vant/lib/package.json") == "vant/lib"
  {
  }

  lemma VantRootDirname()
    ensures VantOps.dirname("vant/package.json") == "vant"
  {
    assert |"vant/package.json"| != |"vant/lib/package.json"|;
  }

  lemma VantNestedSurvivesLong()
    ensures Survives(VantOps, "vant/lib/button", "vant/lib/package.json")
  {
    VantNestedNotNested();
    VantNestedDirname();
    assert "vant/lib/button"[..8] == "vant/lib";
    StartIncludes("vant/lib/button", "vant/lib");
  }

  lemma VantRootSurvivesLong()
    ensures Survives(VantOps, "vant/lib/button", "vant/package.json")
  {
    VantRootNotNested();
    VantRootDirname();
    assert "vant/lib/button"[..4] == "vant";
    StartIncludes("vant/lib/button", "vant");
  }

  lemma VantNestedDroppedShort()
    ensures !Survives(VantOps, "vant/button", "vant/lib/package.json")
  {
    MissingCharExcludes("vant/button", "vant/lib", 'l');
  }

  lemma VantRootSurvivesShort()
    ensures Survives(VantOps, "vant/button", "vant/package.json")
  {
    VantRootNotNested();
    VantRootDirname();
    assert "vant/button"[..4] == "vant";
    StartIncludes("vant/button", "vant");
  }

  /** The descriptors of the example host that survive for `vant/lib/button`: both. */
  lemma VantLongSurvivors()
    ensures Survivors(VantOps, "vant/lib/button", ["vant/lib/package.json", "vant/package.json"])
      == ["vant/lib/package.json", "vant/package.json"]
  {
    VantNestedSurvivesLong();
    VantRootSurvivesLong();
    BothSurvive(VantOps, "vant/lib/button", "vant/lib/package.json", "vant/package.json");
  }

  /** The descriptors of the example host that survive for `vant/button`: only the root one. */
  lemma VantShortSurvivors()
    ensures Survivors(VantOps, "vant/button", ["vant/lib/package.json", "vant/package.json"]) == ["vant/package.json"]
  {
    VantNestedDroppedShort();
    VantRootSurvivesShort();
    SecondSurvives(VantOps, "vant/button", "vant/lib/package.json", "vant/package.json");
  }

  lemma VantLongOwner()
    ensures Owner(VantOps, VantDisk, "vant/lib/button") == Some("vant/lib/package.json")
  {
    VantLongSurvivors();
    OwnerOfSurvivors(VantOps, VantDisk, "vant/lib/button",
      ["vant/lib/package.json", "vant/package.json"], ["vant/lib/package.json", "vant/package.json"]);
  }

  lemma VantShortOwner()
    ensures Owner(VantOps, VantDisk, "vant/button") == Some("vant/package.json")
  {
    VantShortSurvivors();
    OwnerOfSurvivors(VantOps, VantDisk, "vant/button", ["vant/lib/package.json", "vant/package.json"], ["vant/package.json"]);
  }

  /** The paths `node_modules/vant/lib/button` and `node_modules/vant/button` lose `node_modules/`. */
  lemma VantPathUrls()
    ensures PathUrl(VantOps, "node_modules/vant/lib/button") == "vant/lib/button"
    ensures PathUrl(VantOps, "node_modules/vant/button") == "vant/button"
  {
    assert "node_modules/vant/lib/button"[..13] == ModulePrefix;
    assert "node_modules/vant/lib/button"[13..] == "vant/lib/button";
    assert "node_modules/vant/button"[..13] == ModulePrefix;
    assert "node_modules/vant/button"[13..] == "vant/button";
  }

  lemma JoinTwo(a: string, b: string)
    ensures JoinSlash([a, b]) == a + "/" + StripPrefix(b, "/")
  {
    assert [a, b][1..] == [b];
  }

  lemma JoinThree(a: string, b: string, c: string)
    ensures JoinSlash([a, b, c]) == a + "/" + StripPrefix(b + "/" + StripPrefix(c, "/"), "/")
  {
    assert [a, b, c][1..] == [b, c];
    JoinTwo(b, c);
  }

  /** A successful build, unfolded once. */
  lemma BuildUnfold(ops: PathOps, disk: Disk, pathUrl: string, owner: string, entryDir: string, compiled: Suffixes)
    requires DescriptorPath(ops, owner) in disk.descriptors
    requires EntryDir(disk.descriptors[DescriptorPath(ops, owner)]) == Some(entryDir)
    ensures var r := BuildWithOwner(ops, disk, pathUrl, owner, compiled);
      var rest := Remainder(pathUrl, ops.dirname(owner), entryDir);
      && r.Ok?
      && r.value.entryName == ops.join([ops.dirname(owner), rest])
      && r.value.entry[2] == ModulePrefix + ops.join([ops.dirname(owner), entryDir, rest]) + ".json"
  {
  }

  /** `JoinSlash([a, b, c])` when neither `b` nor `c` starts with a separator. */
  lemma JoinThreePlain(a: string, b: string, c: string)
    requires |b| > 0 && b[0] != '/' && !StartsWith(c, "/")
    ensures JoinSlash([a, b, c]) == a + "/" + b + "/" + c
  {
    JoinThree(a, b, c);
    assert (b + "/" + c)[0] == b[0];
  }

  /** Where the example host keeps the descriptor of an owner that does not start with a separator. */
  lemma VantDescriptorPath(owner: string)
    requires !StartsWith(owner, "/")
    ensures DescriptorPath(VantOps, owner) == "/app" + "/" + ModuleDirName + "/" + owner
  {
    JoinThreePlain("/app", ModuleDirName, owner);
  }

  /** Both descriptors of the example host are readable and name `lib`. */
  lemma VantDescriptors(owner: string)
    requires owner == "vant/lib/package.json" || owner == "vant/package.json"
    ensures DescriptorPath(VantOps, owner) in VantDisk.descriptors
    ensures EntryDir(VantDisk.descriptors[DescriptorPath(VantOps, owner)]) == Some("lib")
  {
    if owner == "vant/lib/package.json" {
      assert "vant/lib/package.json"[..1] == "v";
      VantDescriptorPath("vant/lib/package.json");
    } else {
      assert "vant/package.json"[..1] == "v";
      VantDescriptorPath("vant/package.json");
    }
  }

  /** With a remainder of `/button`, the example host names the entry and places its `.json`. */
  lemma VantJoins(moduleDir: string)
    ensures JoinSlash([moduleDir, "/button"]) == moduleDir + "/button"
    ensures JoinSlash([moduleDir, "lib", "/button"]) == moduleDir + "/lib/button"
  {
    JoinTwo(moduleDir, "/button");
    assert "/button"[..1] == "/";
    assert StripPrefix("/button", "/") == "button";
    JoinThree(moduleDir, "lib", "/button");
    assert !StartsWith("lib/button", "/") by { assert "lib/button"[..1] == "l"; }
  }

  /** Stripping the module directory `d` from `d + "/button"` leaves `/button`, which keeps it past `/lib`. */
  lemma ButtonRemainder(moduleDir: string)
    ensures Remainder(moduleDir + "/button", moduleDir, "lib") == "/button"
  {
    assert (moduleDir + "/button")[..|moduleDir|] == moduleDir;
    assert (moduleDir + "/button")[|moduleDir|..] == "/button";
    assert !StartsWith("/button", "/lib") by { assert "/button"[1] == 'b' && "/lib"[1] == 'l'; }
  }

  lemma VantLongGenerate(compiled: Suffixes)
    ensures GenerateNodeModuleEntry(VantOps, VantDisk, "node_modules/vant/lib/button", compiled)
      == BuildWithOwner(VantOps, VantDisk, "vant/lib/button", "vant/lib/package.json", compiled)
  {
    VantLongOwner();
    VantPathUrls();
    GenerateWithOwner(VantOps, VantDisk, "node_modules/vant/lib/button", "vant/lib/package.json", compiled);
  }

  lemma VantShortGenerate(compiled: Suffixes)
    ensures GenerateNodeModuleEntry(VantOps, VantDisk, "node_modules/vant/button", compiled)
      == BuildWithOwner(VantOps, VantDisk, "vant/button", "vant/package.json", compiled)
  {
    VantShortOwner();
    VantPathUrls();
    GenerateWithOwner(VantOps, VantDisk, "node_modules/vant/button", "vant/package.json", compiled);
  }

  lemma VantNestedBuild(compiled: Suffixes)
    ensures var e := BuildWithOwner(VantOps, VantDisk, "vant/lib/button", "vant/lib/package.json", compiled);
      e.Ok? && e.value.entryName == "vant/lib" + "/button" && e.value.entry[2] == ModulePrefix + ("vant/lib" + "/lib/button") + ".json"
  {
    ButtonRemainder("vant/lib");
    assert "vant/lib" + "/button" == "vant/lib/button";
    VantBuildAt("vant/lib/button", "vant/lib/package.json", "vant/lib", compiled);
  }

  lemma VantLongEntry(compiled: Suffixes)
    ensures var long := GenerateNodeModuleEntry(VantOps, VantDisk, "node_modules/vant/lib/button", compiled);
      && long.Ok?
      && long.value.entryName == "vant/lib" + "/button"
      && long.value.entry[2] == ModulePrefix + ("vant/lib" + "/lib/button") + ".json"
  {
    VantLongGenerate(compiled);
    VantNestedBuild(compiled);
  }

  lemma VantShortEntry(compiled: Suffixes)
    ensures var short := GenerateNodeModuleEntry(VantOps, VantDisk, "node_modules/vant/button", compiled);
      && short.Ok?
      && short.value.entryName == "vant" + "/button"
      && short.value.entry[2] == ModulePrefix + ("vant" + "/lib/button") + ".json"
  {
    VantShortGenerate(compiled);
    VantRootBuilds(compiled);
  }

  /**
    The owner is the first survivor, so it depends on how the reference is spelled:
    `node_modules/vant/lib/button` elects the nested `vant/lib` and builds its entry
    under `vant/lib/lib`, doubling the entry directory that lines 51-54 set out to
    remove, while `node_modules/vant/button` elects `vant`. The two entry names differ.
   */
  lemma OwnerDependsOnSpelling(compiled: Suffixes)
    ensures Owner(VantOps, VantDisk, "vant/lib/button") == Some("vant/lib/package.json")
    ensures Owner(VantOps, VantDisk, "vant/button") == Some("vant/package.json")
    ensures var long := GenerateNodeModuleEntry(VantOps, VantDisk, "node_modules/vant/lib/button", compiled);
      var short := GenerateNodeModuleEntry(VantOps, VantDisk, "node_modules/vant/button", compiled);
      && long.Ok? && short.Ok?
      && long.value.entryName == "vant/lib" + "/button"
      && long.value.entry[2] == ModulePrefix + ("vant/lib" + "/lib/button") + ".json"
      && short.value.entryName == "vant" + "/button"
      && short.value.entry[2] == ModulePrefix + ("vant" + "/lib/button") + ".json"
      && long.value.entryName != short.value.entryName
  {
    VantLongOwner();
    VantShortOwner();
    VantLongEntry(compiled);
    VantShortEntry(compiled);
  }

  /** The survivor with the shortest directory, the first such in matcher order: the module's root. */
  function RootSurvivor(ops: PathOps, pathUrl: string, items: seq<string>): (r: Option<string>)
    ensures r.None? <==> forall x :: x in items ==> !Survives(ops, pathUrl, x)
    ensures r.Some? ==> r.value in items && Survives(ops, pathUrl, r.value)
    ensures r.Some? ==> forall x :: x in items && Survives(ops, pathUrl, x) ==> |ops.dirname(r.value)| <= |ops.dirname(x)|
  {
    if |items| == 0 then None
    else
      var rest := RootSurvivor(ops, pathUrl, items[1..]);
      assert forall x :: x in items ==> x == items[0] || x in items[1..];
      if !Survives(ops, pathUrl, items[0]) then rest
      else if rest.Some? && |ops.dirname(rest.value)| < |ops.dirname(items[0])| then rest
      else Some(items[0])
  }

  /** The owner elected as the module's root directory, which the comment at line 38 names. */
  function RootOwner(ops: PathOps, disk: Disk, pathUrl: string): Option<string> {
    RootSurvivor(ops, pathUrl, disk.globPackageJson(ModuleName(pathUrl)))
  }

  /** The builder with the owner elected as the module's root. */
  function RootOwnedEntry(ops: PathOps, disk: Disk, pagePath: string, compiled: Suffixes): (r: Result<ModuleEntry>)
    ensures RootOwner(ops, disk, PathUrl(ops, pagePath)).None? <==> Owner(ops, disk, PathUrl(ops, pagePath)).None?
    ensures RootOwner(ops, disk, PathUrl(ops, pagePath)).None? ==> r == Err(NoOwnerPackage(PathUrl(ops, pagePath)))
    ensures r.Ok? ==> 3 <= |r.value.entry| <= 4 && r.value.json == ops.join([ops.cwd, r.value.entry[2]])
  {
    var pathUrl := PathUrl(ops, pagePath);
    match RootOwner(ops, disk, pathUrl)
    case None => Err(NoOwnerPackage(pathUrl))
    case Some(owner) => BuildWithOwner(ops, disk, pathUrl, owner, compiled)
  }

  lemma RootOwnedWithOwner(ops: PathOps, disk: Disk, pagePath: string, owner: string, compiled: Suffixes)
    requires RootOwner(ops, disk, PathUrl(ops, pagePath)) == Some(owner)
    ensures RootOwnedEntry(ops, disk, pagePath, compiled) == BuildWithOwner(ops, disk, PathUrl(ops, pagePath), owner, compiled)
  {
  }

  /** Of two survivors, the root election takes the one with the strictly shorter directory. */
  lemma RootOfTwo(ops: PathOps, pathUrl: string, x: string, y: string)
    requires Survives(ops, pathUrl, x) && Survives(ops, pathUrl, y)
    requires |ops.dirname(y)| < |ops.dirname(x)|
    ensures RootSurvivor(ops, pathUrl, [x, y]) == Some(y)
  {
    assert [x, y][1..] == [y];
    assert [y][1..] == [];
  }

  lemma RootOfSecond(ops: PathOps, pathUrl: string, x: string, y: string)
    requires !Survives(ops, pathUrl, x) && Survives(ops, pathUrl, y)
    ensures RootSurvivor(ops, pathUrl, [x, y]) == Some(y)
  {
    assert [x, y][1..] == [y];
    assert [y][1..] == [];
  }

  lemma RootOwnerOf(ops: PathOps, disk: Disk, pathUrl: string, items: seq<string>, owner: string)
    requires disk.globPackageJson(ModuleName(pathUrl)) == items
    requires RootSurvivor(ops, pathUrl, items) == Some(owner)
    ensures RootOwner(ops, disk, pathUrl) == Some(owner)
  {
  }

  lemma VantRootOwners()
    ensures RootOwner(VantOps, VantDisk, "vant/lib/button") == Some("vant/package.json")
    ensures RootOwner(VantOps, VantDisk, "vant/button") == Some("vant/package.json")
  {
    VantNestedSurvivesLong();
    VantRootSurvivesLong();
    VantNestedDroppedShort();
    VantRootSurvivesShort();
    assert |VantOps.dirname("vant/package.json")| < |VantOps.dirname("vant/lib/package.json")|;
    RootOfTwo(VantOps, "vant/lib/button", "vant/lib/package.json", "vant/package.json");
    RootOfSecond(VantOps, "vant/button", "vant/lib/package.json", "vant/package.json");
    RootOwnerOf(VantOps, VantDisk, "vant/lib/button", ["vant/lib/package.json", "vant/package.json"], "vant/package.json");
    RootOwnerOf(VantOps, VantDisk, "vant/button", ["vant/lib/package.json", "vant/package.json"], "vant/package.json");
  }

  /** Stripping the module directory `vant` from `vant/lib/button` and then `/lib` leaves `/button`. */
  lemma LongButtonRemainder()
    ensures Remainder("vant/lib/button", "vant", "lib") == "/button"
  {
    assert "vant/lib/button"[..4] == "vant";
    assert "vant/lib/button"[4..] == "/lib/button";
    assert "/lib/button"[..4] == "/lib";
    assert "/lib/button"[4..] == "/button";
  }

  lemma VantRootLongEntry(compiled: Suffixes)
    ensures RootOwnedEntry(VantOps, VantDisk, "node_modules/vant/lib/button", compiled)
      == BuildWithOwner(VantOps, VantDisk, "vant/lib/button", "vant/package.json", compiled)
  {
    VantRootOwners();
    VantPathUrls();
    RootOwnedWithOwner(VantOps, VantDisk, "node_modules/vant/lib/button", "vant/package.json", compiled);
  }

  lemma VantRootShortEntry(compiled: Suffixes)
    ensures RootOwnedEntry(VantOps, VantDisk, "node_modules/vant/button", compiled)
      == BuildWithOwner(VantOps, VantDisk, "vant/button", "vant/package.json", compiled)
  {
    VantRootOwners();
    VantPathUrls();
    RootOwnedWithOwner(VantOps, VantDisk, "node_modules/vant/button", "vant/package.json", compiled);
  }

  /** The build depends on the reference only through its remainder. */
  lemma SameRemainderSameBuild(ops: PathOps, disk: Disk, p1: string, p2: string, owner: string, entryDir: string, compiled: Suffixes)
    requires DescriptorPath(ops, owner) in disk.descriptors
    requires EntryDir(disk.descriptors[DescriptorPath(ops, owner)]) == Some(entryDir)
    requires Remainder(p1, ops.dirname(owner), entryDir) == Remainder(p2, ops.dirname(owner), entryDir)
    ensures BuildWithOwner(ops, disk, p1, owner, compiled) == BuildWithOwner(ops, disk, p2, owner, compiled)
  {
  }

  /** With the root `vant` as owner, both spellings have the remainder `/button`. */
  lemma VantRootBuilds(compiled: Suffixes)
    ensures BuildWithOwner(VantOps, VantDisk, "vant/lib/button", "vant/package.json", compiled)
      == BuildWithOwner(VantOps, VantDisk, "vant/button", "vant/package.json", compiled)
    ensures var e := BuildWithOwner(VantOps, VantDisk, "vant/button", "vant/package.json", compiled);
      e.Ok? && e.value.entryName == "vant" + "/button" && e.value.entry[2] == ModulePrefix + ("vant" + "/lib/button") + ".json"
  {
    VantRootBuildsAgree(compiled);
    VantRootBuildValue(compiled);
  }

  lemma VantRootBuildsAgree(compiled: Suffixes)
    ensures BuildWithOwner(VantOps, VantDisk, "vant/lib/button", "vant/package.json", compiled)
      == BuildWithOwner(VantOps, VantDisk, "vant/button", "vant/package.json", compiled)
  {
    LongButtonRemainder();
    RootButtonRemainder();
    VantDescriptors("vant/package.json");
    SameRemainderSameBuild(VantOps, VantDisk, "vant/lib/button", "vant/button", "vant/package.json", "lib", compiled);
  }

  lemma VantRootBuildValue(compiled: Suffixes)
    ensures var e := BuildWithOwner(VantOps, VantDisk, "vant/button", "vant/package.json", compiled);
      e.Ok? && e.value.entryName == "vant" + "/button" && e.value.entry[2] == ModulePrefix + ("vant" + "/lib/button") + ".json"
  {
    RootButtonRemainder();
    VantBuildAt("vant/button", "vant/package.json", "vant", compiled);
  }

  lemma RootButtonRemainder()
    ensures Remainder("vant/button", "vant", "lib") == "/button"
  {
    ButtonRemainder("vant");
    assert "vant" + "/button" == "vant/button";
  }

  /** Electing the root makes the two spellings of the example agree: one owner, one entry. */
  lemma RootOwnerIgnoresSpelling(compiled: Suffixes)
    ensures RootOwner(VantOps, VantDisk, "vant/lib/button") == Some("vant/package.json")
    ensures RootOwner(VantOps, VantDisk, "vant/button") == Some("vant/package.json")
    ensures RootOwnedEntry(VantOps, VantDisk, "node_modules/vant/lib/button", compiled)
      == RootOwnedEntry(VantOps, VantDisk, "node_modules/vant/button", compiled)
    ensures var e := RootOwnedEntry(VantOps, VantDisk, "node_modules/vant/button", compiled);
      e.Ok? && e.value.entryName == "vant" + "/button" && e.value.entry[2] == ModulePrefix + ("vant" + "/lib/button") + ".json"
  {
    VantRootOwners();
    VantRootLongEntry(compiled);
    VantRootShortEntry(compiled);
    VantRootBuilds(compiled);
  }

  /** An example owner whose remainder is `/button` builds `<moduleDir>/button` under `<moduleDir>/lib`. */
  lemma VantBuildAt(pathUrl: string, owner: string, moduleDir: string, compiled: Suffixes)
    requires owner == "vant/lib/package.json" || owner == "vant/package.json"
    requires VantOps.dirname(owner) == moduleDir
    requires Remainder(pathUrl, moduleDir, "lib") == "/button"
    ensures var r := BuildWithOwner(VantOps, VantDisk, pathUrl, owner, compiled);
      r.Ok? && r.value.entryName == moduleDir + "/button" && r.value.entry[2] == ModulePrefix + (moduleDir + "/lib/button") + ".json"
  {
    VantDescriptors(owner);
    BuildUnfold(VantOps, VantDisk, pathUrl, owner, "lib", compiled);
    var r := BuildWithOwner(VantOps, VantDisk, pathUrl, owner, compiled);
    assert r.value.entryName == JoinSlash([moduleDir, "/button"]);
    assert r.value.entry[2] == ModulePrefix + JoinSlash([moduleDir, "lib", "/button"]) + ".json";
    VantJoins(moduleDir);
  }

  /** When the first survivor also has the shortest directory, the root election picks it. */
  lemma {:induction false} RootIsFirstWhenShortest(ops: PathOps, pathUrl: string, items: seq<string>)
    requires Survivors(ops, pathUrl, items) != []
    requires forall x :: x in items && Survives(ops, pathUrl, x) ==>
      |ops.dirname(Survivors(ops, pathUrl, items)[0])| <= |ops.dirname(x)|
    ensures RootSurvivor(ops, pathUrl, items) == Some(Survivors(ops, pathUrl, items)[0])
    decreases |items|
  {
    assert forall x :: x in items[1..] ==> x in items;
    if !Survives(ops, pathUrl, items[0]) {
      assert Survivors(ops, pathUrl, items) == Survivors(ops, pathUrl, items[1..]);
      RootIsFirstWhenShortest(ops, pathUrl, items[1..]);
    } else {
      assert Survivors(ops, pathUrl, items)[0] == items[0];
      var rest := RootSurvivor(ops, pathUrl, items[1..]);
      if rest.Some? {
        assert rest.value in items;
      }
    }
  }

  /**
    The root election changes the builder's result only where another survivor has a
    shorter directory than the first one; everywhere else the two builders agree.
   */
  lemma RootOwnedEntryAgrees(ops: PathOps, disk: Disk, pagePath: string, compiled: Suffixes)
    requires var pathUrl := PathUrl(ops, pagePath);
      var s := Survivors(ops, pathUrl, disk.globPackageJson(ModuleName(pathUrl)));
      s != [] ==> forall x :: x in s ==> |ops.dirname(s[0])| <= |ops.dirname(x)|
    ensures RootOwnedEntry(ops, disk, pagePath, compiled) == GenerateNodeModuleEntry(ops, disk, pagePath, compiled)
  {
    var pathUrl := PathUrl(ops, pagePath);
    var items := disk.globPackageJson(ModuleName(pathUrl));
    if Survivors(ops, pathUrl, items) != [] {
      RootIsFirstWhenShortest(ops, pathUrl, items);
    }
  }

  /** With one survivor the two elections agree, so the correction changes nothing there. */
  lemma {:induction false} RootSurvivorIsOnlySurvivor(ops: PathOps, pathUrl: string, items: seq<string>, x: string)
    requires x in items && Survives(ops, pathUrl, x)
    requires forall y :: y in items && Survives(ops, pathUrl, y) ==> y == x
    ensures RootSurvivor(ops, pathUrl, items) == Some(x)
    ensures Survivors(ops, pathUrl, items) != [] && Survivors(ops, pathUrl, items)[0] == x
  {
    var r := Survivors(ops, pathUrl, items);
    assert x in r;
  }

  /**
    The literal strip cuts into a segment that merely starts with the entry directory:
    with module directory `vant` and entry directory `lib`, `vant/library/x` leaves
    `rary/x`, so the entry is built under `vant/lib/rary/x`.
   */
  lemma EntryDirStripCutsSegment()
    ensures Remainder("vant/library/x", "vant", "lib") == "rary/x"
  {
    var full := "vant" + "/" + "lib";
    assert "vant/library/x" == full + "rary/x";
    assert StartsWith("vant/library/x", full);
    var r := Remainder("vant/library/x", "vant", "lib");
    assert r == (full + r)[|full|..] == "vant/library/x"[|full|..];
  }
}
