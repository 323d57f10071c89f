/**
  utils/generateEntryName.js: the entry name of a page or component
  reference; a package reference loses one leading `node_modules/`.
 */
module EntryNaming {
  import opened StringUtil
  import opened Classify

  const ModulePrefix := "node_modules/"

  function GenerateEntryName(s: string): (r: string)
    ensures StartsWith(s, ModulePrefix) ==> r == s[|ModulePrefix|..]
    ensures !StartsWith(s, ModulePrefix) ==> r == s
  {
    PrefixedIsPackage(s);
    if IsNodeModule(s) then StripPrefix(s, ModulePrefix) else s
  }

  /** A reference starting with `node_modules/` is always classified as a package. */
  lemma PrefixedIsPackage(s: string)
    ensures StartsWith(s, ModulePrefix) ==> IsNodeModule(s)
  {
    if StartsWith(s, ModulePrefix) {
      assert s[..|ModuleDirName|] == s[..|ModulePrefix|][..|ModuleDirName|];
      assert Includes(s, ModuleDirName);
    }
  }

  /** The name is a suffix of the reference and at most 13 characters shorter. */
  lemma EntryNameIsShortSuffix(s: string)
    ensures var r := GenerateEntryName(s);
      |r| <= |s| <= |r| + 13 && s[|s| - |r|..] == r
  {
  }

  /** Stripping happens once, so the name of a name can differ from it. */
  lemma EntryNameNotIdempotent()
    ensures GenerateEntryName("node_modules/node_modules/a") == "node_modules/a"
    ensures GenerateEntryName(GenerateEntryName("node_modules/node_modules/a")) == "a"
  {
    assert StartsWith("node_modules/node_modules/a", ModulePrefix);
    assert "node_modules/node_modules/a"[13..] == "node_modules/a";
    assert StartsWith("node_modules/a", ModulePrefix);
    assert "node_modules/a"[13..] == "a";
  }
}
