/**
  utils/isNodeModule.js: decides whether a component reference names a
  package under `node_modules`. A reference mentioning `node_modules`
  anywhere is a package; otherwise a reference is local exactly when it
  starts with zero or more dots followed by a separator (`/a`, `./a`,
  `../a`), and every other string is a package.
 */
module Classify {
  import opened StringUtil

  const ModuleDirName := "node_modules"

  /** `/^\.*\//.test(s)` */
  function LeadingDotsThenSlash(s: string): bool {
    |s| > 0 && (s[0] == '/' || (s[0] == '.' && LeadingDotsThenSlash(s[1..])))
  }

  /** Position `k` holds a separator and only dots come before it. */
  ghost predicate DotsThenSlashAt(s: string, k: int) {
    0 <= k < |s| && s[k] == '/' && forall j :: 0 <= j < k ==> s[j] == '.'
  }

  lemma {:induction false} LeadingDotsThenSlashIff(s: string)
    ensures LeadingDotsThenSlash(s) <==> exists k :: DotsThenSlashAt(s, k)
  {
    if |s| > 0 && s[0] != '/' {
      LeadingDotsThenSlashIff(s[1..]);
      if exists k :: DotsThenSlashAt(s[1..], k) {
        var k :| DotsThenSlashAt(s[1..], k);
        if s[0] == '.' {
          assert DotsThenSlashAt(s, k + 1);
        }
      }
      if exists k :: DotsThenSlashAt(s, k) {
        var k :| DotsThenSlashAt(s, k);
        assert k > 0 && s[0] == '.';
        assert DotsThenSlashAt(s[1..], k - 1);
      }
    } else if |s| > 0 {
      assert DotsThenSlashAt(s, 0);
    }
  }

  function IsNodeModule(s: string): (b: bool)
    ensures b <==> (exists i :: OccursAt(s, ModuleDirName, i)) || !(exists k :: DotsThenSlashAt(s, k))
  {
    IncludesIff(s, ModuleDirName);
    LeadingDotsThenSlashIff(s);
    Includes(s, ModuleDirName) || !LeadingDotsThenSlash(s)
  }

  /** Root-relative and dot-relative references are local unless they mention `node_modules`. */
  lemma SeparatorAndDotReferencesAreLocal(s: string)
    requires !Includes(s, ModuleDirName)
    requires StartsWith(s, "/") || StartsWith(s, "./") || StartsWith(s, "../")
    ensures !IsNodeModule(s)
  {
    if StartsWith(s, "/") {
      assert s[..1][0] == s[0];
      assert DotsThenSlashAt(s, 0);
    } else if StartsWith(s, "./") {
      assert s[..2][0] == s[0] && s[..2][1] == s[1];
      assert DotsThenSlashAt(s, 1);
    } else {
      assert s[..3][0] == s[0] && s[..3][1] == s[1] && s[..3][2] == s[2];
      assert DotsThenSlashAt(s, 2);
    }
  }

  /** The `node_modules` test takes precedence over the separator test. */
  lemma ModuleDirMentionWins(s: string)
    requires exists i :: OccursAt(s, ModuleDirName, i)
    ensures IsNodeModule(s)
  {
  }

  /** Everything that does not start with dots and a separator is a package. */
  lemma OtherReferencesArePackages(s: string)
    requires |s| == 0 || (s[0] != '/' && s[0] != '.')
    ensures IsNodeModule(s)
  {
  }

  lemma ClassifierExamples()
    ensures !IsNodeModule("/a") && !IsNodeModule("./a") && !IsNodeModule("../a")
    ensures IsNodeModule("components/a") && IsNodeModule("")
    ensures IsNodeModule("./node_modules/a")
  {
    LocalExamples();
    PackageExamples();
    NestedModuleExample();
  }

  lemma PackageExamples()
    ensures IsNodeModule("components/a") && IsNodeModule("")
  {
    OtherReferencesArePackages("components/a");
    OtherReferencesArePackages("");
  }

  lemma LocalExamples()
    ensures !IsNodeModule("/a") && !IsNodeModule("./a") && !IsNodeModule("../a")
  {
    assert !Includes("/a", ModuleDirName);
    assert !Includes("./a", ModuleDirName);
    assert !Includes("../a", ModuleDirName);
    SeparatorAndDotReferencesAreLocal("/a");
    SeparatorAndDotReferencesAreLocal("./a");
    SeparatorAndDotReferencesAreLocal("../a");
  }

  lemma NestedModuleExample()
    ensures IsNodeModule("./node_modules/a")
  {
    assert OccursAt("./node_modules/a", ModuleDirName, 2);
  }
}
