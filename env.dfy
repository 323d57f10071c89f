/**
  The values the resolver reads and the collaborators it calls but does not
  implement: the configuration object, the manifests and package descriptors
  on disk, Node's `path` functions, `fs.existsSync`, `fs.statSync().isFile()`,
  the `globby` matcher and the `isNodeModuleInPath` helper. Collaborators are
  function-valued fields, so every property proved below holds whatever they
  compute.
 */
module Env {

  datatype Option<T> = None | Some(value: T)

  /** Every way a run can throw. */
  datatype Error =
    | NotFoundEntryFile                     // no root manifest matched
    | ReadFailed(path: string)              // `jsonfile.readFileSync` on a missing or unreadable file
    | StatFailed(path: string)              // `fs.statSync` on a missing path
    | SubpackagesNotArray                   // `configData.subpackages.map` on a non-array
    | SubpackagePagesNotArray(root: string) // `page.pages.map` on a non-array
    | NoOwnerPackage(reference: string)     // `dirname(undefined)`: no package.json survived the filters
    | NoEntryDir(descriptor: string)        // neither `miniprogram` nor `files[0]` in package.json

  datatype Result<T> = Ok(value: T) | Err(error: Error) {
    predicate IsFailure() {
      Err?
    }

    function PropagateFailure<U>(): Result<U>
      requires Err?
    {
      Err(error)
    }

    function Extract(): T
      requires Ok?
    {
      value
    }
  }

  /** One element of a manifest's `subpackages`; an absent or empty `root` reads as "". */
  datatype SubPackage = SubPackage(root: string, pages: Option<seq<string>>)

  /**
    An `app.json` or page/component `.json` as the resolver reads it. A field that
    is absent or of the wrong kind is `None`; `usingComponents` is given by
    `Object.values`, in that order.
   */
  datatype Manifest = Manifest(
    pages: Option<seq<string>>,
    subpackages: Option<seq<SubPackage>>,
    usingComponents: Option<seq<string>>)

  /** The two fields of a dependency's `package.json` that the builder reads. */
  datatype Descriptor = Descriptor(miniprogram: Option<string>, files: Option<seq<string>>)

  /** The keys of `entrySuffix` and `compiledSuffix` the resolver uses. */
  datatype Suffixes = Suffixes(js: string, xml: string, css: string)

  /** The options object; `entry` lists label and pattern in `Object.keys` order. */
  datatype Config = Config(entry: seq<(string, string)>, entrySuffix: Suffixes, compiledSuffix: Suffixes)

  /** `Object.values(config.entry)`. */
  function EntryPatterns(config: Config): seq<string> {
    seq(|config.entry|, i requires 0 <= i < |config.entry| => config.entry[i].1)
  }

  /**
    Node's `path` module and `process.cwd()`, left uninterpreted, together with
    `isNodeModuleInPath`, whose definition is not part of this model.
   */
  datatype PathOps = PathOps(
    cwd: string,
    join: seq<string> -> string,          // path.join(...parts)
    normalize: string -> string,          // path.normalize
    relative: (string, string) -> string, // path.relative(from, to)
    dirname: string -> string,            // path.dirname
    stem: string -> string,               // path.parse(p).name
    isAbsolute: string -> bool,           // path.isAbsolute
    isNodeModuleInPath: string -> bool)   // ./utils/isNodeModuleInPath

  /** The file system as the resolver observes it during one run. */
  datatype Disk = Disk(
    fileExists: string -> bool,                // fs.existsSync
    isFile: string -> bool,                    // fs.statSync(p).isFile(), for a path that exists
    manifests: map<string, Manifest>,          // readable JSON files, keyed by the path passed to the reader
    descriptors: map<string, Descriptor>,      // readable package.json files
    globEntries: seq<string> -> seq<string>,   // globby.sync(patterns)
    globPackageJson: string -> seq<string>)    // package.json files under node_modules for a module name
}
