/** The per-group configuration record handed to the translator
    (org.codehaus.mojo.idlj.Source), and the two small records it lists. */
module SourceConfig {
  import opened Common

  /** A package prefix for one IDL type: emitted as "-pkgPrefix type prefix". */
  datatype PackagePrefix = PackagePrefix(typeName: string, prefix: string)

  /** A preprocessor symbol, with an optional value (null when absent). */
  datatype Define = Define(symbol: string, value: Option<string>)

  /** The configuration of one group of IDL files.  Java's Boolean fields are
      tri-state (true, false or null), so they are Option<bool>; a list or set
      that was never configured is None.  The getters of the Java class return
      these fields unchanged, which the datatype's destructors do. */
  datatype Source = Source(
    compatible: Option<bool>,
    emitStubs: Option<bool>,
    emitSkeletons: Option<bool>,
    packagePrefix: Option<string>,
    includes: Option<set<string>>,
    excludes: Option<set<string>>,
    packagePrefixes: Option<seq<PackagePrefix>>,
    defines: Option<seq<Define>>,
    additionalArguments: Option<seq<string>>)

  /** A Source as the configuration leaves it when nothing is set: the three
      flags are true and everything else is unset. */
  function DefaultSource(): (s: Source)
    ensures s.compatible == Some(true) && s.emitStubs == Some(true) && s.emitSkeletons == Some(true)
    ensures s.packagePrefix.None? && s.includes.None? && s.excludes.None?
    ensures s.packagePrefixes.None? && s.defines.None? && s.additionalArguments.None?
  {
    Source(Some(true), Some(true), Some(true), None, None, None, None, None, None)
  }
}
