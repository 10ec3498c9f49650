/**
  What the scanner takes from its parent module and from foreign libraries,
  left uninterpreted: the three file-name regexes, the version extractor,
  the conversion of a path to text, path canonicalisation and URL
  construction.  A model run is parametric in all of them.
*/
module FindPackage {
  import opened Wrappers
  import opened Snapshot
  import opened Package

  datatype Collaborators = Collaborators(
    /** `CMAKECONFIG.is_match` */
    isConfig: string -> bool,
    /** `CMAKECONFIGVERSION.is_match` */
    isConfigVersion: string -> bool,
    /** `CMAKEREGEX.is_match` */
    isModule: string -> bool,
    /** `get_version`: the version a config-version file declares, if any */
    getVersion: string -> Option<string>,
    /** `Path::to_str` */
    pathText: Path -> string,
    /** `safe_canonicalize` (absolutising a path) */
    canonicalize: Path -> Path,
    /** `Url::from_file_path` */
    toUrl: Path -> Url)
}
