/** The package record the scanner produces (the `CMakePackage` type of the
    surrounding crate). */
module Package {
  import opened Wrappers
  import opened Snapshot

  /** A package is a directory of CMake files or one standalone module file. */
  datatype FileType = Dir | File

  /** Where a record was found; this scanner only produces `System`. */
  datatype CMakePackageFrom = System

  /** A `file://` location, as `Url::from_file_path` builds it. */
  datatype Url = FileUrl(text: string)

  datatype CMakePackage = CMakePackage(
    name: string,
    filetype: FileType,
    filepath: Url,
    version: Option<string>,
    tojump: seq<Path>,
    from: CMakePackageFrom)
}
