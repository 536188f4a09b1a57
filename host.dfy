/** The operating system as the core sees it: a filesystem of text files and the
    process environment. Directories, permissions and I/O errors are not modelled. */
module Host {

  /** A path, split into its directory part and its final component (Path.parent and
      Path.name). Directory strings are taken as already normalised. */
  datatype Path = Path(dir: string, name: string)

  /** os.getenv(key, default). */
  function GetEnv(environ: map<string, string>, key: string, default: string): string {
    if key in environ then environ[key] else default
  }

  class Host {
    /** Existing files and their text. os.path.exists(p) is `p in files`. */
    var files: map<Path, string>
    /** os.environ. */
    var environ: map<string, string>

    constructor (files: map<Path, string>, environ: map<string, string>)
      ensures this.files == files && this.environ == environ
    {
      this.files := files;
      this.environ := environ;
    }
  }
}
