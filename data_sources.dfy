/** The data sources: each lists the files of one directory whose names match its
    pattern and loads one table from every matched file, in listing order. */
module DataSources {
  import opened Results
  import opened Tables

  /** One JSON object of a patient record file, keyed by field name. */
  type Record = map<string, seq<real>>

  /** The part of the file system the data sources use; none of it is modelled. */
  datatype FileSystem = FileSystem(
    listDir: string -> seq<string>,           // entry names of a directory, in enumeration order
    loadCsv: string -> Result<Table>,         // parse one comma-separated file into a table
    readJson: string -> Result<seq<Record>>)  // parse one JSON file into its list of objects

  datatype DataSource = CSVDataSource(dirPath: string) | JSONDataSource(dirPath: string)

  const FilePrefix: string := "inflammation"

  function Extension(source: DataSource): string
  {
    match source
    case CSVDataSource(_) => ".csv"
    case JSONDataSource(_) => ".json"
  }

  /** The glob pattern `<prefix>*<suffix>`: the star matches any run of characters,
      including none, so prefix and suffix may not overlap. */
  predicate MatchesPattern(name: string, prefix: string, suffix: string)
  {
    |prefix| + |suffix| <= |name| && name[..|prefix|] == prefix && name[|name| - |suffix|..] == suffix
  }

  /** Every name made of the prefix, any middle part and the suffix matches. */
  lemma MatchesPatternOfParts(prefix: string, middle: string, suffix: string)
    ensures MatchesPattern(prefix + middle + suffix, prefix, suffix)
  {
    var name := prefix + middle + suffix;
    assert name[..|prefix|] == prefix;
    assert name[|name| - |suffix|..] == suffix;
  }

  /** Every matching name is the prefix, some middle part and the suffix. */
  lemma MatchesPatternSplits(name: string, prefix: string, suffix: string)
    requires MatchesPattern(name, prefix, suffix)
    ensures name == prefix + name[|prefix|..|name| - |suffix|] + suffix
  {
    assert name == name[..|prefix|] + name[|prefix|..|name| - |suffix|] + name[|name| - |suffix|..];
  }

  /** `os.path.join(dir, name)` for a relative name. */
  function JoinPath(dir: string, name: string): (p: string)
    ensures |p| >= |name| && p[|p| - |name|..] == name
    ensures |dir| <= |p| <= |dir| + 1 + |name| && p[..|dir|] == dir
  {
    if dir == [] || dir[|dir| - 1] == '/' then dir + name else dir + "/" + name
  }

  /** The joined path has a `/` between the directory and the name, added exactly when
      the directory is nonempty and does not already end with one. */
  lemma JoinPathSeparator(dir: string, name: string)
    ensures var p := JoinPath(dir, name);
            (|p| == |dir| + |name| <==> dir == [] || dir[|dir| - 1] == '/') &&
            (|p| == |dir| + 1 + |name| ==> p[|dir|] == '/')
  {
  }

  /** The paths of the matching entries of `entries`, in the order of `entries`. */
  function Glob(dir: string, entries: seq<string>, prefix: string, suffix: string): (paths: seq<string>)
    ensures |paths| <= |entries|
    ensures forall p :: p in paths <==> exists e :: e in entries && MatchesPattern(e, prefix, suffix) && p == JoinPath(dir, e)
  {
    if entries == [] then []
    else
      var rest := Glob(dir, entries[1..], prefix, suffix);
      assert forall e :: e in entries <==> e == entries[0] || e in entries[1..];
      if MatchesPattern(entries[0], prefix, suffix) then [JoinPath(dir, entries[0])] + rest else rest
  }

  /** A single entry gives its joined path when it matches the pattern, and nothing
      otherwise. */
  lemma GlobOfOneEntry(dir: string, e: string, prefix: string, suffix: string)
    ensures Glob(dir, [e], prefix, suffix) == if MatchesPattern(e, prefix, suffix) then [JoinPath(dir, e)] else []
  {
    assert [e][1..] == [];
  }

  /** The matches of a listing are the matches of its first part followed by those of
      the rest: the paths keep the order of the listing, one per matching entry. */
  lemma {:induction false} GlobAppend(dir: string, a: seq<string>, b: seq<string>, prefix: string, suffix: string)
    ensures Glob(dir, a + b, prefix, suffix) == Glob(dir, a, prefix, suffix) + Glob(dir, b, prefix, suffix)
  {
    if a == [] {
      assert a + b == b;
    } else {
      assert (a + b)[0] == a[0] && (a + b)[1..] == a[1..] + b;
      GlobAppend(dir, a[1..], b, prefix, suffix);
    }
  }

  /** When every entry matches, the paths are all the entries, joined to the directory,
      in the order the directory lists them. */
  lemma {:induction false} GlobKeepsListingOrder(dir: string, entries: seq<string>, prefix: string, suffix: string)
    requires forall k :: 0 <= k < |entries| ==> MatchesPattern(entries[k], prefix, suffix)
    ensures Glob(dir, entries, prefix, suffix) == seq(|entries|, k requires 0 <= k < |entries| => JoinPath(dir, entries[k]))
  {
    if entries != [] {
      GlobKeepsListingOrder(dir, entries[1..], prefix, suffix);
    }
  }

  /** The paths a source would load, in the order the directory lists them. */
  function MatchedFiles(source: DataSource, fs: FileSystem): (paths: seq<string>)
    ensures |paths| <= |fs.listDir(source.dirPath)|
    ensures forall p :: p in paths <==>
              exists e :: e in fs.listDir(source.dirPath) && MatchesPattern(e, FilePrefix, Extension(source)) &&
                          p == JoinPath(source.dirPath, e)
  {
    Glob(source.dirPath, fs.listDir(source.dirPath), FilePrefix, Extension(source))
  }

  /** The rows of a JSON file: the `observations` of every record, in order; a record
      without that field fails the whole file. */
  function RowsOfRecords(records: seq<Record>): (r: Result<Table>)
    ensures r.Ok? <==> forall i :: 0 <= i < |records| ==> "observations" in records[i]
    ensures r.Ok? ==> |r.value| == |records| &&
                      forall i :: 0 <= i < |records| ==> r.value[i] == records[i]["observations"]
    ensures r.Err? ==> r.error == MissingField("observations")
  {
    if records == [] then Ok([])
    else if "observations" !in records[0] then Err(MissingField("observations"))
    else
      var rest := RowsOfRecords(records[1..]);
      assert forall i :: 1 <= i < |records| ==> records[i] == records[1..][i - 1];
      if rest.Err? then rest else Ok([records[0]["observations"]] + rest.value)
  }

  /** `load_json`: read the file's records, then take one row per record. */
  function LoadJson(fs: FileSystem, path: string): (r: Result<Table>)
    ensures fs.readJson(path).Err? ==> r == Err(fs.readJson(path).error)
    ensures r.Ok? <==> fs.readJson(path).Ok? &&
                       forall i :: 0 <= i < |fs.readJson(path).value| ==> "observations" in fs.readJson(path).value[i]
    ensures r.Ok? ==> |r.value| == |fs.readJson(path).value| &&
                      forall i :: 0 <= i < |r.value| ==> r.value[i] == fs.readJson(path).value[i]["observations"]
  {
    var records :- fs.readJson(path);
    RowsOfRecords(records)
  }

  /** The per-file loader of each kind of source. */
  function Loader(source: DataSource, fs: FileSystem): (load: string -> Result<Table>)
    ensures source.CSVDataSource? ==> load == fs.loadCsv
    ensures source.JSONDataSource? ==> forall path :: load(path) == LoadJson(fs, path)
  {
    match source
    case CSVDataSource(_) => fs.loadCsv
    case JSONDataSource(_) => (path: string) => LoadJson(fs, path)
  }

  /** The message of the error raised when nothing matches; both kinds of source
      say "CSV". */
  function NoDataMessage(source: DataSource): (m: string)
    ensures |m| > |source.dirPath| && m[|m| - |source.dirPath|..] == source.dirPath
    ensures m[..|m| - |source.dirPath|] == "No inflammation data CSV files found in path "
  {
    "No inflammation data CSV files found in path " + source.dirPath
  }

  /** `load_inflammation_data`: no match is an error; otherwise one table per matched
      file, in match order, and the first file that fails to load fails the call. */
  function LoadInflammationData(source: DataSource, fs: FileSystem): (r: Result<seq<Table>>)
    ensures MatchedFiles(source, fs) == [] ==> r == Err(NoDataFound(NoDataMessage(source)))
    ensures r.Ok? <==> MatchedFiles(source, fs) != [] &&
                       forall i :: 0 <= i < |MatchedFiles(source, fs)| ==> Loader(source, fs)(MatchedFiles(source, fs)[i]).Ok?
    ensures r.Ok? ==> |r.value| == |MatchedFiles(source, fs)| > 0 &&
                      forall i :: 0 <= i < |r.value| ==> r.value[i] == Loader(source, fs)(MatchedFiles(source, fs)[i]).value
    ensures MatchedFiles(source, fs) != [] && r.Err? ==>
              exists i :: 0 <= i < |MatchedFiles(source, fs)| &&
                          Loader(source, fs)(MatchedFiles(source, fs)[i]) == Err(r.error) &&
                          forall k :: 0 <= k < i ==> Loader(source, fs)(MatchedFiles(source, fs)[k]).Ok?
  {
    var paths := MatchedFiles(source, fs);
    if |paths| == 0 then Err(NoDataFound(NoDataMessage(source)))
    else MapAll(paths, Loader(source, fs))
  }
}
