/**
 * The exporter's entry point: check the arguments, choose the status filter,
 * then for every selected post create its directory and write its
 * `index.md`, and report the number of rows processed.
 *
 * The filesystem is a value: the set of existing directories and a map from
 * file path to content. The database is the sequence of post rows in table
 * order and the tag links in join order.
 */
module GhostExport {
  import opened Results
  import opened Text
  import opened Posts
  import opened Query
  import opened Naming
  import opened FrontMatter

  /** The caller's arguments; `None` is an argument left undefined. */
  datatype Args = Args(
    source: Option<String>,
    destination: Option<String>,
    published: Option<bool>,
    drafts: Option<bool>)

  /** The three argument errors, in the order they are checked. */
  datatype Error = NoSource | SourceMissing | NoDestination

  /** What the completion callback receives: an error or none, and a row count. */
  datatype Report = Report(error: Option<Error>, count: nat)

  datatype FileSystem = FileSystem(dirs: set<String>, files: map<String, String>)

  predicate Exists(fs: FileSystem, path: String) {
    path in fs.dirs || path in fs.files
  }

  /** A string argument counts as given when it is defined and not empty. */
  predicate Given(arg: Option<String>) {
    arg.Some? && arg.value != ""
  }

  /** A flag's value, with the value an undefined flag takes. */
  function Flag(arg: Option<bool>, default: bool): bool {
    match arg
    case Some(b) => b
    case None => default
  }

  /** The checked arguments the export runs with. */
  datatype Config = Config(destination: String, filter: Filter)

  /**
   * The argument checks, in order: a missing source, then a source that does
   * not exist, then a missing destination. `published` defaults to true and
   * `drafts` to false.
   */
  function Validate(args: Args, fs: FileSystem): (r: Result<Config, Error>)
    ensures r == Failure(NoSource) <==> !Given(args.source)
    ensures r == Failure(SourceMissing) <==> Given(args.source) && !Exists(fs, args.source.value)
    ensures r == Failure(NoDestination) <==>
      Given(args.source) && Exists(fs, args.source.value) && !Given(args.destination)
    ensures r.Success? ==>
      && r.value.destination == args.destination.value
      && r.value.filter == WhereClause(Flag(args.published, true), Flag(args.drafts, false))
  {
    if !Given(args.source) then Failure(NoSource)
    else if !Exists(fs, args.source.value) then Failure(SourceMissing)
    else if !Given(args.destination) then Failure(NoDestination)
    else Success(Config(args.destination.value, WhereClause(Flag(args.published, true), Flag(args.drafts, false))))
  }

  function JoinPath(dir: String, entry: String): String {
    dir + "/" + entry
  }

  function OutDir(dest: String, p: Post): String {
    JoinPath(dest, Name(p))
  }

  function OutFile(dest: String, p: Post): String {
    JoinPath(OutDir(dest, p), "index.md")
  }

  /** Output paths under one destination differ whenever directory names differ. */
  lemma OutFileInjective(dest: String, p: Post, q: Post)
    ensures OutFile(dest, p) == OutFile(dest, q) <==> Name(p) == Name(q)
  {
    var a, b := OutFile(dest, p), OutFile(dest, q);
    if a == b {
      var k := |dest| + 1;
      assert a[k..|a| - 9] == Name(p);
      assert b[k..|b| - 9] == Name(q);
    }
  }

  /** The file a row writes: its `index.md` path and its content. */
  function FileEntry(dest: String, p: Post, links: seq<TagLink>): (String, String) {
    (OutFile(dest, p), Content(p, TagNames(links, p.id)))
  }

  /** One entry per row, in row order. */
  function Entries<R>(rows: seq<R>, entry: R -> (String, String)): (es: seq<(String, String)>)
    ensures |es| == |rows|
  {
    if rows == [] then [] else Entries(rows[..|rows| - 1], entry) + [entry(rows[|rows| - 1])]
  }

  lemma {:induction false} EntriesAt<R>(rows: seq<R>, entry: R -> (String, String), j: nat)
    requires j < |rows|
    ensures Entries(rows, entry)[j] == entry(rows[j])
  {
    var n := |rows| - 1;
    if j < n {
      var init := rows[..n];
      assert init[j] == rows[j];
      EntriesAt(init, entry, j);
    }
  }

  /** The files the rows write, in row order. */
  function FileEntries(dest: String, rows: seq<Post>, links: seq<TagLink>): seq<(String, String)> {
    Entries(rows, p => FileEntry(dest, p, links))
  }

  lemma FileEntriesAt(dest: String, rows: seq<Post>, links: seq<TagLink>, j: nat)
    requires j < |rows|
    ensures FileEntries(dest, rows, links)[j] == FileEntry(dest, rows[j], links)
  {
    EntriesAt(rows, p => FileEntry(dest, p, links), j);
  }

  /** The map that results from writing each entry in turn: a later write to a path replaces an earlier one. */
  function Writes(es: seq<(String, String)>): map<String, String>
  {
    if es == [] then map[] else Writes(es[..|es| - 1])[es[|es| - 1].0 := es[|es| - 1].1]
  }

  /** The files the rows write. */
  function Written(dest: String, rows: seq<Post>, links: seq<TagLink>): map<String, String> {
    Writes(FileEntries(dest, rows, links))
  }

  /** The post directories the rows create. */
  function MadeDirs(dest: String, rows: seq<Post>): set<String>
  {
    if rows == [] then {} else MadeDirs(dest, rows[..|rows| - 1]) + {OutDir(dest, rows[|rows| - 1])}
  }

  /** A path is written exactly when some entry names it. */
  lemma {:induction false} WritesKeys(es: seq<(String, String)>)
    ensures forall k :: k in Writes(es) <==> exists j :: 0 <= j < |es| && es[j].0 == k
  {
    if es != [] {
      var init := es[..|es| - 1];
      WritesKeys(init);
      assert forall j :: 0 <= j < |init| ==> init[j] == es[j];
    }
  }

  /** An entry's content survives when no later entry writes the same path. */
  lemma {:induction false} WritesLast(es: seq<(String, String)>, j: nat)
    requires j < |es|
    requires forall l :: j < l < |es| ==> es[l].0 != es[j].0
    ensures es[j].0 in Writes(es) && Writes(es)[es[j].0] == es[j].1
  {
    var n := |es| - 1;
    if j < n {
      var init := es[..n];
      assert init[j] == es[j];
      WritesLast(init, j);
    }
  }

  lemma WritesSnoc(es: seq<(String, String)>, e: (String, String))
    ensures Writes(es + [e]) == Writes(es)[e.0 := e.1]
  {

  }

  lemma UnionUpdate(a: map<String, String>, w: map<String, String>, k: String, v: String)
    ensures (a + w)[k := v] == a + w[k := v]
  {
  }

  /** Writing row `i`'s file extends the files written by the rows before it. */
  lemma FilesStep(dest: String, rows: seq<Post>, i: nat, links: seq<TagLink>,
                  files: map<String, String>, before: map<String, String>, after: map<String, String>)
    requires i < |rows|
    requires before == files + Written(dest, rows[..i], links)
    requires after == before[OutFile(dest, rows[i]) := Content(rows[i], TagNames(links, rows[i].id))]
    ensures after == files + Written(dest, rows[..i + 1], links)
  {
    var es := FileEntries(dest, rows[..i], links);
    var e := FileEntry(dest, rows[i], links);
    assert FileEntries(dest, rows[..i + 1], links) == es + [e] by {
      assert rows[..i + 1][..i] == rows[..i];
    }
    WritesSnoc(es, e);
    UnionUpdate(files, Writes(es), e.0, e.1);
  }

  /** Creating row `i`'s directory extends the directories made by the rows before it. */
  lemma DirsStep(dest: String, rows: seq<Post>, i: nat, dirs: set<String>, before: set<String>, after: set<String>)
    requires i < |rows|
    requires before == dirs + MadeDirs(dest, rows[..i])
    requires after == before + {OutDir(dest, rows[i])}
    ensures after == dirs + MadeDirs(dest, rows[..i + 1])
  {
    assert rows[..i + 1][..i] == rows[..i];
  }

  /** The destination directory as it stands once the export has made sure it exists. */
  function BaseDirs(fs: FileSystem, dest: String): set<String> {
    if Exists(fs, dest) then fs.dirs else fs.dirs + {dest}
  }

  /** The filesystem after a successful export with checked arguments `cfg`. */
  function Exported(fs: FileSystem, cfg: Config, posts: seq<Post>, links: seq<TagLink>): FileSystem {
    var rows := Selected(posts, cfg.filter);
    FileSystem(
      BaseDirs(fs, cfg.destination) + MadeDirs(cfg.destination, rows),
      fs.files + Written(cfg.destination, rows, links))
  }

  /**
   * Builds the front matter by appending one line at a time; the date line
   * repeats the name prefix computed for the row.
   */
  method BuildFrontMatter(row: Post, prefix: String, tags: seq<String>) returns (frontMatter: String)
    requires !IsDraft(row) ==> prefix == Prefix(row)
    ensures frontMatter == Header(row, tags)
  {
    ghost var lines: seq<String> := [];
    frontMatter := "---\n";
    UnlinesSnoc(lines, "---");
    lines := lines + ["---"];
    assert frontMatter == Unlines(lines);
    frontMatter := frontMatter + ("title: " + row.title + "\n");
    UnlinesSnoc(lines, "title: " + row.title);
    lines := lines + ["title: " + row.title];
    assert frontMatter == Unlines(lines);
    if row.status != "draft" {
      frontMatter := frontMatter + ("date: " + prefix + "\n");
      UnlinesSnoc(lines, "date: " + prefix);
      lines := lines + ["date: " + prefix];
      assert frontMatter == Unlines(lines);
    }
    frontMatter := frontMatter + "layout: post\n";
    UnlinesSnoc(lines, "layout: post");
    lines := lines + ["layout: post"];
    assert frontMatter == Unlines(lines);
    var tagsList := Join(tags, ", ");
    frontMatter := frontMatter + ("tags: " + tagsList + "\n");
    UnlinesSnoc(lines, "tags: " + tagsList);
    lines := lines + ["tags: " + tagsList];
    assert frontMatter == Unlines(lines);
    frontMatter := frontMatter + "---\n";
    UnlinesSnoc(lines, "---");
    lines := lines + ["---"];
    assert frontMatter == Unlines(lines);
    assert lines == HeaderLines(row, tags);
  }

  /**
   * The per-row work: compute the name, create the post's directory, then
   * write the front matter followed by the markdown to `index.md`.
   */
  method WriteRow(dest: String, row: Post, links: seq<TagLink>, fs: FileSystem) returns (out: FileSystem)
    ensures out.dirs == fs.dirs + {OutDir(dest, row)}
    ensures out.files == fs.files[OutFile(dest, row) := Content(row, TagNames(links, row.id))]
  {
    var prefix: String;
    if row.status == "draft" {
      prefix := "draft-";
    } else {
      prefix := DatePrefix(PublishedDate(row));
    }
    var name := prefix + row.slug;
    var dirs := fs.dirs + {JoinPath(dest, name)};
    var tags := TagNames(links, row.id);
    var outFile := JoinPath(JoinPath(dest, name), "index.md");
    var frontMatter := BuildFrontMatter(row, prefix, tags);
    var post := frontMatter + row.markdown;
    out := FileSystem(dirs, fs.files[outFile := post]);
  }

  /**
   * The row loop over the query's result: every row is written, in the order
   * the query returns it, and counted.
   */
  method WriteRows(dest: String, rows: seq<Post>, links: seq<TagLink>, fs: FileSystem)
    returns (count: nat, out: FileSystem)
    ensures count == |rows|
    ensures out.dirs == fs.dirs + MadeDirs(dest, rows)
    ensures out.files == fs.files + Written(dest, rows, links)
  {
    out := fs;
    count := 0;
    while count < |rows|
      invariant count <= |rows|
      invariant out.dirs == fs.dirs + MadeDirs(dest, rows[..count])
      invariant out.files == fs.files + Written(dest, rows[..count], links)
    {
      ghost var before := out;
      out := WriteRow(dest, rows[count], links, out);
      DirsStep(dest, rows, count, fs.dirs, before.dirs, out.dirs);
      FilesStep(dest, rows, count, links, fs.files, before.files, out.files);
      count := count + 1;
    }
    assert rows[..count] == rows;
  }

  /**
   * The exported function. A failed argument check reports its error with a
   * count of zero and touches nothing; otherwise the destination is created if
   * absent, every selected row is written in table order, and the count is the
   * number of selected rows.
   */
  method Export(args: Args, fs: FileSystem, posts: seq<Post>, links: seq<TagLink>)
    returns (report: Report, out: FileSystem)
    ensures Validate(args, fs).Failure? ==>
      report == Report(Some(Validate(args, fs).error), 0) && out == fs
    ensures Validate(args, fs).Success? ==>
      && report == Report(None, |Selected(posts, Validate(args, fs).value.filter)|)
      && out == Exported(fs, Validate(args, fs).value, posts, links)
  {
    var published := Flag(args.published, true);
    if !Given(args.source) {
      return Report(Some(NoSource), 0), fs;
    } else if !Exists(fs, args.source.value) {
      return Report(Some(SourceMissing), 0), fs;
    } else if !Given(args.destination) {
      return Report(Some(NoDestination), 0), fs;
    }
    var dest := args.destination.value;
    var start := fs;
    if !Exists(fs, dest) {
      start := fs.(dirs := fs.dirs + {dest});
    }
    var filter := WhereClause(published, Flag(args.drafts, false));
    var rows := Selected(posts, filter);
    var count;
    count, out := WriteRows(dest, rows, links, start);
    report := Report(None, count);
  }

  /** The files written are exactly one `index.md` per selected row's directory. */
  lemma WrittenKeys(dest: String, rows: seq<Post>, links: seq<TagLink>)
    ensures forall k :: k in Written(dest, rows, links) <==> exists p :: p in rows && k == OutFile(dest, p)
  {
    var es := FileEntries(dest, rows, links);
    WritesKeys(es);
    forall j | 0 <= j < |rows|
      ensures es[j].0 == OutFile(dest, rows[j])
    {
      FileEntriesAt(dest, rows, links, j);
    }
    forall p | p in rows
      ensures OutFile(dest, p) in Writes(es)
    {
      var j :| 0 <= j < |rows| && rows[j] == p;
      assert es[j].0 == OutFile(dest, p);
    }
  }

  /**
   * A row's file holds that row's content unless a later row has the same
   * directory name: the last writer wins.
   */
  lemma LastWriterWins(dest: String, rows: seq<Post>, links: seq<TagLink>, j: nat)
    requires j < |rows|
    requires forall l :: j < l < |rows| ==> Name(rows[l]) != Name(rows[j])
    ensures OutFile(dest, rows[j]) in Written(dest, rows, links)
    ensures Written(dest, rows, links)[OutFile(dest, rows[j])] == Content(rows[j], TagNames(links, rows[j].id))
  {
    var es := FileEntries(dest, rows, links);
    forall l | j < l < |rows|
      ensures es[l].0 != es[j].0
    {
      FileEntriesAt(dest, rows, links, l);
      FileEntriesAt(dest, rows, links, j);
      OutFileInjective(dest, rows[l], rows[j]);
    }
    WritesLast(es, j);
    FileEntriesAt(dest, rows, links, j);
  }

  /**
   * After an export, the files are the old ones plus one `index.md` per
   * selected post; every other file is left as it was, and every selected
   * post's directory exists.
   */
  lemma ExportedFiles(fs: FileSystem, cfg: Config, posts: seq<Post>, links: seq<TagLink>)
    ensures forall k :: k in Exported(fs, cfg, posts, links).files <==>
      k in fs.files || exists p :: p in Selected(posts, cfg.filter) && k == OutFile(cfg.destination, p)
    ensures forall k :: k in fs.files && (forall p :: p in Selected(posts, cfg.filter) ==> OutFile(cfg.destination, p) != k) ==>
      Exported(fs, cfg, posts, links).files[k] == fs.files[k]
    ensures fs.dirs <= Exported(fs, cfg, posts, links).dirs
    ensures Exists(Exported(fs, cfg, posts, links), cfg.destination)
    ensures forall p :: p in Selected(posts, cfg.filter) ==> OutDir(cfg.destination, p) in Exported(fs, cfg, posts, links).dirs
  {
    var rows := Selected(posts, cfg.filter);
    var out := Exported(fs, cfg, posts, links);
    var w := Written(cfg.destination, rows, links);
    assert out.files == fs.files + w;
    assert out.dirs == BaseDirs(fs, cfg.destination) + MadeDirs(cfg.destination, rows);
    WrittenKeys(cfg.destination, rows, links);
    MadeDirsHolds(cfg.destination, rows);
  }

  lemma {:induction false} MadeDirsHolds(dest: String, rows: seq<Post>)
    ensures forall p :: p in rows ==> OutDir(dest, p) in MadeDirs(dest, rows)
    ensures forall d :: d in MadeDirs(dest, rows) ==> exists p :: p in rows && d == OutDir(dest, p)
  {
    if rows != [] {
      var init := rows[..|rows| - 1];
      MadeDirsHolds(dest, init);
      assert rows == init + [rows[|rows| - 1]];
    }
  }

  /**
   * Exporting again onto the result of an export, with the same arguments and
   * the same database, passes the same argument checks and changes nothing:
   * files are overwritten, never appended to.
   */
  lemma RerunIsIdempotent(args: Args, fs: FileSystem, posts: seq<Post>, links: seq<TagLink>)
    requires Validate(args, fs).Success?
    ensures Validate(args, Exported(fs, Validate(args, fs).value, posts, links)) == Validate(args, fs)
    ensures var cfg := Validate(args, fs).value;
      Exported(Exported(fs, cfg, posts, links), cfg, posts, links) == Exported(fs, cfg, posts, links)
  {

  }
}
