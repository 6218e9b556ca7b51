# ghost-export, modelled in Dafny

This project models the export transformation of `ghost-export`. The tool
reads the posts of a Ghost blog from its SQLite database and writes one
`<destination>/<name>/index.md` per post. Each file holds a YAML front-matter
header followed by the post's markdown.

The model follows `lib/ghost-export.js`:

- **Argument checks** (`GhostExport.Validate`). A missing source, a source that
  does not exist and a missing destination are checked in that order. Each one
  reports its error with a count of 0 and does nothing else. `published`
  defaults to true.
- **Status filter** (`Query.WhereClause`). It keeps only non-drafts when
  `published && !drafts`, only drafts when `!published && drafts`, and every
  post otherwise, including when both flags are false.
- **Directory names** (`Naming.Name`). A draft's name is `draft-` plus the slug.
  Any other post's name is its `published_at` date as `yyyy-mm-dd-` plus the
  slug.
- **Front matter** (`FrontMatter.HeaderLines`, `FrontMatter.Content`). The
  header has these lines in order: `---`, `title: <title>` written verbatim, a
  `date: <prefix>` line for non-drafts only, `layout: post`, `tags: <names
  joined by ", ">` and `---`. The markdown follows unchanged.
- **The export** (`GhostExport.Export`, `GhostExport.WriteRows`,
  `GhostExport.WriteRow`, `GhostExport.BuildFrontMatter`). The query selects
  the posts, then the row loop handles them in order. Each row creates its
  directory, builds the front matter line by line and writes the file. The
  export returns the number of rows the query produced.

The filesystem is a value: a set of directories plus a map from file path to
content. The database is a sequence of post rows in table order, plus the
post–tag links in the order the tag join returns them. A date is already split
into year, month and day.

The exporter writes the title verbatim, without quoting or escaping, and never
writes a `description` line. Its `date:` line repeats the whole name prefix, trailing dash included
(`date: 2021-03-05-`). The tag lookup interpolates the post id into the SQL
text; the model treats it as a plain lookup by id.

## Model

| member | source | states |
|---|---|---|
| `Query.WhereClause` | lib/ghost-export.js:21-25 | Drafts pass exactly when `drafts` is set or `published` is not. Non-drafts pass exactly when `published` is set or `drafts` is not. The filter is "no filter" exactly when the two flags are equal. |
| `Query.SelectedMembers` | lib/ghost-export.js:33 | The query returns exactly the posts that pass the filter, and no more rows than the table holds. |
| `Query.SelectedAppend` | lib/ghost-export.js:33 | The query keeps table order: selecting from two consecutive stretches of the table gives the first stretch's rows followed by the second's. |
| `Query.SelectedCount` | lib/ghost-export.js:21-33 | Each row occurs in the result as often as in the table when it passes the filter, and never otherwise; so the count reported is the number of passing rows. |
| `Query.SelectedAll` | lib/ghost-export.js:25-33 | With no WHERE clause the query returns the whole table in order. |
| `GhostExport.Validate` | lib/ghost-export.js:10-17 | Gives "no source" iff the source is missing or empty. Gives "source does not exist" iff the source is given but absent. Gives "no destination" iff both source checks pass and the destination is missing. On success, `published` defaults to true and `drafts` to false. |
| `Text.PadRoundTrip` | lib/ghost-export.js:38 | A zero-padded date field reads back as the number it renders. |
| `Text.PadLength` | lib/ghost-export.js:38 | A number below 10^w pads to exactly w digits. |
| `Naming.DatePrefixRoundTrip` | lib/ghost-export.js:38 | A valid date's prefix is always 11 characters: 4 year digits, then 2 month digits, then 2 day digits, each followed by a dash. It reads back as the same date. |
| `Naming.NameRoundTrip` | lib/ghost-export.js:35-40 | A directory name can be read back. A draft's name gives `draft-` and the slug. A non-draft's name gives its publication date and its slug. |
| `Naming.NameCollision` | lib/ghost-export.js:35-41 | Two posts get the same directory iff they agree on draft status and slug and, for non-drafts, on the publication date. |
| `Naming.DraftAndDatedNamesDiffer` | lib/ghost-export.js:35-40 | A draft and a non-draft never share a directory name. |
| `Naming.DatePrefixExample` | lib/ghost-export.js:38 | The date 2021-03-05 gives the prefix `2021-03-05-`. |
| `FrontMatter.TagNames` | lib/ghost-export.js:42-43 | A name is among a post's tag names iff a link joins that post to that name. |
| `FrontMatter.TagNamesAppend` | lib/ghost-export.js:42-50 | The tag names keep the join's order: two consecutive stretches of links give the first stretch's names followed by the second's. |
| `FrontMatter.TagNamesCount` | lib/ghost-export.js:42-50 | A name is listed as many times as a link joins the post to it. |
| `FrontMatter.DateLineIffNotDraft` | lib/ghost-export.js:47-48 | The header has a `date:` line iff the post is not a draft. That line comes right after the title and its value is the post's name prefix. |
| `FrontMatter.FencesOnlyAtEnds` | lib/ghost-export.js:46-52 | The header opens and closes with `---`. No line between them is `---`. |
| `FrontMatter.ContentLayout` | lib/ghost-export.js:46-53 | The file starts with `---\n`. The header ends with `---\n`. The markdown follows the header byte for byte. |
| `FrontMatter.FileLines` | lib/ghost-export.js:46-53 | If the title and tag names hold no newline, the file splits into the header's lines in order (title, optional date, layout, tags) followed by the markdown's lines. |
| `FrontMatter.TagsLineRoundTrip` | lib/ghost-export.js:50-51 | The tags value lists the post's tag names in link order: every split of the links splits the list the same way, and one link contributes its name exactly when it belongs to the post. When the post's own names are non-empty and comma-free they read back unchanged. A post without tags gets `tags: ` with an empty value. |
| `FrontMatter.TagsLineExample` | lib/ghost-export.js:50-51 | Tags `a` and `b` give the line `tags: a, b`. |
| `Text.JoinRoundTrip` | lib/ghost-export.js:50 | Splitting a `", "`-joined list of non-empty, comma-free names gives back the same names. |
| `Text.SplitUnlines` | lib/ghost-export.js:46-52 | Newline-free lines, each terminated by a newline, split back into the same lines, whatever text follows them. |
| `GhostExport.BuildFrontMatter` | lib/ghost-export.js:46-52 | Appending the lines one by one yields exactly the header: `---`, the title, a date line carrying the row's name prefix for non-drafts only, `layout: post`, the joined tags and `---`, each newline-terminated. |
| `GhostExport.WriteRow` | lib/ghost-export.js:35-55 | One row adds its directory. It sets its `index.md` to the front matter followed by the markdown. No other file changes. |
| `GhostExport.WriteRows` | lib/ghost-export.js:33-62 | The loop over the query's rows counts every row. It ends with each row's directory created and each `index.md` holding what the last row with that path wrote. |
| `GhostExport.Export` | lib/ghost-export.js:8-65 | A failed check reports its error with count 0 and leaves the filesystem unchanged. Otherwise the destination is created if absent, the selected rows are written, and the count is the number of selected rows. |
| `GhostExport.OutFileInjective` | lib/ghost-export.js:45 | Under one destination, two posts' output files coincide iff their directory names do. |
| `GhostExport.WrittenKeys` | lib/ghost-export.js:45-55 | The files written are exactly the `index.md` paths of the selected rows. |
| `GhostExport.LastWriterWins` | lib/ghost-export.js:55 | A row's file holds that row's content unless a later row has the same name. A later row with the same name overwrites the file rather than appending to it. |
| `GhostExport.ExportedFiles` | lib/ghost-export.js:19-55 | After an export the file paths are the old ones plus each selected post's `index.md`. Every other file keeps its content. The destination exists, and so does each selected post's directory. |
| `GhostExport.RerunIsIdempotent` | lib/ghost-export.js:10-62 | Running the export again with the same arguments and database passes the same checks and produces the identical filesystem. |

## Left out

- SQLite: opening the database, the query text and closing it. The rows and the tag links are inputs. A failure to open the database (the error callback at line 28) is not modelled.
- The per-row error reports (a query, tag-lookup or write error) are left out. They are I/O failures of the database or filesystem, which are not part of this model.
- Callback asynchrony is left out: rows are processed one at a time. The shared `prefix` variable that a later tag callback could read is modelled as a per-row value. So is the completion callback, which may fire before the writes finish.
- `dateformat` and `new Date(...)` are not part of this model. A date is a given year/month/day. Time zones are not modelled. A NULL `published_at` is taken as 1970-01-01 (the UTC reading of `new Date(null)`).
- `path.join` normalisation (`.`/`..` segments, doubled or trailing slashes) is left out. Paths are joined with a single `/`.
- `mkdir-recursive` also creates intermediate directories when a slug holds `/`. The model records only the post's own directory.
- `fs.mkdirSync` of the destination is modelled as adding it to the directory set. A missing parent directory, which would make the call throw, is not modelled.
- `FrontMatter.FileLines` holds only for titles and tag names without newlines, because the title and tag names are written verbatim.
- `Text.JoinRoundTrip` holds only for tag names that are non-empty and have no comma, because the `", "` join cannot be undone otherwise.
- The JavaScript truthiness of `source` and `destination` covers only an undefined value and the empty string. Non-string arguments are not modelled.
