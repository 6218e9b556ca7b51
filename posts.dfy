/**
 * The rows the exporter reads: posts, their publication dates already split
 * into calendar fields, and the post-to-tag association as a list of links.
 */
module Posts {
  import opened Results
  import opened Text

  /** A calendar date as `dateformat` sees it: full year, month 1-12, day 1-31. */
  datatype Date = Date(year: nat, month: nat, day: nat)

  /** The date `new Date(null)` stands for: the start of 1970. */
  const Epoch := Date(1970, 1, 1)

  predicate ValidDate(d: Date) {
    d.year < 10000 && 1 <= d.month <= 12 && 1 <= d.day <= 31
  }

  /** One row of the `posts` table, with the columns the exporter reads. */
  datatype Post = Post(
    id: int,
    title: String,
    slug: String,
    status: String,
    publishedAt: Option<Date>,
    markdown: String)

  /** One row of the `posts_tags` join with `tags`: a post id and a tag name. */
  datatype TagLink = TagLink(postId: int, name: String)

  const DraftStatus: String := "draft"

  predicate IsDraft(p: Post) {
    p.status == DraftStatus
  }

  /** The date a post's `published_at` formats as; a NULL column reads as the epoch. */
  function PublishedDate(p: Post): Date {
    match p.publishedAt
    case Some(d) => d
    case None => Epoch
  }
}
