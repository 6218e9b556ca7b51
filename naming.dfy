/**
 * The directory name of an exported post: "draft-" and the slug for a
 * draft, otherwise the publication date as "yyyy-mm-dd-" and the slug.
 */
module Naming {
  import opened Results
  import opened Text
  import opened Posts

  const DraftPrefix: String := "draft-"

  /** `dateformat(date, 'yyyy-mm-dd-')`: zero-padded year, month and day, each followed by a dash. */
  function DatePrefix(d: Date): String {
    Pad(d.year, 4) + "-" + Pad(d.month, 2) + "-" + Pad(d.day, 2) + "-"
  }

  function Prefix(p: Post): String {
    if IsDraft(p) then DraftPrefix else DatePrefix(PublishedDate(p))
  }

  /** The post's directory name under the destination. */
  function Name(p: Post): String {
    Prefix(p) + p.slug
  }

  /** Shape of a date prefix: four digits, two, two, each followed by a dash. */
  predicate IsDatePrefix(s: String) {
    && |s| >= 11
    && AllDigits(s[0..4]) && s[4] == '-'
    && AllDigits(s[5..7]) && s[7] == '-'
    && AllDigits(s[8..10]) && s[10] == '-'
  }

  function ReadDate(s: String): Date
    requires IsDatePrefix(s)
  {
    Date(ParseDigits(s[0..4]), ParseDigits(s[5..7]), ParseDigits(s[8..10]))
  }

  /**
   * A valid date's prefix is always eleven characters, dashes at 4, 7 and 10,
   * digits elsewhere, and reads back as the same date.
   */
  lemma DatePrefixRoundTrip(d: Date)
    requires ValidDate(d)
    ensures |DatePrefix(d)| == 11
    ensures IsDatePrefix(DatePrefix(d)) && ReadDate(DatePrefix(d)) == d
  {
    var y, m, dd := Pad(d.year, 4), Pad(d.month, 2), Pad(d.day, 2);
    assert Pow10(4) == 10000 && Pow10(2) == 100;
    PadLength(d.year, 4);
    PadLength(d.month, 2);
    PadLength(d.day, 2);
    var s := DatePrefix(d);
    assert s == y + "-" + m + "-" + dd + "-";
    assert s[0..4] == y && s[5..7] == m && s[8..10] == dd;
    PadRoundTrip(d.year, 4);
    PadRoundTrip(d.month, 2);
    PadRoundTrip(d.day, 2);
  }

  /** What a directory name tells about its post. */
  datatype NameParts = DraftName(slug: String) | DatedName(date: Date, slug: String)

  function NameOf(p: Post): NameParts {
    if IsDraft(p) then DraftName(p.slug) else DatedName(PublishedDate(p), p.slug)
  }

  /** Reads a directory name back into its parts; `None` for a name the exporter never writes. */
  function ParseName(s: String): Option<NameParts> {
    if |s| >= 6 && s[..6] == DraftPrefix then Some(DraftName(s[6..]))
    else if IsDatePrefix(s) then Some(DatedName(ReadDate(s), s[11..]))
    else None
  }

  /** Posts whose directory name is determined by what the exporter reads. */
  predicate WellDated(p: Post) {
    IsDraft(p) || ValidDate(PublishedDate(p))
  }

  /**
   * A directory name records whether the post is a draft, its slug and, for a
   * non-draft, its publication date.
   */
  lemma NameRoundTrip(p: Post)
    requires WellDated(p)
    ensures ParseName(Name(p)) == Some(NameOf(p))
  {
    var n := Name(p);
    if IsDraft(p) {
      assert n[..6] == DraftPrefix && n[6..] == p.slug;
    } else {
      var d := PublishedDate(p);
      DatePrefixRoundTrip(d);
      var pre := DatePrefix(d);
      assert n[..11] == pre && n[11..] == p.slug;
      assert IsDigit(n[0]) by { assert n[0] == pre[0] == pre[0..4][0]; }
      assert n[..6] != DraftPrefix by { assert n[..6][0] == n[0]; }
      assert n[0..4] == pre[0..4] && n[5..7] == pre[5..7] && n[8..10] == pre[8..10];
    }
  }

  /**
   * Two posts share a directory (and so overwrite each other) only when they
   * agree on draft status and slug and, if not drafts, on publication date.
   */
  lemma NameCollision(p: Post, q: Post)
    requires WellDated(p) && WellDated(q)
    ensures Name(p) == Name(q) <==> NameOf(p) == NameOf(q)
  {
    NameRoundTrip(p);
    NameRoundTrip(q);
  }

  /** A draft's name starts with "draft-"; a non-draft's with a digit, so the two never meet. */
  lemma DraftAndDatedNamesDiffer(p: Post, q: Post)
    requires IsDraft(p) && !IsDraft(q)
    ensures Name(p) != Name(q)
  {
    var d := PublishedDate(q);
    var y := Pad(d.year, 4);
    assert Name(q)[0] == y[0] by {
      assert Name(q) == y + ("-" + Pad(d.month, 2) + "-" + Pad(d.day, 2) + "-" + q.slug);
    }
    assert Name(p)[0] == 'd';
  }

  /** The example date 2021-03-05 gives the prefix "2021-03-05-". */
  lemma DatePrefixExample()
    ensures DatePrefix(Date(2021, 3, 5)) == "2021-03-05-"
  {

  }
}
