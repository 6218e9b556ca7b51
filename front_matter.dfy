/**
 * The front-matter header written at the top of each exported file, and the
 * tag names it lists.
 */
module FrontMatter {
  import opened Text
  import opened Posts
  import opened Naming

  /** The names linked to post `id`, in the order the join returns them. */
  function TagNames(links: seq<TagLink>, id: int): (names: seq<String>)
    ensures |names| <= |links|
    ensures forall n :: n in names <==> TagLink(id, n) in links
  {
    if links == [] then []
    else
      var rest := TagNames(links[1..], id);
      if links[0].postId == id then [links[0].name] + rest else rest
  }

  const Fence: String := "---"
  const LayoutLine: String := "layout: post"

  /** The value of the `tags:` line: the names joined with ", ". */
  function TagsValue(names: seq<String>): String {
    Join(names, ", ")
  }

  /**
   * The header's lines, in order: the opening fence, the title as written,
   * the date line for non-drafts only (carrying the whole name prefix, dash
   * included), the layout, the tags and the closing fence.
   */
  function HeaderLines(p: Post, names: seq<String>): seq<String> {
    [Fence, "title: " + p.title]
    + (if IsDraft(p) then [] else ["date: " + Prefix(p)])
    + [LayoutLine, "tags: " + TagsValue(names), Fence]
  }

  function Header(p: Post, names: seq<String>): String {
    Unlines(HeaderLines(p, names))
  }

  /** The file written for a post: its header followed by its markdown. */
  function Content(p: Post, names: seq<String>): String {
    Header(p, names) + p.markdown
  }

  predicate IsDateLine(l: String) {
    |l| >= 6 && l[..6] == "date: "
  }

  /**
   * The header has a date line exactly when the post is not a draft; that line
   * comes right after the title and carries the post's name prefix.
   */
  lemma DateLineIffNotDraft(p: Post, names: seq<String>)
    ensures (exists i :: 0 <= i < |HeaderLines(p, names)| && IsDateLine(HeaderLines(p, names)[i]))
      <==> !IsDraft(p)
    ensures forall i :: 0 <= i < |HeaderLines(p, names)| && IsDateLine(HeaderLines(p, names)[i]) ==>
      i == 2 && HeaderLines(p, names)[i] == "date: " + Prefix(p)
  {
    var ls := HeaderLines(p, names);
    forall i | 0 <= i < |ls| && i != 2
      ensures !IsDateLine(ls[i])
    {
      assert |ls[i]| >= 1 && ls[i][0] != 'd';
      if |ls[i]| >= 6 { assert ls[i][..6][0] == ls[i][0]; }
    }
    if IsDraft(p) {
      assert !IsDateLine(ls[2]) by {
        assert ls[2] == LayoutLine;
        assert LayoutLine[..6] != "date: " by { assert LayoutLine[..6][0] == 'l'; }
      }
    } else {
      assert ls[2] == "date: " + Prefix(p);
      assert ls[2][..6] == "date: ";
    }
  }

  /**
   * The header opens and closes with a fence and holds no other fence line, so
   * the block ends exactly where the exporter meant it to.
   */
  lemma FencesOnlyAtEnds(p: Post, names: seq<String>)
    ensures HeaderLines(p, names)[0] == Fence
    ensures HeaderLines(p, names)[|HeaderLines(p, names)| - 1] == Fence
    ensures forall i :: 0 < i < |HeaderLines(p, names)| - 1 ==> HeaderLines(p, names)[i] != Fence
  {

  }

  /**
   * A file starts with "---\n", its header ends with "---\n", and the post's
   * markdown follows the header unchanged.
   */
  lemma ContentLayout(p: Post, names: seq<String>)
    ensures |Header(p, names)| >= 8
    ensures Content(p, names)[..4] == "---\n"
    ensures Content(p, names)[|Header(p, names)| - 4..|Header(p, names)|] == "---\n"
    ensures Content(p, names)[|Header(p, names)|..] == p.markdown
  {
    var ls := HeaderLines(p, names);
    var h := Header(p, names);
    var c := Content(p, names);
    assert h == Fence + "\n" + Unlines(ls[1..]);
    UnlinesEndsWithLast(ls);
    assert |h| >= 8;
    assert c[..4] == h[..4];
    assert c[|h| - 4..|h|] == h[|h| - 4..];
  }

  lemma DatePrefixHasNoNewline(d: Date)
    ensures NoNewline(DatePrefix(d))
  {

  }

  /**
   * When neither the title nor a tag name holds a newline, splitting the file
   * into lines gives back the header's lines followed by the markdown's.
   */
  lemma FileLines(p: Post, names: seq<String>)
    requires NoNewline(p.title)
    requires forall i :: 0 <= i < |names| ==> NoNewline(names[i])
    ensures SplitLines(Content(p, names)) == HeaderLines(p, names) + SplitLines(p.markdown)
  {
    var ls := HeaderLines(p, names);
    assert NoNewline(TagsValue(names)) by { JoinHasNoNewline(names); }
    if !IsDraft(p) {
      DatePrefixHasNoNewline(PublishedDate(p));
    }
    forall i | 0 <= i < |ls|
      ensures NoNewline(ls[i])
    {
    }
    SplitUnlines(ls, p.markdown);
  }

  lemma {:induction false} JoinHasNoNewline(names: seq<String>)
    requires forall i :: 0 <= i < |names| ==> NoNewline(names[i])
    ensures NoNewline(Join(names, ", "))
  {
    if |names| > 1 {
      JoinHasNoNewline(names[1..]);
      assert Join(names, ", ") == names[0] + ", " + Join(names[1..], ", ");
    }
  }

  /**
   * The tag names keep link order: the names of two consecutive stretches of
   * the links are those of the first followed by those of the second.
   */
  lemma {:induction false} TagNamesAppend(a: seq<TagLink>, b: seq<TagLink>, id: int)
    ensures TagNames(a + b, id) == TagNames(a, id) + TagNames(b, id)
  {
    if a == [] {
      assert a + b == b;
    } else {
      assert (a + b)[0] == a[0];
      assert (a + b)[1..] == a[1..] + b;
      TagNamesAppend(a[1..], b, id);
    }
  }

  /** A tag name is listed as often as a link joins the post to it. */
  lemma {:induction false} TagNamesCount(links: seq<TagLink>, id: int)
    ensures forall n :: multiset(TagNames(links, id))[n] == multiset(links)[TagLink(id, n)]
  {
    if links != [] {
      TagNamesCount(links[1..], id);
      assert links == [links[0]] + links[1..];
      assert multiset(links) == multiset{links[0]} + multiset(links[1..]);
    }
  }

  /**
   * The tags line lists the post's tag names in link order: every split of
   * the links splits the list the same way, and a single link contributes its
   * name exactly when it belongs to the post. With non-empty, comma-free names
   * the value reads back as exactly those names, and a post without tags gets
   * an empty value.
   */
  lemma TagsLineRoundTrip(links: seq<TagLink>, id: int)
    requires forall i :: 0 <= i < |links| && links[i].postId == id ==> links[i].name != [] && ',' !in links[i].name
    ensures forall k :: 0 <= k <= |links| ==>
      TagNames(links, id) == TagNames(links[..k], id) + TagNames(links[k..], id)
    ensures forall l: TagLink :: TagNames([l], id) == if l.postId == id then [l.name] else []
    ensures ParseList(TagsValue(TagNames(links, id))) == TagNames(links, id)
    ensures TagNames(links, id) == [] ==> TagsValue(TagNames(links, id)) == ""
  {
    forall k | 0 <= k <= |links|
      ensures TagNames(links, id) == TagNames(links[..k], id) + TagNames(links[k..], id)
    {
      assert links == links[..k] + links[k..];
      TagNamesAppend(links[..k], links[k..], id);
    }
    forall l: TagLink
      ensures TagNames([l], id) == if l.postId == id then [l.name] else []
    {
      assert [l][1..] == [];
    }
    var names := TagNames(links, id);
    forall i | 0 <= i < |names|
      ensures names[i] != [] && ',' !in names[i]
    {
      assert TagLink(id, names[i]) in links;
      var j :| 0 <= j < |links| && links[j] == TagLink(id, names[i]);
    }
    JoinRoundTrip(names);
  }

  /** Two tags "a" and "b" give the line "tags: a, b". */
  lemma TagsLineExample()
    ensures "tags: " + TagsValue(["a", "b"]) == "tags: a, b"
  {
  }
}
