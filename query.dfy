/** The status filter chosen from the `published` and `drafts` flags. */
module Query {
  import opened Text
  import opened Posts

  /** The three WHERE clauses the exporter can put on `SELECT * FROM posts`. */
  datatype Filter =
    | NotDrafts   // WHERE status IS NOT "draft"
    | OnlyDrafts  // WHERE status IS "draft"
    | AllPosts    // no WHERE clause

  /** Whether a row with this status passes the filter. */
  predicate Selects(f: Filter, status: String) {
    match f
    case NotDrafts => status != DraftStatus
    case OnlyDrafts => status == DraftStatus
    case AllPosts => true
  }

  /**
   * The filter for the two flags. Drafts are kept exactly when `drafts` is set
   * or `published` is not; non-drafts exactly when `published` is set or
   * `drafts` is not. So both flags false exports everything, like both true.
   */
  function WhereClause(published: bool, drafts: bool): (f: Filter)
    ensures forall status :: Selects(f, status) <==>
      if status == DraftStatus then drafts || !published else published || !drafts
    ensures f == AllPosts <==> published == drafts
  {
    if published && !drafts then NotDrafts
    else if !published && drafts then OnlyDrafts
    else AllPosts
  }

  /** The rows the query returns, in table order. */
  function Selected(posts: seq<Post>, f: Filter): seq<Post>
  {
    if posts == [] then []
    else
      var last := posts[|posts| - 1];
      Selected(posts[..|posts| - 1], f) + if Selects(f, last.status) then [last] else []
  }

  /** The query returns exactly the posts that pass the filter, and no more rows than the table holds. */
  lemma {:induction false} SelectedMembers(posts: seq<Post>, f: Filter)
    ensures |Selected(posts, f)| <= |posts|
    ensures forall p :: p in Selected(posts, f) <==> p in posts && Selects(f, p.status)
  {
    if posts != [] {
      var init := posts[..|posts| - 1];
      SelectedMembers(init, f);
      assert posts == init + [posts[|posts| - 1]];
    }
  }

  /**
   * The query keeps table order: the rows of two consecutive stretches of the
   * table are those of the first followed by those of the second.
   */
  lemma {:induction false} SelectedAppend(a: seq<Post>, b: seq<Post>, f: Filter)
    ensures Selected(a + b, f) == Selected(a, f) + Selected(b, f)
    decreases |b|
  {
    if b == [] {
      assert a + b == a;
    } else {
      var init := b[..|b| - 1];
      var last := b[|b| - 1];
      var tail := if Selects(f, last.status) then [last] else [];
      assert (a + b)[..|a + b| - 1] == a + init;
      assert (a + b)[|a + b| - 1] == last;
      SelectedAppend(a, init, f);
      calc {
        Selected(a + b, f);
        Selected(a + init, f) + tail;
        Selected(a, f) + Selected(init, f) + tail;
        Selected(a, f) + (Selected(init, f) + tail);
        Selected(a, f) + Selected(b, f);
      }
    }
  }

  /**
   * Each row appears in the result as often as in the table when it passes
   * the filter, and not at all otherwise.
   */
  lemma {:induction false} SelectedCount(posts: seq<Post>, f: Filter)
    ensures forall p :: multiset(Selected(posts, f))[p] == if Selects(f, p.status) then multiset(posts)[p] else 0
  {
    if posts != [] {
      var init := posts[..|posts| - 1];
      var last := posts[|posts| - 1];
      SelectedCount(init, f);
      assert posts == init + [last];
      assert multiset(posts) == multiset(init) + multiset{last};
    }
  }

  /** Without a WHERE clause the query returns the whole table, in order. */
  lemma {:induction false} SelectedAll(posts: seq<Post>)
    ensures Selected(posts, AllPosts) == posts
  {
    if posts != [] {
      var init := posts[..|posts| - 1];
      SelectedAll(init);
      assert posts == init + [posts[|posts| - 1]];
    }
  }
}
