/** The `SearchableRecord` protocol (Continuum/Model/SearchableRecord.swift):
    posts and comments both answer `matches(searchTerm:)`, so search results
    can mix the two. */
module SearchableRecords {

  import Text
  import Comments
  import Posts

  datatype Searchable = P(post: Posts.Post) | C(comment: Comments.Comment)

  /** `matches(searchTerm:)`, dispatched on the kind of record. */
  predicate Matches(r: Searchable, term: string)
    ensures Matches(r, term) ==> |term| > 0
  {
    match r
    case P(p) => Posts.Matches(p, term)
    case C(c) => Comments.Matches(c, term)
  }

  /** Every searchable record matches case-insensitively in the term: two
      terms with the same lower-cased form give the same answer. */
  lemma MatchesIgnoresTermCase(r: Searchable, t1: string, t2: string)
    requires Text.Lower(t1) == Text.Lower(t2)
    ensures Matches(r, t1) <==> Matches(r, t2)
  {
  }

  /** A post is found whenever one of its comments is found. */
  lemma PostFoundThroughComment(p: Posts.Post, c: Comments.Comment, term: string)
    requires c in p.comments && Matches(C(c), term)
    ensures Matches(P(p), term)
  {
  }

  /** A post and a comment with the same text as the post's caption are
      found by the same terms when the post has no comments. */
  lemma CaptionSearchedLikeCommentText(p: Posts.Post, c: Comments.Comment, term: string)
    requires p.comments == [] && c.text == p.caption
    ensures Matches(P(p), term) <==> Matches(C(c), term)
  {
  }
}
