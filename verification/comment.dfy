/** A comment on a post, its mapping to and from a `CKRecord`, and its
    search predicate (Continuum/Model/Comment.swift). */
module Comments {

  import opened Wrappers
  import opened Records
  import Text

  const TypeKey := "Comment"
  const TextKey := "text"
  const TimestampKey := "timestamp"
  const PostReferenceKey := "postReference"

  /** The identifier of the post a comment belongs to. */
  type PostId = RecordId

  /** `post` is the weak back-reference to the parent post, kept as the
      parent's identifier; `None` when there is no parent. */
  datatype Comment = Comment(recordID: RecordId, text: string, timestamp: Date, post: Option<PostId>)

  /** `Comment.init?(record:)`. It reads the field under the literal key
      `"text"` and the record's server-assigned creation date, never the
      `timestamp` field; it leaves the parent reference empty. */
  function Decode(record: Record): (r: Option<Comment>)
    ensures r.None? <==>
      || !("text" in record.fields && record.fields["text"].Str?)
      || record.creationDate.None?
    ensures r.Some? ==>
      && r.value.post == None
      && r.value.recordID == record.recordID
      && record.fields["text"] == Str(r.value.text)
      && record.creationDate == Some(r.value.timestamp)
  {
    match StringField(record, "text")
    case None => None
    case Some(text) =>
      match record.creationDate
      case None => None
      case Some(timestamp) => Some(Comment(record.recordID, text, timestamp, None))
  }

  /** `CKRecord(comment)`. A comment without a parent post stops the program,
      so the parent is a precondition. */
  function Encode(c: Comment): (r: Record)
    requires c.post.Some?
    ensures r.recordType == TypeKey && r.recordID == c.recordID
    ensures r.creationDate == None
    ensures r.fields.Keys == {TextKey, TimestampKey, PostReferenceKey}
    ensures r.fields[TextKey] == Str(c.text)
    ensures r.fields[TimestampKey] == DateValue(c.timestamp)
    ensures r.fields[PostReferenceKey] == Ref(c.post.value, DeleteSelf)
  {
    var r0 := NewRecord(TypeKey, c.recordID);
    var r1 := SetValue(r0, TextKey, Str(c.text));
    var r2 := SetValue(r1, TimestampKey, DateValue(c.timestamp));
    SetValue(r2, PostReferenceKey, Ref(c.post.value, DeleteSelf))
  }

  /** `matches(searchTerm:)`: the lower-cased text contains the lower-cased
      term. */
  predicate Matches(c: Comment, term: string)
    ensures Matches(c, term) ==> 0 < |term| <= |c.text|
  {
    Text.Contains(Text.Lower(c.text), Text.Lower(term))
  }

  /** Round trip: once the server has saved an encoded comment with creation
      date `d`, decoding it gives back the comment's identifier and text;
      the timestamp becomes `d`, not the value written under `timestamp`,
      and the parent reference is lost. */
  lemma RoundTrip(c: Comment, d: Date)
    requires c.post.Some?
    ensures Decode(Saved(Encode(c), d)) == Some(c.(timestamp := d, post := None))
  {
  }

  /** A record that has not been saved yet has no creation date, so the
      encoding of a comment cannot be decoded before the server saves it. */
  lemma UnsavedDoesNotDecode(c: Comment)
    requires c.post.Some?
    ensures Decode(Encode(c)) == None
  {
  }

  /** Whether a comment matches depends on the term only through its
      lower-cased form. */
  lemma MatchesIgnoresTermCase(c: Comment, t1: string, t2: string)
    requires Text.Lower(t1) == Text.Lower(t2)
    ensures Matches(c, t1) <==> Matches(c, t2)
  {
  }

  /** Searching with the lower-cased term gives the same answer. */
  lemma MatchesLoweredTerm(c: Comment, term: string)
    ensures Matches(c, term) <==> Matches(c, Text.Lower(term))
  {
    Text.LowerIdempotent(term);
  }

  /** A text that contains the term exactly also matches it. */
  lemma MatchesExactOccurrence(c: Comment, term: string)
    requires Text.Contains(c.text, term)
    ensures Matches(c, term)
  {
    Text.ContainsLower(c.text, term);
  }
}
