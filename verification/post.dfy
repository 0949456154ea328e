/** A captioned photo post, its mapping to and from a `CKRecord`, and its
    search predicate (Continuum/Model/Post.swift). */
module Posts {

  import opened Wrappers
  import opened Records
  import Text
  import Comments

  const RecordTypeKey := "Post"
  const CaptionKey := "caption"
  const TimestampKey := "timestamp"
  const PhotoDataKey := "photoData"

  /** `photoData` is the encoded image, `None` when there is none; `comments`
      are owned and kept in the order they were appended. */
  datatype Post = Post(
    recordID: RecordId,
    photoData: Option<Bytes>,
    caption: string,
    timestamp: Date,
    comments: seq<Comments.Comment>)

  /** `Post.init?(record:)`. It fails when the caption is not a string, the
      record has no creation date, the photo field is not an asset, or the
      asset's bytes cannot be read. The timestamp comes from the record's
      creation date, not from the `timestamp` field, and the comments start
      empty. The record type is not checked. */
  function Decode(record: Record): (r: Option<Post>)
    ensures r.None? <==>
      || !(CaptionKey in record.fields && record.fields[CaptionKey].Str?)
      || record.creationDate.None?
      || !(PhotoDataKey in record.fields && record.fields[PhotoDataKey].Asset?)
      || record.fields[PhotoDataKey].contents.None?
    ensures r.Some? ==>
      && r.value.comments == []
      && r.value.recordID == record.recordID
      && record.fields[CaptionKey] == Str(r.value.caption)
      && record.creationDate == Some(r.value.timestamp)
      && record.fields[PhotoDataKey] == Asset(r.value.photoData)
      && r.value.photoData.Some?
  {
    match (StringField(record, CaptionKey), record.creationDate, AssetField(record, PhotoDataKey))
    case (Some(caption), Some(timestamp), Some(Some(photoData))) =>
      Some(Post(record.recordID, Some(photoData), caption, timestamp, []))
    case _ => None
  }

  /** `CKRecord(post)`: a new `Post` record with the post's identifier and
      the caption, timestamp and photo asset under their keys. The asset
      (`imageAsset`) is the photo data written to a temporary file; without
      photo data no file is written, so its bytes cannot be read back. */
  function Encode(p: Post): (r: Record)
    ensures r.recordType == RecordTypeKey && r.recordID == p.recordID
    ensures r.creationDate == None
    ensures r.fields.Keys == {CaptionKey, TimestampKey, PhotoDataKey}
    ensures r.fields[CaptionKey] == Str(p.caption)
    ensures r.fields[TimestampKey] == DateValue(p.timestamp)
    ensures r.fields[PhotoDataKey] == Asset(p.photoData)
  {
    var r0 := NewRecord(RecordTypeKey, p.recordID);
    var r1 := SetValue(r0, CaptionKey, Str(p.caption));
    var r2 := SetValue(r1, TimestampKey, DateValue(p.timestamp));
    SetValue(r2, PhotoDataKey, Asset(p.photoData))
  }

  /** Round trip: once the server has saved the encoding of a post that has
      photo data, with creation date `d`, decoding it gives back the post's
      identifier, caption and photo data; the timestamp becomes `d`, not the
      value written under `timestamp`, and the comments are empty (they are
      fetched separately). */
  lemma RoundTrip(p: Post, d: Date)
    requires p.photoData.Some?
    ensures Decode(Saved(Encode(p), d)) == Some(p.(timestamp := d, comments := []))
  {
  }

  /** A post without photo data cannot be read back from its own encoding.
      On the real service the save itself already fails here, since the
      asset has no file behind it; the decoder is never reached. */
  lemma NoPhotoNoRoundTrip(p: Post, d: Date)
    requires p.photoData.None?
    ensures Decode(Saved(Encode(p), d)) == None
  {
  }

  /** The encoding of a post cannot be decoded before the server has saved
      it, since only the server assigns a creation date. */
  lemma UnsavedDoesNotDecode(p: Post)
    ensures Decode(Encode(p)) == None
  {
  }

  /** The caption part of `matches(searchTerm:)`. */
  predicate CaptionMatches(p: Post, term: string)
    ensures CaptionMatches(p, term) ==> 0 < |term| <= |p.caption|
  {
    Text.Contains(Text.Lower(p.caption), Text.Lower(term))
  }

  /** The comment loop of `matches(searchTerm:)`: the comments are tried in
      order and the first one that matches ends the search. */
  function AnyCommentMatches(cs: seq<Comments.Comment>, term: string): (b: bool)
    ensures b <==> exists i :: 0 <= i < |cs| && Comments.Matches(cs[i], term)
  {
    if |cs| == 0 then false
    else Comments.Matches(cs[0], term) || AnyCommentMatches(cs[1..], term)
  }

  /** `matches(searchTerm:)`: the caption matches or one of the post's
      comments does. */
  predicate Matches(p: Post, term: string)
    ensures Matches(p, term) <==>
      || CaptionMatches(p, term)
      || exists c :: c in p.comments && Comments.Matches(c, term)
  {
    CaptionMatches(p, term) || AnyCommentMatches(p.comments, term)
  }

  /** `matches(searchTerm:)` as the loop it is written as: the caption is
      tried first; otherwise the comments are tried in order and the loop
      returns at the first match. `examined` counts the comments looked at. */
  method MatchesInOrder(p: Post, term: string) returns (b: bool, examined: nat)
    ensures b == Matches(p, term)
    ensures CaptionMatches(p, term) ==> b && examined == 0
    ensures !CaptionMatches(p, term) && b ==>
      && 1 <= examined <= |p.comments|
      && Comments.Matches(p.comments[examined - 1], term)
      && forall j :: 0 <= j < examined - 1 ==> !Comments.Matches(p.comments[j], term)
    ensures !b ==> examined == |p.comments|
  {
    if CaptionMatches(p, term) {
      return true, 0;
    }
    var i := 0;
    while i < |p.comments|
      invariant 0 <= i <= |p.comments|
      invariant forall j :: 0 <= j < i ==> !Comments.Matches(p.comments[j], term)
    {
      if Comments.Matches(p.comments[i], term) {
        return true, i + 1;
      }
      i := i + 1;
    }
    return false, i;
  }

  /** A caption match decides the search whatever the comments are. */
  lemma CaptionMatchSuffices(p: Post, term: string, cs: seq<Comments.Comment>)
    requires CaptionMatches(p, term)
    ensures Matches(p.(comments := cs), term)
  {
  }

  /** A matching comment makes its post match. */
  lemma CommentMatchSuffices(p: Post, term: string, c: Comments.Comment)
    requires c in p.comments && Comments.Matches(c, term)
    ensures Matches(p, term)
  {
  }

  /** A post without comments matches only through its caption. */
  lemma NoCommentsCaptionOnly(p: Post, term: string)
    requires p.comments == []
    ensures Matches(p, term) <==> CaptionMatches(p, term)
  {
  }

  /** Whether a post matches depends on the term only through its lower-cased
      form. */
  lemma MatchesIgnoresTermCase(p: Post, t1: string, t2: string)
    requires Text.Lower(t1) == Text.Lower(t2)
    ensures Matches(p, t1) <==> Matches(p, t2)
  {
  }

  /** An empty search term, what the search bar holds once it is cleared,
      matches no post: neither the caption nor any comment contains it. */
  lemma EmptyTermMatchesNothing(p: Post)
    ensures !Matches(p, "")
  {
  }

  /** A freshly created post captioned "Hello" is found by the search term
      "hello", whatever its photo and comments. */
  lemma HelloIsFoundByLowerCaseTerm(p: Post)
    requires p.caption == "Hello"
    ensures Matches(p, "hello")
  {
    assert Text.Lower("Hello") == "hello";
    assert Text.Lower("hello") == "hello";
    Text.ContainsAt("hello", "hello", 0);
  }

  /** A post captioned "Sunset view" without comments is not found by the
      search term "comment123". */
  lemma SunsetIsNotFoundByUnrelatedTerm(p: Post)
    requires p.caption == "Sunset view" && p.comments == []
    ensures !Matches(p, "comment123")
  {
  }
}
