# Continuum domain model in Dafny

Continuum is an iOS photo-sharing client backed by CloudKit. This project
models the two pure parts of its domain model (`Continuum/Model`):

- the **search predicate** `matches(searchTerm:)` of `Comment` and `Post`,
  unified by the `SearchableRecord` protocol, and
- the **record mapping** between `Post`/`Comment` and a CloudKit `CKRecord`:
  the encoders `CKRecord(post)` / `CKRecord(comment)` and the failable
  decoders `Post.init?(record:)` / `Comment.init?(record:)`.

Files and modules:

| file | module | models |
|---|---|---|
| `wrappers.dfy` | `Wrappers` | `Option`, for Swift optionals |
| `text.dfy` | `Text` | `lowercased()` as a character-wise `Lower`, `contains` as `Contains` |
| `records.dfy` | `Records` | `CKRecord`, `CKRecord.ID`, `CKAsset`, `CKRecord.Reference`, `setValue`, `as?` casts, the server's save |
| `comment.dfy` | `Comments` | Continuum/Model/Comment.swift |
| `post.dfy` | `Posts` | Continuum/Model/Post.swift |
| `searchable_record.dfy` | `SearchableRecords` | Continuum/Model/SearchableRecord.swift |

Modelling choices:

- A `Record` has a `recordType`, a `recordID`, an optional `creationDate`
  and a map from keys to tagged values `Str`, `DateValue`,
  `Asset(Option<Bytes>)` and `Ref(target, action)`. An asset's contents are
  `None` when its file cannot be read back.
- The decoders take the timestamp from `record.creationDate`, which only
  the server assigns. `Records.Saved(r, d)` models the server saving `r`
  with creation date `d`; the encoders produce records without one. So a
  round trip keeps identifier and text, but the timestamp becomes `d`.
- Record identifiers are ordinary parameters. The UUID default is not
  modelled.
- The weak `post` back-reference of a comment is `Option<PostId>`, the
  parent's record identifier.
- `Post.imageAsset` writes `photoData` to a temporary file. When
  `photoData` is nil, nothing is written and the asset cannot be read back.
  The model encodes the photo field as `Asset(p.photoData)`, assuming the
  write succeeds.
- `contains` is Foundation's `StringProtocol.contains`, which searches with
  `range(of:)` and never finds the empty string. So an empty search term,
  which is what the search bar holds once it is cleared, matches nothing.
- The decoders do not check `recordType`, and neither does the model.

## Model

| member | source | states |
|---|---|---|
| Text.Lower | Continuum/Model/Comment.swift:57 | the model's `lowercased()`: the result has the input's length and each character is the lower-cased input character at the same position |
| Text.Contains | Continuum/Model/Comment.swift:57 | the definition of `contains`: the term is non-empty and occurs as a window of the text; in the model, a string contains only non-empty terms no longer than itself |
| Text.ContainsLower | Continuum/Model/Comment.swift:57 | an exact occurrence of the term is also a case-insensitive occurrence |
| Text.LowerIdempotent | Continuum/Model/Post.swift:110 | lower-casing a lower-cased string changes nothing |
| Comments.Decode | Continuum/Model/Comment.swift:32-37 | decoding fails exactly when there is no string `"text"` field or no creation date; a decoded comment has no parent, the record's identifier, the field's text and the creation date as timestamp |
| Comments.Encode | Continuum/Model/Comment.swift:42-50 | requires a parent post; the record has type `"Comment"`, the comment's identifier, no creation date, and exactly the fields `text`, `timestamp` and `postReference`, the last a `deleteSelf` reference to the parent |
| Comments.RoundTrip | Continuum/Model/Comment.swift:32-50 | after the server saves an encoded comment with date `d`, decoding gives the same comment with timestamp `d` (not the written `timestamp` field) and no parent |
| Comments.UnsavedDoesNotDecode | Continuum/Model/Comment.swift:34 | an encoded comment not yet saved by the server does not decode |
| Comments.Matches | Continuum/Model/Comment.swift:55-58 | the definition of `matches(searchTerm:)`: the lower-cased text contains the lower-cased term; in the model, a match needs a non-empty term no longer than the text |
| Comments.MatchesIgnoresTermCase | Continuum/Model/Comment.swift:55-58 | terms with the same lower-cased form give the same answer |
| Comments.MatchesLoweredTerm | Continuum/Model/Comment.swift:57 | searching for the lower-cased term gives the same answer |
| Comments.MatchesExactOccurrence | Continuum/Model/Comment.swift:55-58 | a comment whose text contains the term exactly matches it |
| Posts.Decode | Continuum/Model/Post.swift:79-91 | decoding fails exactly when the caption is not a string, the creation date is missing, the photo field is not an asset or its bytes are unreadable; a decoded post has no comments, the record's identifier, caption and photo bytes, and the creation date as timestamp |
| Posts.Encode | Continuum/Model/Post.swift:96-101 | the record has type `"Post"`, the post's identifier, no creation date, and exactly the fields `caption`, `timestamp` and `photoData` holding the post's values |
| Posts.RoundTrip | Continuum/Model/Post.swift:79-101 | after the server saves the encoding of a post with photo data, decoding gives the same post with timestamp `d` (not the written `timestamp` field) and no comments; encoder and decoder share their keys |
| Posts.NoPhotoNoRoundTrip | Continuum/Model/Post.swift:60 | a post without photo data cannot be read back from its own encoding |
| Posts.UnsavedDoesNotDecode | Continuum/Model/Post.swift:81 | an encoded post not yet saved by the server does not decode |
| Posts.CaptionMatches | Continuum/Model/Post.swift:110 | the definition of the caption test: the lower-cased caption contains the lower-cased term; in the model, it needs a non-empty term no longer than the caption |
| Posts.Matches | Continuum/Model/Post.swift:107-122 | the definition of `matches(searchTerm:)`: true exactly when the lower-cased caption contains the lower-cased term or some comment of the post matches |
| Posts.AnyCommentMatches | Continuum/Model/Post.swift:115-119 | the in-order, first-match-wins comment loop is true exactly when some comment matches |
| Posts.MatchesInOrder | Continuum/Model/Post.swift:107-122 | the loop's answer equals `Posts.Matches`; a caption match returns before any comment is looked at; otherwise the loop stops at the first matching comment, or looks at all of them when none matches |
| Posts.CaptionMatchSuffices | Continuum/Model/Post.swift:110-112 | a caption match makes the post match whatever its comments are |
| Posts.CommentMatchSuffices | Continuum/Model/Post.swift:115-119 | one matching comment makes the post match |
| Posts.NoCommentsCaptionOnly | Continuum/Model/Post.swift:110-121 | a post without comments matches exactly when its caption does |
| Posts.MatchesIgnoresTermCase | Continuum/Model/Post.swift:110-116 | terms with the same lower-cased form give the same answer |
| Posts.EmptyTermMatchesNothing | Continuum/Model/Post.swift:107-122 | the empty search term matches no post, whatever its caption and comments |
| Posts.HelloIsFoundByLowerCaseTerm | Continuum/Model/Post.swift:110-112 | a post captioned "Hello" is found by "hello" |
| Posts.SunsetIsNotFoundByUnrelatedTerm | Continuum/Model/Post.swift:110-121 | a post captioned "Sunset view" without comments is not found by "comment123" |
| SearchableRecords.Matches | Continuum/Model/SearchableRecord.swift:11-15 | the protocol as the sum type `Searchable` of a post (`P`) or a comment (`C`) with one `matches`; no record matches the empty term |
| SearchableRecords.MatchesIgnoresTermCase | Continuum/Model/SearchableRecord.swift:11-15 | every searchable record, post or comment, matches case-insensitively in the term |
| SearchableRecords.PostFoundThroughComment | Continuum/Model/Post.swift:115-119 | a post is found whenever one of its comments is found |
| SearchableRecords.CaptionSearchedLikeCommentText | Continuum/Model/Post.swift:110 | without comments, a post is searched exactly like a comment whose text is the caption |

## Left out

- Text.Lower: models lower-casing of ASCII capitals only, because the proofs need a case mapping that works character by character. Swift's `lowercased()` applies full Unicode case mapping, which can lengthen a string ("İ" becomes "i" and a combining dot) and depends on context (a final Σ becomes ς). Text.ContainsLower and Comments.MatchesExactOccurrence therefore hold only for a character-wise mapping: for text "ΑΣΑ" and term "ΑΣ" Swift's comparison fails.
- Text.Contains: compares characters exactly, window by window. Foundation's `range(of:)` without options matches canonically equivalent sequences, so a text with a precomposed "é" contains a term ending in "e" and a combining acute accent, and a match can be longer than the text. The model finds no match there and bounds a match by the text's length; Unicode normalisation is not modelled.
- The JPEG re-encoding in the `photo` getter and setter (Continuum/Model/Post.swift:41-49) is a lossy UIKit call. The photo is modelled as opaque `Option<Bytes>`.
- Posts.Encode: writes the photo field as `Asset(p.photoData)`, assuming the temporary-file write behind `imageAsset` (Continuum/Model/Post.swift:53-65) succeeds. A failed write would leave the asset unreadable even with photo data; file-system I/O is not modelled, nor is the cleanup in `deinit` (Continuum/Model/Post.swift:68-77).
- The `didSet` on `comments` that posts a notification on the main queue (Continuum/Model/Post.swift:25-31) is notification and threading plumbing.
- UUID generation for default record identifiers (Continuum/Model/Post.swift:21, Continuum/Model/Comment.swift:21) is randomness. Identifiers are parameters.
- `Comment.init(text:timestamp:post:)` only assigns fields and is the datatype constructor. `Post.init(photo:caption:timestamp:comments:)` (Continuum/Model/Post.swift:34-39) also runs the `photo` setter, which JPEG-encodes the image; the model takes the resulting photo data as a constructor argument.
- The sync controller (`PostController`: create, fetch, comment back-fill, subscriptions, account status) talks to the network and is not part of this model.
- The application delegate, the table cell and the view controllers are UI code.
