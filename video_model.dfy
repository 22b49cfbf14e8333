/**
 * The Video schema (src/models/video.model.js): which paths are required, which are trimmed,
 * the defaults of `views` and `isPublished`, and the creation timestamp.
 */
module VideoModel {
  import opened Wrappers
  import opened Primitives
  import opened Text
  import opened Schemas

  datatype Video = Video(
    id: Id,
    title: string,
    description: string,
    duration: int,
    views: int,
    thumbnail: MediaRef,
    videoFile: MediaRef,
    owner: Option<Id>,
    isPublished: bool,
    createdAt: int)  // `timestamps: true`: the creation time, in milliseconds

  function VideoId(v: Video): Id { v.id }

  /** A media sub-document as supplied to `Video.create`; either field may be absent. */
  datatype MediaInput = MediaInput(url: Option<string>, publicId: Option<string>)

  /** The fields supplied to `Video.create`; an absent field is `None`. */
  datatype VideoInput = VideoInput(
    title: Option<string>,
    description: Option<string>,
    duration: Option<int>,
    views: Option<int>,
    thumbnail: MediaInput,
    videoFile: MediaInput,
    owner: Option<Id>,
    isPublished: Option<bool>)

  /** The schema paths marked `required`. */
  datatype Path = Title | Description | Duration | ThumbnailUrl | ThumbnailPublicId | VideoFileUrl | VideoFilePublicId

  /** The outcome of casting and validating a new document. */
  datatype Validated = Accepted(video: Video) | Rejected(paths: set<Path>)

  /** A `trim: true` String path: the setter trims the supplied value. */
  function TrimmedPath(v: Option<string>): Option<string> {
    match v
    case Some(s) => Some(Trim(s))
    case None => None
  }

  /** A `required: true` String path is satisfied only by a non-empty string. */
  predicate RequiredString(v: Option<string>) {
    v.Some? && v.value != ""
  }

  const RequiredPaths: set<Path> :=
    {Title, Description, Duration, ThumbnailUrl, ThumbnailPublicId, VideoFileUrl, VideoFilePublicId}

  /** The value supplied for a required path does not satisfy it. */
  predicate Lacks(input: VideoInput, p: Path) {
    match p
    case Title => !RequiredString(TrimmedPath(input.title))
    case Description => !RequiredString(TrimmedPath(input.description))
    case Duration => input.duration.None?
    case ThumbnailUrl => !RequiredString(input.thumbnail.url)
    case ThumbnailPublicId => !RequiredString(input.thumbnail.publicId)
    case VideoFileUrl => !RequiredString(input.videoFile.url)
    case VideoFilePublicId => !RequiredString(input.videoFile.publicId)
  }

  /** The required paths a document lacks (the keys of a ValidationError's `errors`). */
  function MissingPaths(input: VideoInput): (r: set<Path>)
    ensures forall p :: p in r <==> Lacks(input, p)
    ensures Title in r <==> input.title.None? || AllSpace(input.title.value)
    ensures Description in r <==> input.description.None? || AllSpace(input.description.value)
  {
    set p | p in RequiredPaths && Lacks(input, p)
  }

  /**
   * `new Video(input)` followed by validation: setters trim title and description, defaults fill
   * `views` and `isPublished`, `createdAt` is the clock's reading `now`, and the document is
   * rejected when a required path is missing.
   */
  function NewVideo(id: Id, now: int, input: VideoInput): (r: Validated)
    ensures r.Accepted? <==>
      input.title.Some? && !AllSpace(input.title.value)
      && input.description.Some? && !AllSpace(input.description.value)
      && input.duration.Some?
      && RequiredString(input.thumbnail.url) && RequiredString(input.thumbnail.publicId)
      && RequiredString(input.videoFile.url) && RequiredString(input.videoFile.publicId)
    ensures r.Rejected? ==> r.paths == MissingPaths(input) && r.paths != {}
    ensures r.Accepted? ==> r.video.id == id && r.video.owner == input.owner && r.video.createdAt == now
    ensures r.Accepted? ==> r.video.title == Trim(input.title.value) && r.video.title != ""
    ensures r.Accepted? ==> r.video.description == Trim(input.description.value) && r.video.description != ""
    ensures r.Accepted? ==> r.video.duration == input.duration.value
    ensures r.Accepted? ==> r.video.thumbnail == MediaRef(input.thumbnail.url.value, input.thumbnail.publicId.value)
    ensures r.Accepted? ==> r.video.videoFile == MediaRef(input.videoFile.url.value, input.videoFile.publicId.value)
    ensures r.Accepted? && input.views.None? ==> r.video.views == 0
    ensures r.Accepted? && input.views.Some? ==> r.video.views == input.views.value
    ensures r.Accepted? && input.isPublished.None? ==> r.video.isPublished
    ensures r.Accepted? && input.isPublished.Some? ==> r.video.isPublished == input.isPublished.value
  {
    var missing := MissingPaths(input);
    if missing != {} then Rejected(missing)
    else
      assert !Lacks(input, Duration) && !Lacks(input, ThumbnailUrl) && !Lacks(input, ThumbnailPublicId)
        && !Lacks(input, VideoFileUrl) && !Lacks(input, VideoFilePublicId);
      Accepted(Video(
        id,
        TrimmedPath(input.title).value,
        TrimmedPath(input.description).value,
        input.duration.value,
        input.views.GetOr(0),
        MediaRef(input.thumbnail.url.value, input.thumbnail.publicId.value),
        MediaRef(input.videoFile.url.value, input.videoFile.publicId.value),
        input.owner,
        input.isPublished.GetOr(true),
        now))
  }
}
