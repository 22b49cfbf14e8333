/**
 * The video handlers (src/controllers/video.controller.js): the searchable listing, built as
 * an aggregation pipeline, then publishing, the detail view, updates, deletion and the publish
 * toggle.
 */
module Videos {
  import opened Wrappers
  import opened Primitives
  import opened Text
  import opened Errors
  import opened Schemas
  import opened VideoModel
  import opened Database
  import opened Subscriptions
  import opened Ordering
  import Users

  // ---------------------------------------------------------------------------------------
  // getAllVideos: the pipeline and what it computes

  /**
   * A video's `owner` as it passes through the pipeline: the stored id, then the array the
   * `$lookup` joins in, then that array's first element.
   */
  datatype OwnerField = OwnerRef(ref: Option<Id>) | OwnerArray(cards: seq<UserCard>) | OwnerDoc(doc: Option<UserCard>)

  datatype VideoRow = VideoRow(video: Video, owner: OwnerField)

  /**
   * The `$match` document: the `$or` of the two case-insensitive `$regex` conditions when a
   * search text is given, and the `owner` condition when a user id is.
   */
  datatype Filter = Filter(search: Option<string>, owner: Option<Id>)

  datatype Stage =
    | Match(filter: Filter)
    | Sort(field: string, direction: Direction)
    | LookupOwner  // `$lookup` of the owner among the users, projected to fullname, username, avatar
    | FirstOwner   // `$addFields: { owner: { $first: "$owner" } }`

  predicate Matches(f: Filter, v: Video) {
    (f.search.None? || ContainsIgnoringCase(v.title, f.search.value)
     || ContainsIgnoringCase(v.description, f.search.value))
    && (f.owner.None? || v.owner == f.owner)
  }

  /**
   * The paths of a stored video that a `$sort` placed before the owner `$lookup` can see: the
   * schema's paths, the media sub-document paths, `_id`, the version key and `createdAt`.
   */
  const SortablePaths: set<string> :=
    {"_id", "title", "description", "duration", "views", "owner", "isPublished", "createdAt", "__v",
     "thumbnail.url", "thumbnail.public_id", "videoFile.url", "videoFile.public_id"}

  /**
   * The value a `$sort` on `field` sees. Ids (`_id`, `owner`) compare as their lower-case hex
   * spelling, which orders them as ObjectIds do; `createdAt` compares by time; the version key
   * is 0 on every document. Any other path, and a null owner, is missing.
   */
  function FieldKey(v: Video, field: string): (k: SortKey)
    ensures k.Missing? <==> field !in SortablePaths || (field == "owner" && v.owner.None?)
    ensures field == "createdAt" ==> k == Num(v.createdAt)
    ensures field == "_id" ==> k == Str(v.id)
    ensures field == "thumbnail.public_id" ==> k == Str(v.thumbnail.publicId)
    ensures field == "videoFile.public_id" ==> k == Str(v.videoFile.publicId)
  {
    if field == "_id" then Str(v.id)
    else if field == "title" then Str(v.title)
    else if field == "description" then Str(v.description)
    else if field == "duration" then Num(v.duration)
    else if field == "views" then Num(v.views)
    else if field == "owner" then (if v.owner.Some? then Str(v.owner.value) else Missing)
    else if field == "isPublished" then Flag(v.isPublished)
    else if field == "createdAt" then Num(v.createdAt)
    else if field == "__v" then Num(0)
    else if field == "thumbnail.url" then Str(v.thumbnail.url)
    else if field == "thumbnail.public_id" then Str(v.thumbnail.publicId)
    else if field == "videoFile.url" then Str(v.videoFile.url)
    else if field == "videoFile.public_id" then Str(v.videoFile.publicId)
    else Missing
  }

  /** `sortBy=createdAt&sortType=desc` lists the newest video first. */
  lemma NewestFirst(rows: seq<VideoRow>)
    ensures var sorted := SortBy(rows, RowKey("createdAt"), Descending);
      forall i, j :: 0 <= i < j < |sorted| ==> sorted[i].video.createdAt >= sorted[j].video.createdAt
  {
    var sorted := SortBy(rows, RowKey("createdAt"), Descending);
    SortBySorted(rows, RowKey("createdAt"), Descending);
    forall i, j | 0 <= i < j < |sorted|
      ensures sorted[i].video.createdAt >= sorted[j].video.createdAt
    {
      assert InOrder(Descending, RowKey("createdAt")(sorted[i]), RowKey("createdAt")(sorted[j]));
    }
  }

  function RowKey(field: string): VideoRow -> SortKey {
    (r: VideoRow) => FieldKey(r.video, field)
  }

  function RowMatches(f: Filter): VideoRow -> bool {
    (r: VideoRow) => Matches(f, r.video)
  }

  function JoinOwner(users: seq<User>, owner: OwnerField): OwnerField {
    match owner
    case OwnerRef(Some(id)) => OwnerArray(OwnerCards(users, id))
    case _ => OwnerArray([])
  }

  function FirstOf(owner: OwnerField): OwnerField {
    match owner
    case OwnerArray(cards) => OwnerDoc(if cards == [] then None else Some(cards[0]))
    case _ => owner
  }

  function Joiner(users: seq<User>): VideoRow -> VideoRow {
    (r: VideoRow) => r.(owner := JoinOwner(users, r.owner))
  }

  function Collapser(): VideoRow -> VideoRow {
    (r: VideoRow) => r.(owner := FirstOf(r.owner))
  }

  function RunStage(users: seq<User>, rows: seq<VideoRow>, stage: Stage): seq<VideoRow> {
    match stage
    case Match(f) => Select(rows, RowMatches(f))
    case Sort(field, dir) => SortBy(rows, RowKey(field), dir)
    case LookupOwner => Map(rows, Joiner(users))
    case FirstOwner => Map(rows, Collapser())
  }

  /** The stages applied one after another to the rows. */
  function RunPipeline(users: seq<User>, rows: seq<VideoRow>, stages: seq<Stage>): seq<VideoRow>
    decreases |stages|
  {
    if stages == [] then rows else RunPipeline(users, RunStage(users, rows, stages[0]), stages[1..])
  }

  function AsRow(v: Video): VideoRow {
    VideoRow(v, OwnerRef(v.owner))
  }

  function DirectionOf(sortType: string): Direction {
    if sortType == "desc" then Descending else Ascending
  }

  /**
   * The stages `getAllVideos` assembles: the match (owner condition added when a user id is
   * given), the lookup and the `$first`, with a sort stage spliced in at index 1 only when
   * both `sortBy` and `sortType` are given.
   */
  method BuildVideoPipeline(query: Option<string>, sortBy: Option<string>, sortType: Option<string>,
                            userId: Option<string>)
    returns (pipeline: seq<Stage>)
    ensures |pipeline| == if Truthy(sortBy) && Truthy(sortType) then 4 else 3
    ensures pipeline[0].Match?
    ensures pipeline[0].filter.search == if Truthy(query) then Some(query.value) else None
    ensures pipeline[0].filter.owner == if Truthy(userId) then Some(userId.value) else None
    ensures Truthy(sortBy) && Truthy(sortType) ==>
      pipeline[1] == Sort(sortBy.value, if sortType.value == "desc" then Descending else Ascending)
    ensures !(Truthy(sortBy) && Truthy(sortType)) ==> forall k :: 0 <= k < |pipeline| ==> !pipeline[k].Sort?
    ensures pipeline[|pipeline| - 2] == LookupOwner && pipeline[|pipeline| - 1] == FirstOwner
  {
    var matchStage := if Truthy(query) then Match(Filter(Some(query.value), None)) else Match(Filter(None, None));
    if Truthy(userId) {
      matchStage := matchStage.(filter := matchStage.filter.(owner := Some(userId.value)));
    }
    var sortStage: Option<Stage> := None;
    if Truthy(sortBy) && Truthy(sortType) {
      sortStage := Some(Sort(sortBy.value, if sortType.value == "desc" then Descending else Ascending));
    }
    pipeline := [matchStage, LookupOwner, FirstOwner];
    if sortStage.Some? {
      pipeline := pipeline[..1] + [sortStage.value] + pipeline[1..];
    }
  }

  /**
   * The videos a listing request asks for: with a search text, those whose title or
   * description contains it ignoring case; with a user id, only that user's videos.
   */
  function Requested(query: Option<string>, userId: Option<string>): Video -> bool {
    (v: Video) =>
      (!Truthy(query) || ContainsIgnoringCase(v.title, query.value) || ContainsIgnoringCase(v.description, query.value))
      && (!Truthy(userId) || v.owner == Some(userId.value))
  }

  /** The card of a video's owner, when it has one and that user exists. */
  function OwnerCard(users: seq<User>, owner: Option<Id>): Option<UserCard> {
    match owner
    case None => None
    case Some(id) => LookupCard(users, id)
  }

  function Listed(users: seq<User>): Video -> VideoRow {
    (v: Video) => VideoRow(v, OwnerDoc(OwnerCard(users, v.owner)))
  }

  /** The requested videos in collection order, each carrying its owner's card. */
  function Catalogue(c: Collections, query: Option<string>, userId: Option<string>): (r: seq<VideoRow>)
    ensures forall k :: 0 <= k < |r| ==>
      r[k].video in c.videos && Requested(query, userId)(r[k].video)
      && r[k].owner == OwnerDoc(OwnerCard(c.users, r[k].video.owner))
  {
    Map(Select(c.videos, Requested(query, userId)), Listed(c.users))
  }

  /** Every requested video of the collection is in the catalogue. */
  lemma CatalogueComplete(c: Collections, query: Option<string>, userId: Option<string>, v: Video)
    requires v in c.videos && Requested(query, userId)(v)
    ensures exists k :: 0 <= k < |Catalogue(c, query, userId)| && Catalogue(c, query, userId)[k].video == v
  {
    var r := Catalogue(c, query, userId);
    SelectMapMember(c.videos, Requested(query, userId), Listed(c.users), v);
    var k :| 0 <= k < |r| && r[k] == Listed(c.users)(v);
    assert r[k].video == v;
  }


  /** With unique user ids, the first card the lookup joins in is the owner's card. */
  lemma FirstCardIsOwnerCard(users: seq<User>, id: Id)
    requires UniqueIds(users, UserId)
    ensures FirstOf(OwnerArray(OwnerCards(users, id))) == OwnerDoc(LookupCard(users, id))
  {
    var cards := OwnerCards(users, id);
    if cards != [] {
      var u :| u in users && cards[0] == CardOf(u);
      var j :| 0 <= j < |users| && users[j] == u;
      var k := FindById(users, UserId, id).value;
      assert UserId(users[j]) == UserId(users[k]);
      assert j == k;
      assert LookupCard(users, id) == Some(CardOf(users[k]));
    }
  }

  /** The lookup followed by `$first`, applied to one row. */
  function Attach(users: seq<User>): VideoRow -> VideoRow {
    (r: VideoRow) => r.(owner := FirstOf(JoinOwner(users, r.owner)))
  }

  /** The last two stages attach the owner to every row, keeping the rows' order. */
  lemma AttachStages(users: seq<User>, rows: seq<VideoRow>)
    ensures RunPipeline(users, rows, [LookupOwner, FirstOwner]) == Map(rows, Attach(users))
  {
    assert [LookupOwner, FirstOwner][1..] == [FirstOwner];
    assert [FirstOwner][1..] == [];
    var joined := Map(rows, Joiner(users));
    assert Map(joined, Collapser()) == Map(rows, Attach(users));
  }

  /** With unique user ids, attaching the owner to the matched rows gives the catalogue. */
  lemma AttachMatched(c: Collections, query: Option<string>, userId: Option<string>)
    requires UniqueIds(c.users, UserId)
    ensures Map(Map(Select(c.videos, Requested(query, userId)), AsRow), Attach(c.users)) == Catalogue(c, query, userId)
  {
    var selected := Select(c.videos, Requested(query, userId));
    var attached := Map(Map(selected, AsRow), Attach(c.users));
    forall k | 0 <= k < |selected|
      ensures attached[k] == Listed(c.users)(selected[k])
    {
      var v := selected[k];
      if v.owner.Some? {
        FirstCardIsOwnerCard(c.users, v.owner.value);
      }
    }
  }

  /** The match stage keeps the rows of the requested videos, in collection order. */
  lemma MatchStage(c: Collections, query: Option<string>, userId: Option<string>, f: Filter)
    requires forall v :: Matches(f, v) == Requested(query, userId)(v)
    ensures RunStage(c.users, Map(c.videos, AsRow), Match(f)) == Map(Select(c.videos, Requested(query, userId)), AsRow)
  {
    SelectMap(c.videos, AsRow, RowMatches(f), Requested(query, userId));
  }

  /** Without a sort stage, the pipeline lists the catalogue in collection order. */
  lemma RunUnsortedPipeline(c: Collections, query: Option<string>, userId: Option<string>, f: Filter)
    requires UniqueIds(c.users, UserId)
    requires forall v :: Matches(f, v) == Requested(query, userId)(v)
    ensures RunPipeline(c.users, Map(c.videos, AsRow), [Match(f), LookupOwner, FirstOwner]) == Catalogue(c, query, userId)
  {
    var stages := [Match(f), LookupOwner, FirstOwner];
    var matched := Map(Select(c.videos, Requested(query, userId)), AsRow);
    MatchStage(c, query, userId, f);
    assert stages[1..] == [LookupOwner, FirstOwner];
    assert RunPipeline(c.users, Map(c.videos, AsRow), stages) == RunPipeline(c.users, matched, [LookupOwner, FirstOwner]);
    AttachStages(c.users, matched);
    AttachMatched(c, query, userId);
  }

  /** The stages after the match sort the rows and then attach the owner to each. */
  lemma SortThenAttach(users: seq<User>, rows: seq<VideoRow>, field: string, dir: Direction)
    ensures RunPipeline(users, rows, [Sort(field, dir), LookupOwner, FirstOwner])
         == Map(SortBy(rows, RowKey(field), dir), Attach(users))
  {
    var stages := [Sort(field, dir), LookupOwner, FirstOwner];
    assert stages[1..] == [LookupOwner, FirstOwner];
    AttachStages(users, SortBy(rows, RowKey(field), dir));
  }

  /** With a sort stage after the match, the pipeline lists the catalogue sorted by the field. */
  lemma RunSortedPipeline(c: Collections, query: Option<string>, userId: Option<string>, f: Filter,
                          field: string, dir: Direction)
    requires UniqueIds(c.users, UserId)
    requires forall v :: Matches(f, v) == Requested(query, userId)(v)
    ensures RunPipeline(c.users, Map(c.videos, AsRow), [Match(f), Sort(field, dir), LookupOwner, FirstOwner])
         == SortBy(Catalogue(c, query, userId), RowKey(field), dir)
  {
    var stages := [Match(f), Sort(field, dir), LookupOwner, FirstOwner];
    var matched := Map(Select(c.videos, Requested(query, userId)), AsRow);
    MatchStage(c, query, userId, f);
    assert stages[1..] == [Sort(field, dir), LookupOwner, FirstOwner];
    assert RunPipeline(c.users, Map(c.videos, AsRow), stages)
        == RunPipeline(c.users, matched, stages[1..]);
    SortThenAttach(c.users, matched, field, dir);
    assert forall x :: RowKey(field)(Attach(c.users)(x)) == RowKey(field)(x);
    SortByMap(matched, RowKey(field), dir, Attach(c.users));
    AttachMatched(c, query, userId);
  }

  /** The match document `getAllVideos` builds selects exactly the requested videos. */
  lemma FilterMeansRequested(query: Option<string>, userId: Option<string>, f: Filter)
    requires f.search == if Truthy(query) then Some(query.value) else None
    requires f.owner == if Truthy(userId) then Some(userId.value) else None
    ensures forall v :: Matches(f, v) == Requested(query, userId)(v)
  {
  }

  /**
   * `getAllVideos`: 400 for a user id that is not an ObjectId; otherwise the requested page of
   * the catalogue, ordered by the sort field when both `sortBy` and `sortType` are given
   * ("desc" descending, anything else ascending) and in collection order otherwise.
   */
  method GetAllVideos(c: Collections, env: Env, page: nat, limit: nat, query: Option<string>,
                      sortBy: Option<string>, sortType: Option<string>, userId: Option<string>)
    returns (r: Response<seq<VideoRow>>)
    requires UniqueIds(c.users, UserId)
    requires page >= 1 && limit >= 1
    ensures Truthy(userId) && !env.validId(userId.value) ==> r == Throw(400, "Invalid User ID")
    ensures !(Truthy(userId) && !env.validId(userId.value)) ==>
      r.Ok? && r.statusCode == 200 && r.message == "Videos fetched successfully" && |r.data| <= limit
    ensures r.Ok? && Truthy(sortBy) && Truthy(sortType) ==>
      r.data == Page(SortBy(Catalogue(c, query, userId), RowKey(sortBy.value), DirectionOf(sortType.value)), page, limit)
    ensures r.Ok? && !(Truthy(sortBy) && Truthy(sortType)) ==> r.data == Page(Catalogue(c, query, userId), page, limit)
    ensures r.Ok? ==> forall k :: 0 <= k < |r.data| ==>
      r.data[k].video in c.videos && Requested(query, userId)(r.data[k].video)
  {
    if Truthy(userId) && !env.validId(userId.value) {
      return Throw(400, "Invalid User ID");
    }
    var pipeline := BuildVideoPipeline(query, sortBy, sortType, userId);
    var f := pipeline[0].filter;
    FilterMeansRequested(query, userId, f);
    if Truthy(sortBy) && Truthy(sortType) {
      assert pipeline == [Match(f), Sort(sortBy.value, DirectionOf(sortType.value)), LookupOwner, FirstOwner];
      RunSortedPipeline(c, query, userId, f, sortBy.value, DirectionOf(sortType.value));
    } else {
      assert pipeline == [Match(f), LookupOwner, FirstOwner];
      RunUnsortedPipeline(c, query, userId, f);
    }
    var rows := RunPipeline(c.users, Map(c.videos, AsRow), pipeline);
    assert multiset(rows) == multiset(Catalogue(c, query, userId));
    CatalogueMembers(c, query, userId, rows);
    r := Ok(200, Page(rows, page, limit), "Videos fetched successfully");
  }

  /** Any reordering of the catalogue holds only requested videos of the collection. */
  lemma CatalogueMembers(c: Collections, query: Option<string>, userId: Option<string>, rows: seq<VideoRow>)
    requires multiset(rows) == multiset(Catalogue(c, query, userId))
    ensures forall x :: x in rows ==> x.video in c.videos && Requested(query, userId)(x.video)
  {
    var catalogue := Catalogue(c, query, userId);
    forall x | x in rows
      ensures x.video in c.videos && Requested(query, userId)(x.video)
    {
      assert x in multiset(catalogue);
      var k :| 0 <= k < |catalogue| && catalogue[k] == x;
    }
  }

  /** Sorting the listing orders it by the field and keeps exactly the requested videos. */
  lemma SortedListing(c: Collections, query: Option<string>, userId: Option<string>, field: string, dir: Direction)
    ensures var listing := SortBy(Catalogue(c, query, userId), RowKey(field), dir);
      SortedBy(listing, RowKey(field), dir) && multiset(listing) == multiset(Catalogue(c, query, userId))
  {
    SortBySorted(Catalogue(c, query, userId), RowKey(field), dir);
  }

  // ---------------------------------------------------------------------------------------
  // publishAVideo

  /** The files multer saved for `upload.fields`: each field's path, when the field was sent. */
  datatype UploadedFiles = UploadedFiles(thumbnail: Option<string>, videoFile: Option<string>)

  function PathName(p: Path): string {
    match p
    case Title => "title"
    case Description => "description"
    case Duration => "duration"
    case ThumbnailUrl => "thumbnail.url"
    case ThumbnailPublicId => "thumbnail.public_id"
    case VideoFileUrl => "videoFile.url"
    case VideoFilePublicId => "videoFile.public_id"
  }

  lemma PathNameInjective(p: Path, q: Path)
    requires PathName(p) == PathName(q)
    ensures p == q
  {
    assert PathName(p)[..2] == PathName(q)[..2];
  }

  /** The paths of the schema that a save can find missing, in schema order. */
  const SchemaOrder: seq<Path> :=
    [Title, Description, Duration, ThumbnailUrl, ThumbnailPublicId, VideoFileUrl, VideoFilePublicId]

  /** The names of those of `ps` that are missing, in the order of `ps`. */
  function NamesOf(ps: seq<Path>, missing: set<Path>): seq<string> {
    if ps == [] then []
    else (if ps[0] in missing then [PathName(ps[0])] else []) + NamesOf(ps[1..], missing)
  }

  lemma {:induction false} NamesOfMissing(ps: seq<Path>, missing: set<Path>, p: Path)
    ensures PathName(p) in NamesOf(ps, missing) <==> p in ps && p in missing
  {
    if ps != [] {
      NamesOfMissing(ps[1..], missing, p);
      if PathName(p) == PathName(ps[0]) {
        PathNameInjective(p, ps[0]);
      }
      assert p in ps <==> p == ps[0] || p in ps[1..];
    }
  }

  lemma SchemaOrderComplete(p: Path)
    ensures p in SchemaOrder
  {
    match p
    case Title => assert SchemaOrder[0] == p;
    case Description => assert SchemaOrder[1] == p;
    case Duration => assert SchemaOrder[2] == p;
    case ThumbnailUrl => assert SchemaOrder[3] == p;
    case ThumbnailPublicId => assert SchemaOrder[4] == p;
    case VideoFileUrl => assert SchemaOrder[5] == p;
    case VideoFilePublicId => assert SchemaOrder[6] == p;
  }

  /** The paths a ValidationError names, in schema order. */
  function ErrorPaths(missing: set<Path>): (r: seq<string>)
    ensures forall p :: PathName(p) in r <==> p in missing
  {
    assert forall p :: PathName(p) in NamesOf(SchemaOrder, missing) <==> p in missing by {
      forall p
        ensures PathName(p) in NamesOf(SchemaOrder, missing) <==> p in missing
      {
        NamesOfMissing(SchemaOrder, missing, p);
        SchemaOrderComplete(p);
      }
    }
    NamesOf(SchemaOrder, missing)
  }

  /** The document `Video.create` receives for the two uploads. */
  function PublishInput(env: Env, title: Option<string>, description: Option<string>, thumbnail: MediaRef,
                        video: MediaRef, duration: Option<int>): VideoInput {
    VideoInput(title, description, duration, None,
               MediaInput(Some(thumbnail.url), Some(thumbnail.publicId)),
               MediaInput(Some(video.url), Some(video.publicId)),
               Some(env.principal), None)
  }

  /**
   * Why `publishAVideo` stops before creating anything, in the order it checks: title and
   * description, the two files, then the two uploads (an upload that threw leaves
   * `undefined`, whose `url` cannot be read).
   */
  function UploadFailure(title: Option<string>, description: Option<string>, files: Option<UploadedFiles>,
                         thumbnailUpload: Upload, videoUpload: Upload)
    : (r: Option<Response<Video>>)
    ensures !Truthy(title) || !Truthy(description) ==> r == Some(Throw(404, "Title or description is missing"))
    ensures Truthy(title) && Truthy(description) && files.None? ==>
      r == Some(Throw(404, "Thumbnail or video is missing"))
    ensures Truthy(title) && Truthy(description) && files.Some?
            && (files.value.thumbnail.None? || files.value.videoFile.None?) ==>
      r == Some(Crashed(TypeError))
    ensures Truthy(title) && Truthy(description) && files.Some?
            && Truthy(files.value.thumbnail) && Truthy(files.value.videoFile) ==>
      (thumbnailUpload.UploadFailed? ==> r == Some(Crashed(TypeError)))
      && (thumbnailUpload.Uploaded? && thumbnailUpload.media.url == "" ==>
            r == Some(Throw(500, "Failed to upload thumbnail on cloudinary")))
    ensures r.None? <==>
      Truthy(title) && Truthy(description) && files.Some?
      && Truthy(files.value.thumbnail) && Truthy(files.value.videoFile)
      && thumbnailUpload.Uploaded? && thumbnailUpload.media.url != ""
      && videoUpload.Uploaded? && videoUpload.media.url != ""
    ensures r.Some? ==> !r.value.Ok?
  {
    if !Truthy(title) || !Truthy(description) then Some(Throw(404, "Title or description is missing"))
    else if files.None? then Some(Throw(404, "Thumbnail or video is missing"))
    else if files.value.thumbnail.None? || files.value.videoFile.None? then Some(Crashed(TypeError))
    else if !Truthy(files.value.thumbnail) || !Truthy(files.value.videoFile) then
      Some(Throw(404, "Thumbnail or video is missing"))
    else if thumbnailUpload.UploadFailed? then Some(Crashed(TypeError))
    else if thumbnailUpload.media.url == "" then Some(Throw(500, "Failed to upload thumbnail on cloudinary"))
    else if videoUpload.UploadFailed? then Some(Crashed(TypeError))
    else if videoUpload.media.url == "" then Some(Throw(500, "Failed to upload video on cloudinary"))
    else None
  }

  /** Why `publishAVideo` fails: a failed check or upload, or the schema rejecting the new document. */
  function PublishFailure(env: Env, newId: Id, now: int, title: Option<string>, description: Option<string>,
                          files: Option<UploadedFiles>, thumbnailUpload: Upload, videoUpload: Upload,
                          duration: Option<int>)
    : (r: Option<Response<Video>>)
    ensures UploadFailure(title, description, files, thumbnailUpload, videoUpload).Some? ==>
      r == UploadFailure(title, description, files, thumbnailUpload, videoUpload)
    ensures UploadFailure(title, description, files, thumbnailUpload, videoUpload).None? ==>
      var created := NewVideo(newId, now, PublishInput(env, title, description, thumbnailUpload.media, videoUpload.media, duration));
      (created.Accepted? <==> r.None?)
      && (created.Rejected? ==> r == Some(Crashed(ValidationError(ErrorPaths(created.paths)))))
    ensures r.Some? ==> !r.value.Ok?
  {
    var failure := UploadFailure(title, description, files, thumbnailUpload, videoUpload);
    if failure.Some? then failure
    else
      match NewVideo(newId, now, PublishInput(env, title, description, thumbnailUpload.media, videoUpload.media, duration))
      case Rejected(missing) => Some(Crashed(ValidationError(ErrorPaths(missing))))
      case Accepted(_) => None
  }

  /**
   * A title of white space passes the handler's own check but not the schema's: once the
   * uploads succeed, the request fails with a validation error naming the title.
   */
  lemma BlankTitleFailsValidation(env: Env, newId: Id, now: int, title: string, description: Option<string>,
                                  files: Option<UploadedFiles>, thumbnailUpload: Upload, videoUpload: Upload,
                                  duration: Option<int>)
    requires title != "" && AllSpace(title)
    requires UploadFailure(Some(title), description, files, thumbnailUpload, videoUpload).None?
    ensures var r := PublishFailure(env, newId, now, Some(title), description, files, thumbnailUpload, videoUpload, duration);
      r.Some? && r.value.Crashed? && r.value.fault.ValidationError? && "title" in r.value.fault.paths
  {
    var input := PublishInput(env, Some(title), description, thumbnailUpload.media, videoUpload.media, duration);
    assert Title in MissingPaths(input);
    assert PathName(Title) == "title";
  }

  /**
   * `publishAVideo`: when every check passes, a new video owned by the caller, holding the
   * trimmed title and description, the two uploaded media and the reported duration, with
   * no views, published, and created at `now`; otherwise the store is unchanged.
   */
  method PublishAVideo(db: Db, env: Env, title: Option<string>, description: Option<string>,
                       files: Option<UploadedFiles>, thumbnailUpload: Upload, videoUpload: Upload,
                       duration: Option<int>, newId: Id, now: int)
    returns (r: Response<Video>)
    requires db.Valid() && !HasId(db.videos, VideoId, newId)
    modifies db
    ensures db.Valid()
    ensures var failure := PublishFailure(env, newId, now, title, description, files, thumbnailUpload, videoUpload, duration);
      failure.Some? ==> r == failure.value && db.Snapshot() == old(db.Snapshot())
    ensures PublishFailure(env, newId, now, title, description, files, thumbnailUpload, videoUpload, duration).None? ==>
      r.Ok? && r.statusCode == 201 && r.message == "Video uploaded successfully"
      && r.data.id == newId && r.data.owner == Some(env.principal)
      && r.data.title == Trim(title.value) && r.data.description == Trim(description.value)
      && r.data.title != "" && r.data.description != ""
      && r.data.thumbnail == thumbnailUpload.media && r.data.videoFile == videoUpload.media
      && r.data.duration == duration.value && r.data.views == 0 && r.data.isPublished
      && r.data.createdAt == now
      && db.Snapshot() == old(db.Snapshot()).(videos := old(db.videos) + [r.data])
  {
    var failure := PublishFailure(env, newId, now, title, description, files, thumbnailUpload, videoUpload, duration);
    if failure.Some? {
      return failure.value;
    }
    var created := NewVideo(newId, now, PublishInput(env, title, description, thumbnailUpload.media, videoUpload.media, duration));
    var v := created.video;
    UniqueAppend(db.videos, VideoId, v);
    db.SetVideos(db.videos + [v]);
    r := Ok(201, v, "Video uploaded successfully");
  }

  // ---------------------------------------------------------------------------------------
  // getVideoById

  /** The owner as the detail view joins it: card, subscriber count, and the caller's flag. */
  datatype OwnerSummary = OwnerSummary(card: UserCard, subscribersCount: nat, isSubscribed: bool)

  datatype VideoDetail = VideoDetail(video: Video, owner: Option<OwnerSummary>)

  function OwnerSummaryOf(c: Collections, viewer: Id, owner: Option<Id>): (r: Option<OwnerSummary>)
    ensures r.None? <==> owner.None? || !HasId(c.users, UserId, owner.value)
    ensures r.Some? ==>
      r.value.card.id == owner.value
      && r.value.subscribersCount == SubscriberCount(c.subscriptions, owner.value)
      && (r.value.isSubscribed <==>
            exists k :: 0 <= k < |c.subscriptions| && PairOf(c.subscriptions[k]) == (owner.value, viewer))
  {
    if owner.None? || !HasId(c.users, UserId, owner.value) then None
    else
      var id := owner.value;
      Some(OwnerSummary(LookupCard(c.users, id).value, SubscriberCount(c.subscriptions, id),
                        IsSubscribed(c.subscriptions, id, viewer)))
  }

  /**
   * `getVideoById`: 400 without an id; an id that is no ObjectId fails the cast; otherwise the
   * video with that id, if any, with its owner's summary.
   */
  function GetVideoById(c: Collections, env: Env, videoId: string): (r: Response<Option<VideoDetail>>)
    ensures videoId == "" ==> r == Throw(400, "Video ID is missing")
    ensures videoId != "" && !env.validId(videoId) ==> r == Crashed(CastError)
    ensures videoId != "" && env.validId(videoId) ==>
      r.Ok? && r.statusCode == 200 && r.message == "Video fetched successfully"
      && (r.data.None? <==> !HasId(c.videos, VideoId, videoId))
    ensures r.Ok? && r.data.Some? ==>
      r.data.value.video.id == videoId && r.data.value.video in c.videos
      && r.data.value.owner == OwnerSummaryOf(c, env.principal, r.data.value.video.owner)
  {
    if videoId == "" then Throw(400, "Video ID is missing")
    else if !env.validId(videoId) then Crashed(CastError)
    else
      match FindById(c.videos, VideoId, videoId)
      case None => Ok(200, None, "Video fetched successfully")
      case Some(k) =>
        var v := c.videos[k];
        Ok(200, Some(VideoDetail(v, OwnerSummaryOf(c, env.principal, v.owner))), "Video fetched successfully")
  }

  /**
   * The detail view follows the subscription toggle: a viewer who subscribes to the owner sees
   * the flag set and the count one higher; toggling again restores both.
   */
  lemma DetailSeesSubscriptionToggle(c: Collections, viewer: Id, owner: Id, newId: Id)
    requires HasId(c.users, UserId, owner)
    requires forall k :: 0 <= k < |c.subscriptions| ==> PairOf(c.subscriptions[k]) != (owner, viewer)
    ensures var subscribed := c.(subscriptions := ToggleSubscriptions(c.subscriptions, owner, viewer, newId).0);
      !OwnerSummaryOf(c, viewer, Some(owner)).value.isSubscribed
      && OwnerSummaryOf(subscribed, viewer, Some(owner)).value.isSubscribed
      && OwnerSummaryOf(subscribed, viewer, Some(owner)).value.subscribersCount
         == OwnerSummaryOf(c, viewer, Some(owner)).value.subscribersCount + 1
    ensures var subscribed := c.(subscriptions := ToggleSubscriptions(c.subscriptions, owner, viewer, newId).0);
      var unsubscribed := subscribed.(subscriptions := ToggleSubscriptions(subscribed.subscriptions, owner, viewer, newId).0);
      OwnerSummaryOf(unsubscribed, viewer, Some(owner)) == OwnerSummaryOf(c, viewer, Some(owner))
  {
    SubscribeCountsOne(c.subscriptions, owner, viewer, newId);
    ToggleSubscriptionsTwiceFromUnsubscribed(c.subscriptions, owner, viewer, newId, newId);
    var subscribed := c.(subscriptions := ToggleSubscriptions(c.subscriptions, owner, viewer, newId).0);
    assert subscribed.(subscriptions := ToggleSubscriptions(subscribed.subscriptions, owner, viewer, newId).0) == c;
  }

  // ---------------------------------------------------------------------------------------
  // updateVideo

  /** `deleteFromCloudinary(publicId)` is truthy: a public id was given and the host answered. */
  predicate Destroyed(publicId: string, hostAnswered: bool) {
    publicId != "" && hostAnswered
  }

  /**
   * Why `updateVideo` fails before it writes, in its order: no thumbnail at all, a blank
   * video id, a missing title or description; then the id cast, and the missing video, which
   * with a new file crashes reading the old thumbnail and without one is a 500; and an upload
   * that threw, whose `url` cannot be read.
   */
  function UpdateVideoFailure(videos: seq<Video>, env: Env, videoId: string, title: Option<string>,
                              description: Option<string>, bodyThumbnail: Option<MediaRef>,
                              thumbnailPath: Option<string>, upload: Upload)
    : (r: Option<Response<Video>>)
    ensures !Truthy(thumbnailPath) && bodyThumbnail.None? ==> r == Some(Throw(400, "Thumbnail is missing"))
    ensures (Truthy(thumbnailPath) || bodyThumbnail.Some?) && AllSpace(videoId) ==>
      r == Some(Throw(400, "Video ID is missing"))
    ensures (Truthy(thumbnailPath) || bodyThumbnail.Some?) && !AllSpace(videoId)
            && (!Truthy(title) || !Truthy(description)) ==>
      r == Some(Throw(400, "Title or description is missing"))
    ensures (Truthy(thumbnailPath) || bodyThumbnail.Some?) && !AllSpace(videoId) && Truthy(title) && Truthy(description) ==>
      (!env.validId(videoId) ==> r == Some(Crashed(CastError)))
      && (env.validId(videoId) && !HasId(videos, VideoId, videoId) ==>
            r == Some(if Truthy(thumbnailPath) then Crashed(TypeError) else Throw(500, "Failed to update the video")))
    ensures r.None? <==>
      (Truthy(thumbnailPath) || bodyThumbnail.Some?) && !AllSpace(videoId) && Truthy(title) && Truthy(description)
      && env.validId(videoId) && HasId(videos, VideoId, videoId) && (Truthy(thumbnailPath) ==> upload.Uploaded?)
    ensures r.Some? ==> !r.value.Ok?
  {
    if !Truthy(thumbnailPath) && bodyThumbnail.None? then Some(Throw(400, "Thumbnail is missing"))
    else if AllSpace(videoId) then Some(Throw(400, "Video ID is missing"))
    else if !Truthy(title) || !Truthy(description) then Some(Throw(400, "Title or description is missing"))
    else if !env.validId(videoId) then Some(Crashed(CastError))
    else if !HasId(videos, VideoId, videoId) then
      Some(if Truthy(thumbnailPath) then Crashed(TypeError) else Throw(500, "Failed to update the video"))
    else if Truthy(thumbnailPath) && upload.UploadFailed? then Some(Crashed(TypeError))
    else None
  }

  /**
   * `updateVideo`: sets the title and description (trimmed by the schema's setters) and the
   * thumbnail (the new upload when a file came, else the body's), and nothing else. With a new
   * file the old thumbnail is then removed from the media host; when that fails the update
   * stays in place but the caller gets a 500.
   */
  method UpdateVideo(db: Db, env: Env, videoId: string, title: Option<string>, description: Option<string>,
                     bodyThumbnail: Option<MediaRef>, thumbnailPath: Option<string>, upload: Upload,
                     hostAnswered: bool)
    returns (r: Response<Video>)
    requires db.Valid()
    modifies db
    ensures db.Valid()
    ensures var failure := UpdateVideoFailure(old(db.videos), env, videoId, title, description, bodyThumbnail, thumbnailPath, upload);
      failure.Some? ==> r == failure.value && db.Snapshot() == old(db.Snapshot())
    ensures UpdateVideoFailure(old(db.videos), env, videoId, title, description, bodyThumbnail, thumbnailPath, upload).None? ==>
      exists k :: 0 <= k < |old(db.videos)| && old(db.videos)[k].id == videoId
        && var before := old(db.videos)[k];
           var after := before.(title := Trim(title.value), description := Trim(description.value),
                                thumbnail := if Truthy(thumbnailPath) then upload.media else bodyThumbnail.value);
           db.Snapshot() == old(db.Snapshot()).(videos := old(db.videos)[k := after])
           && r == if Truthy(thumbnailPath) && !Destroyed(before.thumbnail.publicId, hostAnswered)
                   then Throw(500, "Failed to delete already uploaded thumbnail from cloudinary")
                   else Ok(201, after, "Video updated successfully")
  {
    var failure := UpdateVideoFailure(db.videos, env, videoId, title, description, bodyThumbnail, thumbnailPath, upload);
    if failure.Some? {
      return failure.value;
    }
    var edited := Truthy(thumbnailPath);
    var k := FindById(db.videos, VideoId, videoId).value;
    var before := db.videos[k];
    var thumbnail := if edited then upload.media else bodyThumbnail.value;
    var after := before.(title := Trim(title.value), description := Trim(description.value), thumbnail := thumbnail);
    UniqueReplace(db.videos, VideoId, k, after);
    db.SetVideos(db.videos[k := after]);
    assert db.Snapshot() == old(db.Snapshot()).(videos := old(db.videos)[k := after]);
    if edited && !Destroyed(before.thumbnail.publicId, hostAnswered) {
      return Throw(500, "Failed to delete already uploaded thumbnail from cloudinary");
    }
    r := Ok(201, after, "Video updated successfully");
  }

  // ---------------------------------------------------------------------------------------
  // deleteVideo

  /**
   * `deleteVideo`: an id that is no ObjectId fails the cast; 500 when no video has it;
   * otherwise the video is gone, and its thumbnail and video file are removed from the media
   * host by their public ids, a failure of either answering 500 after the deletion.
   */
  method DeleteVideo(db: Db, env: Env, videoId: string, thumbnailHostAnswered: bool, videoFileHostAnswered: bool)
    returns (r: Response<Users.EmptyObject>)
    requires db.Valid()
    modifies db
    ensures db.Valid()
    ensures !env.validId(videoId) ==> r == Crashed(CastError)
    ensures env.validId(videoId) && !HasId(old(db.videos), VideoId, videoId) ==> r == Throw(500, "Failed to delete this video")
    ensures !(env.validId(videoId) && HasId(old(db.videos), VideoId, videoId)) ==> db.Snapshot() == old(db.Snapshot())
    ensures env.validId(videoId) ==> !HasId(db.videos, VideoId, videoId)
    ensures env.validId(videoId) && HasId(old(db.videos), VideoId, videoId) ==>
      exists k :: 0 <= k < |old(db.videos)| && old(db.videos)[k].id == videoId
        && db.Snapshot() == old(db.Snapshot()).(videos := RemoveAt(old(db.videos), k))
        && r == if !Destroyed(old(db.videos)[k].thumbnail.publicId, thumbnailHostAnswered)
                then Throw(500, "Failed to delete thumbnail from cloudinary")
                else if !Destroyed(old(db.videos)[k].videoFile.publicId, videoFileHostAnswered)
                then Throw(500, "Failed to delete video from cloudinary")
                else Ok(200, Users.EmptyObject, "Video deleted successfully")
  {
    if !env.validId(videoId) {
      return Crashed(CastError);
    }
    DeleteByIdKeepsUnique(db.videos, VideoId, videoId);
    var (videos, removed) := DeleteById(db.videos, VideoId, videoId);
    if removed.None? {
      return Throw(500, "Failed to delete this video");
    }
    db.SetVideos(videos);
    if !Destroyed(removed.value.thumbnail.publicId, thumbnailHostAnswered) {
      return Throw(500, "Failed to delete thumbnail from cloudinary");
    }
    if !Destroyed(removed.value.videoFile.publicId, videoFileHostAnswered) {
      return Throw(500, "Failed to delete video from cloudinary");
    }
    r := Ok(200, Users.EmptyObject, "Video deleted successfully");
  }

  // ---------------------------------------------------------------------------------------
  // togglePublishStatus

  /** Negates the publish flag of the video carrying `videoId`; any other video is kept. */
  function Flip(videoId: Id): Video -> Video {
    (v: Video) => if v.id == videoId then v.(isPublished := !v.isPublished) else v
  }

  /** The collection with the publish flag of the video carrying `videoId` negated. */
  function FlipPublished(videos: seq<Video>, videoId: Id): seq<Video> {
    Map(videos, Flip(videoId))
  }

  /** Toggling twice restores the collection; a toggle changes only the flag of the one video. */
  lemma FlipPublishedTwice(videos: seq<Video>, videoId: Id)
    ensures FlipPublished(FlipPublished(videos, videoId), videoId) == videos
    ensures forall k :: 0 <= k < |videos| ==>
      var v := FlipPublished(videos, videoId)[k];
      v.(isPublished := videos[k].isPublished) == videos[k]
      && (v.isPublished != videos[k].isPublished <==> videos[k].id == videoId)
  {
    var once := FlipPublished(videos, videoId);
    var twice := FlipPublished(once, videoId);
    assert forall k :: 0 <= k < |videos| ==> twice[k] == videos[k];
  }

  /**
   * `togglePublishStatus`: an id that is no ObjectId fails the cast; 404 when no video has
   * it; otherwise the video's `isPublished` is negated and the updated video returned.
   */
  method TogglePublishStatus(db: Db, env: Env, videoId: string) returns (r: Response<Video>)
    requires db.Valid()
    modifies db
    ensures db.Valid()
    ensures !env.validId(videoId) ==> r == Crashed(CastError)
    ensures env.validId(videoId) && !HasId(old(db.videos), VideoId, videoId) ==> r == Throw(404, "Video not found")
    ensures !r.Ok? ==> db.Snapshot() == old(db.Snapshot())
    ensures env.validId(videoId) && HasId(old(db.videos), VideoId, videoId) ==>
      db.Snapshot() == old(db.Snapshot()).(videos := FlipPublished(old(db.videos), videoId))
      && r.Ok? && r.statusCode == 200 && r.message == "Publish status toggled successfully"
      && r.data in db.videos
      && exists k :: 0 <= k < |old(db.videos)| && old(db.videos)[k].id == videoId
           && r.data == old(db.videos)[k].(isPublished := !old(db.videos)[k].isPublished)
  {
    if !env.validId(videoId) {
      return Crashed(CastError);
    }
    var found := FindById(db.videos, VideoId, videoId);
    if found.None? {
      return Throw(404, "Video not found");
    }
    var k := found.value;
    var newStatus := !db.videos[k].isPublished;
    var update := (v: Video) => v.(isPublished := newStatus);
    UpdateAt(db.videos, VideoId, videoId, update, k);
    UniqueReplace(db.videos, VideoId, k, update(db.videos[k]));
    var (videos, updated) := UpdateById(db.videos, VideoId, videoId, update);
    assert videos == FlipPublished(db.videos, videoId) by {
      forall j | 0 <= j < |videos|
        ensures videos[j] == FlipPublished(db.videos, videoId)[j]
      {
        if j != k {
          assert db.videos[j].id != videoId;
        }
      }
    }
    db.SetVideos(videos);
    r := Ok(200, updated.value, "Publish status toggled successfully");
  }
}
