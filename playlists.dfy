/**
 * The playlist handlers (src/controllers/playlist.controller.js). A playlist holds video ids
 * in order; any caller may add or remove videos, rename or delete any playlist.
 */
module Playlists {
  import opened Wrappers
  import opened Primitives
  import opened Errors
  import opened Schemas
  import opened VideoModel
  import opened Database

  // ---------------------------------------------------------------------------------------
  // The updates applied to one playlist document

  /** `$push: { videos: videoId }`. */
  function PushVideo(p: Playlist, videoId: Id): Playlist {
    p.(videos := p.videos + [videoId])
  }

  /** `$pull: { videos: videoId }`. */
  function PullVideo(p: Playlist, videoId: Id): Playlist {
    p.(videos := Pull(p.videos, videoId))
  }

  /** `$set: { name, description }`. */
  function Rename(p: Playlist, name: string, description: string): Playlist {
    p.(name := name, description := description)
  }

  function Pusher(videoId: Id): Playlist -> Playlist {
    (p: Playlist) => PushVideo(p, videoId)
  }

  function Puller(videoId: Id): Playlist -> Playlist {
    (p: Playlist) => PullVideo(p, videoId)
  }

  function Renamer(name: string, description: string): Playlist -> Playlist {
    (p: Playlist) => Rename(p, name, description)
  }

  /**
   * Adding a video the playlist does not hold and then removing it restores the playlist;
   * the added video is the last one in between.
   */
  lemma AddThenRemoveRestores(p: Playlist, videoId: Id)
    requires videoId !in p.videos
    ensures PushVideo(p, videoId).videos[|p.videos|] == videoId
    ensures PullVideo(PushVideo(p, videoId), videoId) == p
  {
    PushThenPull(p.videos, videoId);
  }

  /**
   * Adding never deduplicates: a video added twice is held twice, and one removal takes out
   * every copy while keeping the other videos and their order.
   */
  lemma AddTwiceThenRemove(p: Playlist, videoId: Id)
    ensures multiset(PushVideo(PushVideo(p, videoId), videoId).videos)[videoId]
         == multiset(p.videos)[videoId] + 2
    ensures PullVideo(PushVideo(PushVideo(p, videoId), videoId), videoId) == PullVideo(p, videoId)
  {
    var twice := p.videos + [videoId] + [videoId];
    assert PushVideo(PushVideo(p, videoId), videoId).videos == twice;
    assert twice == p.videos + [videoId, videoId];
    assert multiset(twice) == multiset(p.videos) + multiset([videoId]) + multiset([videoId]);
    PullConcat(p.videos, [videoId, videoId], videoId);
    assert Pull([videoId, videoId], videoId) == [] by {
      assert [videoId][1..] == [];
      assert Pull([videoId], videoId) == [] + Pull([], videoId);
      assert [videoId, videoId][1..] == [videoId];
      assert Pull([videoId, videoId], videoId) == [] + Pull([videoId], videoId);
    }
    assert Pull(twice, videoId) == Pull(p.videos, videoId) + [];
    assert Pull(p.videos, videoId) + [] == Pull(p.videos, videoId);
  }

  /** Removing is idempotent. */
  lemma RemoveTwice(p: Playlist, videoId: Id)
    ensures PullVideo(PullVideo(p, videoId), videoId) == PullVideo(p, videoId)
  {
    PullAbsent(Pull(p.videos, videoId), videoId);
  }

  // ---------------------------------------------------------------------------------------
  // Handlers that change the store

  /**
   * `createPlaylist`: 404 without a name or a video id; otherwise a new playlist owned by the
   * caller, holding that one video, with the description defaulting to "". The video id in
   * the body is not validated: one that is no ObjectId fails the `videos` cast inside `create`'s
   * validation (a ValidationError wrapping that CastError), and the request fails with 500.
   */
  method CreatePlaylist(db: Db, env: Env, name: Option<string>, description: Option<string>,
                        videoId: Option<string>, newId: Id)
    returns (r: Response<Playlist>)
    requires db.Valid() && !HasId(db.playlists, PlaylistId, newId)
    modifies db
    ensures db.Valid()
    ensures !Truthy(name) ==> r == Throw(404, "Playlist name is required to create a playlist")
    ensures Truthy(name) && !Truthy(videoId) ==> r == Throw(404, "Video is required to create a playlist")
    ensures Truthy(name) && Truthy(videoId) && !env.validId(videoId.value) ==> r == Crashed(CastError)
    ensures !r.Ok? ==> db.Snapshot() == old(db.Snapshot())
    ensures Truthy(name) && Truthy(videoId) && env.validId(videoId.value) ==>
      r.Ok? && r.statusCode == 201 && r.message == "Playlist created successfully!"
      && r.data == Playlist(newId, name.value, if Truthy(description) then description.value else "",
                            [videoId.value], env.principal)
      && db.Snapshot() == old(db.Snapshot()).(playlists := old(db.playlists) + [r.data])
  {
    if !Truthy(name) {
      return Throw(404, "Playlist name is required to create a playlist");
    }
    if !Truthy(videoId) {
      return Throw(404, "Video is required to create a playlist");
    }
    if !env.validId(videoId.value) {
      return Crashed(CastError);
    }
    var p := Playlist(newId, name.value, if Truthy(description) then description.value else "",
                      [videoId.value], env.principal);
    UniqueAppend(db.playlists, PlaylistId, p);
    db.SetPlaylists(db.playlists + [p]);
    r := Ok(201, p, "Playlist created successfully!");
  }

  /** The checks `addVideoToPlaylist` and `removeVideoFromPlaylist` share, in their order. */
  function CheckPlaylistAndVideo(env: Env, playlistId: string, videoId: string): (r: Option<ApiError>)
    ensures r.None? <==> playlistId != "" && videoId != "" && env.validId(playlistId) && env.validId(videoId)
    ensures r.Some? ==> r.value.status in {400, 404}
  {
    if playlistId == "" || videoId == "" then Some(NewApiError(404, Some("Playlist ID or video ID is missing"), None))
    else if !env.validId(playlistId) then Some(NewApiError(400, Some("Invalid playlist ID"), None))
    else if !env.validId(videoId) then Some(NewApiError(400, Some("Invalid video ID"), None))
    else None
  }

  /**
   * `addVideoToPlaylist`: after the id checks, the video id is appended to the playlist's
   * videos (duplicates allowed) and the updated playlist returned; 500 when no playlist has
   * the id.
   */
  method AddVideoToPlaylist(db: Db, env: Env, playlistId: string, videoId: string)
    returns (r: Response<Playlist>)
    requires db.Valid()
    modifies db
    ensures db.Valid()
    ensures CheckPlaylistAndVideo(env, playlistId, videoId).Some? ==>
      r == Thrown(CheckPlaylistAndVideo(env, playlistId, videoId).value)
    ensures !r.Ok? ==> db.Snapshot() == old(db.Snapshot())
    ensures CheckPlaylistAndVideo(env, playlistId, videoId).None? ==>
      var (playlists, updated) := UpdateById(old(db.playlists), PlaylistId, playlistId, Pusher(videoId));
      db.Snapshot() == old(db.Snapshot()).(playlists := playlists)
      && r == if updated.None? then Throw(500, "Failed to add video to the playlist")
              else Ok(200, updated.value, "Video added to the playlist")
  {
    var check := CheckPlaylistAndVideo(env, playlistId, videoId);
    if check.Some? {
      return Thrown(check.value);
    }
    UpdateByIdKeepsUnique(db.playlists, PlaylistId, playlistId, Pusher(videoId));
    var (playlists, updated) := UpdateById(db.playlists, PlaylistId, playlistId, Pusher(videoId));
    if updated.None? {
      return Throw(500, "Failed to add video to the playlist");
    }
    db.SetPlaylists(playlists);
    r := Ok(200, updated.value, "Video added to the playlist");
  }

  /**
   * `removeVideoFromPlaylist`: after the id checks, every copy of the video id is pulled from
   * the playlist's videos; 500 when no playlist has the id.
   */
  method RemoveVideoFromPlaylist(db: Db, env: Env, playlistId: string, videoId: string)
    returns (r: Response<Playlist>)
    requires db.Valid()
    modifies db
    ensures db.Valid()
    ensures CheckPlaylistAndVideo(env, playlistId, videoId).Some? ==>
      r == Thrown(CheckPlaylistAndVideo(env, playlistId, videoId).value)
    ensures !r.Ok? ==> db.Snapshot() == old(db.Snapshot())
    ensures r.Ok? ==> videoId !in r.data.videos
    ensures CheckPlaylistAndVideo(env, playlistId, videoId).None? ==>
      var (playlists, updated) := UpdateById(old(db.playlists), PlaylistId, playlistId, Puller(videoId));
      db.Snapshot() == old(db.Snapshot()).(playlists := playlists)
      && r == if updated.None? then Throw(500, "Failed to remove video from the playlist")
              else Ok(200, updated.value, "Video removed from the playlist")
  {
    var check := CheckPlaylistAndVideo(env, playlistId, videoId);
    if check.Some? {
      return Thrown(check.value);
    }
    UpdateByIdKeepsUnique(db.playlists, PlaylistId, playlistId, Puller(videoId));
    var (playlists, updated) := UpdateById(db.playlists, PlaylistId, playlistId, Puller(videoId));
    if updated.None? {
      return Throw(500, "Failed to remove video from the playlist");
    }
    db.SetPlaylists(playlists);
    r := Ok(200, updated.value, "Video removed from the playlist");
  }

  /**
   * `deletePlaylist`: 404 for a missing id, 400 for a malformed one, 404 when no playlist has
   * the id; otherwise the playlist is gone and the response is `true`.
   */
  method DeletePlaylist(db: Db, env: Env, playlistId: string) returns (r: Response<bool>)
    requires db.Valid()
    modifies db
    ensures db.Valid()
    ensures playlistId == "" ==> r == Throw(404, "Playlist ID is missing")
    ensures playlistId != "" && !env.validId(playlistId) ==> r == Throw(400, "Invalid playlist ID")
    ensures playlistId != "" && env.validId(playlistId) ==>
      (r.Ok? <==> HasId(old(db.playlists), PlaylistId, playlistId))
      && (!r.Ok? ==> r == Throw(404, "Playlist not found"))
      && (r.Ok? ==> r.statusCode == 200 && r.data == true && r.message == "Playlist deleted successfully")
      && !HasId(db.playlists, PlaylistId, playlistId)
    ensures db.Snapshot() == old(db.Snapshot()).(playlists := db.playlists)
    ensures r.Ok? ==> db.playlists == DeleteById(old(db.playlists), PlaylistId, playlistId).0
    ensures !r.Ok? ==> db.playlists == old(db.playlists)
  {
    if playlistId == "" {
      return Throw(404, "Playlist ID is missing");
    }
    if !env.validId(playlistId) {
      return Throw(400, "Invalid playlist ID");
    }
    DeleteByIdKeepsUnique(db.playlists, PlaylistId, playlistId);
    var (playlists, deleted) := DeleteById(db.playlists, PlaylistId, playlistId);
    if deleted.None? {
      return Throw(404, "Playlist not found");
    }
    db.SetPlaylists(playlists);
    r := Ok(200, true, "Playlist deleted successfully");
  }

  /**
   * `updatePlaylist`: 404 for a missing id, 400 for a malformed one, 404 unless both name and
   * description are given; otherwise both are set; 400 when no playlist has the id.
   */
  method UpdatePlaylist(db: Db, env: Env, playlistId: string, name: Option<string>, description: Option<string>)
    returns (r: Response<Playlist>)
    requires db.Valid()
    modifies db
    ensures db.Valid()
    ensures playlistId == "" ==> r == Throw(404, "Playlist ID is missing")
    ensures playlistId != "" && !env.validId(playlistId) ==> r == Throw(400, "Invalid playlist ID")
    ensures playlistId != "" && env.validId(playlistId) && !(Truthy(name) && Truthy(description)) ==>
      r == Throw(404, "Playlist name or description is missing")
    ensures !r.Ok? ==> db.Snapshot() == old(db.Snapshot())
    ensures r.Ok? ==> r.data.name == name.value && r.data.description == description.value
    ensures playlistId != "" && env.validId(playlistId) && Truthy(name) && Truthy(description) ==>
      var (playlists, updated) := UpdateById(old(db.playlists), PlaylistId, playlistId, Renamer(name.value, description.value));
      db.Snapshot() == old(db.Snapshot()).(playlists := playlists)
      && r == if updated.None? then Throw(400, "Failed to updated the playlist")
              else Ok(200, updated.value, "Playlist updated successuflly")
  {
    if playlistId == "" {
      return Throw(404, "Playlist ID is missing");
    }
    if !env.validId(playlistId) {
      return Throw(400, "Invalid playlist ID");
    }
    if !Truthy(name) || !Truthy(description) {
      return Throw(404, "Playlist name or description is missing");
    }
    var f := Renamer(name.value, description.value);
    UpdateByIdKeepsUnique(db.playlists, PlaylistId, playlistId, f);
    var (playlists, updated) := UpdateById(db.playlists, PlaylistId, playlistId, f);
    if updated.None? {
      return Throw(400, "Failed to updated the playlist");
    }
    db.SetPlaylists(playlists);
    r := Ok(200, updated.value, "Playlist updated successuflly");
  }

  // ---------------------------------------------------------------------------------------
  // Reads

  function OwnedBy(owner: Id): Playlist -> bool {
    (p: Playlist) => p.owner == owner
  }

  /**
   * `getUserPlaylists`: 404 for a missing id, 400 for a malformed one; otherwise exactly the
   * user's playlists, in collection order.
   */
  function GetUserPlaylists(c: Collections, env: Env, userId: string): (r: Response<seq<Playlist>>)
    ensures userId == "" ==> r == Throw(404, "User ID is missing")
    ensures userId != "" && !env.validId(userId) ==> r == Throw(400, "Invalid User ID")
    ensures userId != "" && env.validId(userId) ==>
      r.Ok? && r.statusCode == 200 && r.data == Select(c.playlists, OwnedBy(userId))
    ensures r.Ok? ==> forall k :: 0 <= k < |r.data| ==> r.data[k] in c.playlists && r.data[k].owner == userId
    ensures r.Ok? ==> forall k :: 0 <= k < |c.playlists| && c.playlists[k].owner == userId ==> c.playlists[k] in r.data
  {
    if userId == "" then Throw(404, "User ID is missing")
    else if !env.validId(userId) then Throw(400, "Invalid User ID")
    else
      var mine := Select(c.playlists, OwnedBy(userId));
      assert forall k :: 0 <= k < |c.playlists| && c.playlists[k].owner == userId ==> OwnedBy(userId)(c.playlists[k]);
      Ok(200, mine, "Playlists fetched successfully")
  }

  /** A playlist with `.populate("videos")` applied. */
  datatype PopulatedPlaylist = PopulatedPlaylist(id: Id, name: string, description: string, videos: seq<Video>, owner: Id)

  /**
   * `.populate("videos")` on an array of references: each reference replaced by its video in
   * order, references to videos that no longer exist dropped.
   */
  function PopulateVideos(videos: seq<Video>, refs: seq<Id>): (r: seq<Video>)
    ensures |r| <= |refs|
    ensures forall k :: 0 <= k < |r| ==> r[k] in videos && r[k].id in refs
    ensures (forall k :: 0 <= k < |refs| ==> HasId(videos, VideoId, refs[k])) ==> |r| == |refs|
  {
    if refs == [] then []
    else
      var rest := PopulateVideos(videos, refs[1..]);
      assert forall k :: 1 <= k < |refs| ==> refs[k] == refs[1..][k - 1];
      match FindById(videos, VideoId, refs[0])
      case None => rest
      case Some(i) => [videos[i]] + rest
  }

  /** Populating a concatenation populates each part. */
  lemma {:induction false} PopulateVideosConcat(videos: seq<Video>, a: seq<Id>, b: seq<Id>)
    ensures PopulateVideos(videos, a + b) == PopulateVideos(videos, a) + PopulateVideos(videos, b)
  {
    if a == [] {
      assert a + b == b;
    } else {
      assert (a + b)[0] == a[0];
      assert (a + b)[1..] == a[1..] + b;
      PopulateVideosConcat(videos, a[1..], b);
    }
  }

  function Populate(c: Collections, p: Playlist): PopulatedPlaylist {
    PopulatedPlaylist(p.id, p.name, p.description, PopulateVideos(c.videos, p.videos), p.owner)
  }

  /**
   * `getPlaylistById`: 404 for a missing id, 400 for a malformed one, 404 when no playlist has
   * the id; otherwise that playlist with its videos populated.
   */
  function GetPlaylistById(c: Collections, env: Env, playlistId: string): (r: Response<PopulatedPlaylist>)
    ensures playlistId == "" ==> r == Throw(404, "Playlist ID is missing")
    ensures playlistId != "" && !env.validId(playlistId) ==> r == Throw(400, "Invalid playlist ID")
    ensures playlistId != "" && env.validId(playlistId) ==>
      (r.Ok? <==> HasId(c.playlists, PlaylistId, playlistId))
      && (!r.Ok? ==> r == Throw(404, "Playlist not found"))
    ensures r.Ok? ==>
      r.statusCode == 200 && r.data.id == playlistId && exists p :: p in c.playlists && r.data == Populate(c, p)
  {
    if playlistId == "" then Throw(404, "Playlist ID is missing")
    else if !env.validId(playlistId) then Throw(400, "Invalid playlist ID")
    else match FindById(c.playlists, PlaylistId, playlistId)
      case None => Throw(404, "Playlist not found")
      case Some(i) => Ok(200, Populate(c, c.playlists[i]), "Playlist fetched successfully")
  }

  /**
   * After a video that exists is added to a playlist, reading the playlist back shows the
   * videos it showed before followed by that video.
   */
  lemma AddedVideoReadsBackLast(c: Collections, env: Env, playlistId: Id, video: Video)
    requires UniqueIds(c.playlists, PlaylistId) && UniqueIds(c.videos, VideoId)
    requires env.validId(playlistId) && playlistId != ""
    requires video in c.videos
    ensures var (playlists, updated) := UpdateById(c.playlists, PlaylistId, playlistId, Pusher(video.id));
      var before := GetPlaylistById(c, env, playlistId);
      var after := GetPlaylistById(c.(playlists := playlists), env, playlistId);
      before.Ok? == after.Ok?
      && (after.Ok? ==> after.data.videos == before.data.videos + [video])
  {
    var (playlists, updated) := UpdateById(c.playlists, PlaylistId, playlistId, Pusher(video.id));
    match FindById(c.playlists, PlaylistId, playlistId)
    case None =>
    case Some(i) =>
      var p := c.playlists[i];
      var pushed := PushVideo(p, video.id);
      assert playlists == c.playlists[i := pushed];
      UniqueReplace(c.playlists, PlaylistId, i, pushed);
      FindByIdUnique(playlists, PlaylistId, i);
      var c' := c.(playlists := playlists);
      assert GetPlaylistById(c, env, playlistId).data == Populate(c, p);
      assert GetPlaylistById(c', env, playlistId).data == Populate(c', pushed);
      PopulateAppended(c.videos, p.videos, video);
  }

  /** Populating references with one more, to a stored video, populates that video last. */
  lemma PopulateAppended(videos: seq<Video>, refs: seq<Id>, video: Video)
    requires UniqueIds(videos, VideoId) && video in videos
    ensures PopulateVideos(videos, refs + [video.id]) == PopulateVideos(videos, refs) + [video]
  {
    PopulateVideosConcat(videos, refs, [video.id]);
    var k :| 0 <= k < |videos| && videos[k] == video;
    FindByIdUnique(videos, VideoId, k);
    assert [video.id][1..] == [];
    assert PopulateVideos(videos, [video.id]) == [video] + PopulateVideos(videos, []);
  }
}
