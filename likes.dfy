/**
 * The like handlers (src/controllers/like.controller.js): toggling a like on a video, a comment
 * or a tweet, and listing the videos the caller liked.
 */
module Likes {
  import opened Wrappers
  import opened Primitives
  import opened Errors
  import opened Schemas
  import opened VideoModel
  import opened Database

  /** What a like is about. */
  datatype Target = OnVideo(video: Id) | OnComment(comment: Id) | OnTweet(tweet: Id)

  /** The filter `{ $and: [{ <target field>: id }, { likedBy: principal }] }`. */
  predicate Matches(t: Target, principal: Id, l: Like) {
    l.likedBy == principal
    && match t
       case OnVideo(v) => l.video == Some(v)
       case OnComment(c) => l.comment == Some(c)
       case OnTweet(w) => l.tweet == Some(w)
  }

  function Selector(t: Target, principal: Id): Like -> bool {
    (l: Like) => Matches(t, principal, l)
  }

  /** The row `Like.create` inserts: the target's own field and `likedBy`, nothing else. */
  function NewLike(id: Id, t: Target, principal: Id): (l: Like)
    ensures l.id == id && l.likedBy == principal && TargetsOne(l) && Matches(t, principal, l)
    ensures t.OnVideo? ==> l.video == Some(t.video)
    ensures t.OnComment? ==> l.comment == Some(t.comment)
    ensures t.OnTweet? ==> l.tweet == Some(t.tweet)
  {
    match t
    case OnVideo(v) => Like(id, Some(v), None, None, principal)
    case OnComment(c) => Like(id, None, Some(c), None, principal)
    case OnTweet(w) => Like(id, None, None, Some(w), principal)
  }

  /** A row names exactly one target and matches `t` for `principal`: it says what `NewLike` says. */
  lemma MatchingRowKey(t: Target, principal: Id, l: Like, id: Id)
    requires TargetsOne(l) && Matches(t, principal, l)
    ensures KeyOf(l) == KeyOf(NewLike(id, t, principal))
  {
  }

  /**
   * The Like collection after a toggle by `principal` on `t`, and whether a row was removed:
   * the first matching row is deleted, or, when there is none, a new row is appended.
   */
  function ToggleLikes(likes: seq<Like>, t: Target, principal: Id, newId: Id): (r: (seq<Like>, bool))
    ensures r.1 <==> exists k :: 0 <= k < |likes| && Matches(t, principal, likes[k])
    ensures !r.1 ==> r.0 == likes + [NewLike(newId, t, principal)]
    ensures r.1 ==> |r.0| == |likes| - 1
  {
    Toggle(likes, Selector(t, principal), NewLike(newId, t, principal))
  }

  /** A toggle leaves every row for another target or another user as it was, in order. */
  lemma ToggleLikesKeepsOthers(likes: seq<Like>, t: Target, principal: Id, newId: Id)
    ensures Reject(ToggleLikes(likes, t, principal, newId).0, Selector(t, principal))
         == Reject(likes, Selector(t, principal))
  {
    ToggleKeepsOthers(likes, Selector(t, principal), NewLike(newId, t, principal));
  }

  /** Without a like, toggling twice leaves the collection exactly as it was. */
  lemma ToggleLikesTwiceFromUnliked(likes: seq<Like>, t: Target, principal: Id, id1: Id, id2: Id)
    requires forall k :: 0 <= k < |likes| ==> !Matches(t, principal, likes[k])
    ensures ToggleLikes(likes, t, principal, id1).1 == false
    ensures ToggleLikes(ToggleLikes(likes, t, principal, id1).0, t, principal, id2) == (likes, true)
  {
    ToggleTwiceWhenAbsent(likes, Selector(t, principal), NewLike(id1, t, principal), NewLike(id2, t, principal));
  }

  /** The keys of a sequence of like rows, in order. */
  function Keys(likes: seq<Like>): (r: seq<LikeKey>)
    ensures |r| == |likes| && forall k :: 0 <= k < |likes| ==> r[k] == KeyOf(likes[k])
  {
    seq(|likes|, k requires 0 <= k < |likes| => KeyOf(likes[k]))
  }

  lemma KeysConcat(a: seq<Like>, b: seq<Like>)
    ensures Keys(a + b) == Keys(a) + Keys(b)
  {
  }

  /** In a well-formed collection a liked target has exactly one matching row. */
  lemma OnlyMatch(likes: seq<Like>, t: Target, principal: Id, i: nat)
    requires LikesWellFormed(likes)
    requires i < |likes| && Matches(t, principal, likes[i])
    ensures FirstMatchAt(likes, Selector(t, principal), i)
    ensures NoneMatch(RemoveAt(likes, i), Selector(t, principal))
  {
    forall k | 0 <= k < |likes| && k != i && Matches(t, principal, likes[k])
      ensures false
    {
      MatchingRowKey(t, principal, likes[k], "");
      MatchingRowKey(t, principal, likes[i], "");
    }
  }

  /**
   * With a like, toggling twice removes it and then likes again: the collection says what it
   * said before (the same rows up to the new row's `_id` and its place at the end).
   */
  lemma ToggleLikesTwiceFromLiked(likes: seq<Like>, t: Target, principal: Id, id1: Id, id2: Id, i: nat)
    requires LikesWellFormed(likes)
    requires i < |likes| && Matches(t, principal, likes[i])
    ensures ToggleLikes(likes, t, principal, id1) == (RemoveAt(likes, i), true)
    ensures ToggleLikes(RemoveAt(likes, i), t, principal, id2) == (RemoveAt(likes, i) + [NewLike(id2, t, principal)], false)
    ensures multiset(Keys(RemoveAt(likes, i) + [NewLike(id2, t, principal)])) == multiset(Keys(likes))
  {
    OnlyMatch(likes, t, principal, i);
    ToggleTwiceWhenPresent(likes, Selector(t, principal), NewLike(id1, t, principal), NewLike(id2, t, principal), i);
    MatchingRowKey(t, principal, likes[i], id2);
    KeysAfterReplace(likes, i, NewLike(id2, t, principal));
  }

  /** Removing a row and appending one that says the same keeps the multiset of keys. */
  lemma KeysAfterReplace(likes: seq<Like>, i: nat, n: Like)
    requires i < |likes| && KeyOf(n) == KeyOf(likes[i])
    ensures multiset(Keys(RemoveAt(likes, i) + [n])) == multiset(Keys(likes))
  {
    var a, b := likes[..i], likes[i + 1..];
    assert likes == a + [likes[i]] + b;
    assert RemoveAt(likes, i) == a + b;
    KeysConcat(a + b, [n]);
    KeysConcat(a, b);
    KeysConcat(a + [likes[i]], b);
    KeysConcat(a, [likes[i]]);
    assert Keys([n]) == [KeyOf(likes[i])] == Keys([likes[i]]);
  }

  /** A toggle keeps the like collection well formed. */
  lemma ToggleLikesKeepsWellFormed(likes: seq<Like>, t: Target, principal: Id, newId: Id)
    requires LikesWellFormed(likes) && !HasId(likes, LikeId, newId)
    ensures LikesWellFormed(ToggleLikes(likes, t, principal, newId).0)
  {
    var (r, removed) := ToggleLikes(likes, t, principal, newId);
    var n := NewLike(newId, t, principal);
    if removed {
      var i :| FirstMatchAt(likes, Selector(t, principal), i) && r == RemoveAt(likes, i);
      UniqueRemoveAt(likes, LikeId, i);
      DistinctRemoveAt(likes, KeyOf, i);
      AllRemoveAt(likes, TargetsOne, i);
    } else {
      UniqueAppend(likes, LikeId, n);
      forall k | 0 <= k < |likes|
        ensures KeyOf(likes[k]) != KeyOf(n)
      {
        assert !Matches(t, principal, likes[k]);
      }
      DistinctAppend(likes, KeyOf, n);
    }
  }

  /**
   * The part shared by the three toggle handlers once the target id is accepted:
   * `findOneAndDelete` of the caller's like, or `create` when there was none.
   */
  method ToggleLike(db: Db, t: Target, principal: Id, newId: Id) returns (removed: bool)
    requires db.Valid() && !HasId(db.likes, LikeId, newId)
    modifies db
    ensures db.Valid()
    ensures (db.likes, removed) == ToggleLikes(old(db.likes), t, principal, newId)
    ensures db.Snapshot() == old(db.Snapshot()).(likes := db.likes)
  {
    ToggleLikesKeepsWellFormed(db.likes, t, principal, newId);
    var (rest, existing) := FindOneAndDelete(db.likes, Selector(t, principal));
    if existing.Some? {
      db.SetLikes(rest);
      removed := true;
    } else {
      db.SetLikes(db.likes + [NewLike(newId, t, principal)]);
      removed := false;
    }
  }

  /** `toggleVideoLike`: 400 for a missing or malformed id; 200 when unliked, 201 when liked. */
  method ToggleVideoLike(db: Db, env: Env, videoId: string, newId: Id) returns (r: Response<bool>)
    requires db.Valid() && !HasId(db.likes, LikeId, newId)
    modifies db
    ensures db.Valid()
    ensures videoId == "" || !env.validId(videoId) ==>
      r == Throw(400, "Invalid Video ID") && db.Snapshot() == old(db.Snapshot())
    ensures videoId != "" && env.validId(videoId) ==>
      var (likes, removed) := ToggleLikes(old(db.likes), OnVideo(videoId), env.principal, newId);
      db.Snapshot() == old(db.Snapshot()).(likes := likes)
      && r == if removed then Ok(200, true, "Video like removed successfully")
              else Ok(201, true, "Video liked successfully")
  {
    if videoId == "" || !env.validId(videoId) {
      return Throw(400, "Invalid Video ID");
    }
    var removed := ToggleLike(db, OnVideo(videoId), env.principal, newId);
    if removed {
      r := Ok(200, true, "Video like removed successfully");
    } else {
      r := Ok(201, true, "Video liked successfully");
    }
  }

  /** `toggleCommentLike`: as for videos, with the comment's id. */
  method ToggleCommentLike(db: Db, env: Env, commentId: string, newId: Id) returns (r: Response<bool>)
    requires db.Valid() && !HasId(db.likes, LikeId, newId)
    modifies db
    ensures db.Valid()
    ensures commentId == "" || !env.validId(commentId) ==>
      r == Throw(400, "Invalid commentId") && db.Snapshot() == old(db.Snapshot())
    ensures commentId != "" && env.validId(commentId) ==>
      var (likes, removed) := ToggleLikes(old(db.likes), OnComment(commentId), env.principal, newId);
      db.Snapshot() == old(db.Snapshot()).(likes := likes)
      && r == if removed then Ok(200, true, "Comment like removed successfully")
              else Ok(201, true, "Comment liked successfully")
  {
    if commentId == "" || !env.validId(commentId) {
      return Throw(400, "Invalid commentId");
    }
    var removed := ToggleLike(db, OnComment(commentId), env.principal, newId);
    if removed {
      r := Ok(200, true, "Comment like removed successfully");
    } else {
      r := Ok(201, true, "Comment liked successfully");
    }
  }

  /** `toggleTweetLike`: as for videos, with the tweet's id (its error message also says "Video"). */
  method ToggleTweetLike(db: Db, env: Env, tweetId: string, newId: Id) returns (r: Response<bool>)
    requires db.Valid() && !HasId(db.likes, LikeId, newId)
    modifies db
    ensures db.Valid()
    ensures tweetId == "" || !env.validId(tweetId) ==>
      r == Throw(400, "Invalid Video ID") && db.Snapshot() == old(db.Snapshot())
    ensures tweetId != "" && env.validId(tweetId) ==>
      var (likes, removed) := ToggleLikes(old(db.likes), OnTweet(tweetId), env.principal, newId);
      db.Snapshot() == old(db.Snapshot()).(likes := likes)
      && r == if removed then Ok(200, true, "Tweet like removed successfully")
              else Ok(201, true, "Tweet liked successfully")
  {
    if tweetId == "" || !env.validId(tweetId) {
      return Throw(400, "Invalid Video ID");
    }
    var removed := ToggleLike(db, OnTweet(tweetId), env.principal, newId);
    if removed {
      r := Ok(200, true, "Tweet like removed successfully");
    } else {
      r := Ok(201, true, "Tweet liked successfully");
    }
  }

  // ---------------------------------------------------------------------------------------
  // getLikedVideos

  function LikedByUser(principal: Id): Like -> bool {
    (l: Like) => l.likedBy == principal
  }

  /**
   * `.populate("video")` on one like row: the referenced video, or nothing when the row names
   * no video (a comment or tweet like) or the video no longer exists.
   */
  function PopulateVideo(videos: seq<Video>, ref: Option<Id>): (v: Option<Video>)
    ensures v.Some? <==> ref.Some? && HasId(videos, VideoId, ref.value)
    ensures v.Some? ==> v.value in videos && v.value.id == ref.value
  {
    if ref.None? then None
    else match FindById(videos, VideoId, ref.value)
      case None => None
      case Some(k) => Some(videos[k])
  }

  function Populator(videos: seq<Video>): Like -> Option<Video> {
    (l: Like) => PopulateVideo(videos, l.video)
  }

  function LikedVideos(c: Collections, principal: Id): seq<Option<Video>> {
    Map(Select(c.likes, LikedByUser(principal)), Populator(c.videos))
  }

  /**
   * `getLikedVideos`: one entry per like row of the caller, in collection order; an entry is
   * the liked video, or absent for a comment or tweet like.
   */
  function GetLikedVideos(c: Collections, env: Env): (r: Response<seq<Option<Video>>>)
    ensures r.Ok? && r.statusCode == 200
    ensures |r.data| == Count(c.likes, LikedByUser(env.principal))
    ensures forall k :: 0 <= k < |r.data| && r.data[k].Some? ==>
      r.data[k].value in c.videos
      && exists l :: l in c.likes && l.likedBy == env.principal && l.video == Some(r.data[k].value.id)
    ensures forall k :: 0 <= k < |r.data| ==>
      r.data[k] == PopulateVideo(c.videos, Select(c.likes, LikedByUser(env.principal))[k].video)
  {
    var rows := Select(c.likes, LikedByUser(env.principal));
    assert forall k :: 0 <= k < |rows| ==> rows[k] in c.likes && rows[k].likedBy == env.principal;
    Ok(200, LikedVideos(c, env.principal), "Liked videos fetched successfully")
  }

  /** A new like on a video adds that video (or an absent entry, if it is gone) at the end of the list. */
  lemma LikedVideosAfterLike(c: Collections, t: Target, principal: Id, newId: Id)
    requires forall k :: 0 <= k < |c.likes| ==> !Matches(t, principal, c.likes[k])
    ensures LikedVideos(c.(likes := ToggleLikes(c.likes, t, principal, newId).0), principal)
         == LikedVideos(c, principal) + [PopulateVideo(c.videos, NewLike(newId, t, principal).video)]
  {
    var n := NewLike(newId, t, principal);
    assert ToggleLikes(c.likes, t, principal, newId).0 == c.likes + [n];
    SelectMapAppend(c.likes, LikedByUser(principal), Populator(c.videos), n);
  }

  /**
   * The caller's like at store index `i` gives the entry at the position of that row among
   * the caller's likes: its video when the row names an existing video, and an absent entry
   * for a comment or tweet like.
   */
  lemma LikedVideoEntry(c: Collections, env: Env, i: nat)
    requires i < |c.likes| && c.likes[i].likedBy == env.principal
    ensures var k := Count(c.likes[..i], LikedByUser(env.principal));
      var r := GetLikedVideos(c, env);
      k < |r.data|
      && r.data[k] == PopulateVideo(c.videos, c.likes[i].video)
      && (c.likes[i].video.None? ==> r.data[k].None?)
      && (c.likes[i].video.Some? && HasId(c.videos, VideoId, c.likes[i].video.value) ==>
            r.data[k].Some? && r.data[k].value.id == c.likes[i].video.value)
  {
    SelectPosition(c.likes, LikedByUser(env.principal), i);
  }
}
