/**
 * The channel dashboard (src/controllers/dashboard.controller.js): the caller's channel
 * statistics and the caller's videos with their like counts. Both only read the store.
 */
module Dashboard {
  import opened Wrappers
  import opened Primitives
  import opened Errors
  import opened Schemas
  import opened VideoModel
  import opened Database
  import opened Subscriptions
  import Likes
  import Videos

  // ---------------------------------------------------------------------------------------
  // getChannelStats

  datatype ChannelStats = ChannelStats(totalViews: int, totalSubscribers: int, totalLikes: int)

  /** `$match: { owner: principal }` on videos. */
  function OwnedBy(owner: Id): Video -> bool {
    (v: Video) => v.owner == Some(owner)
  }

  /** The `_id`s of the caller's videos, in collection order. */
  function ChannelVideoIds(c: Collections, owner: Id): (r: seq<Id>)
    ensures forall id :: id in r <==> exists v :: v in c.videos && v.owner == Some(owner) && v.id == id
  {
    var mine := Select(c.videos, OwnedBy(owner));
    SelectMapOrigin(c.videos, OwnedBy(owner), VideoId);
    forall v | v in c.videos && v.owner == Some(owner)
      ensures v.id in Map(mine, VideoId)
    {
      SelectMapMember(c.videos, OwnedBy(owner), VideoId, v);
    }
    Map(mine, VideoId)
  }

  function SumViews(videos: seq<Video>): int {
    if videos == [] then 0 else videos[0].views + SumViews(videos[1..])
  }

  /**
   * The `$group` stage with `_id: null`: one group holding the accumulated value when some
   * document reached it, and no group at all otherwise.
   */
  function Group<T>(matched: seq<T>, total: int): (g: Option<int>)
    ensures g.None? <==> matched == []
  {
    if matched == [] then None else Some(total)
  }

  /** `group[0]?.field || 0`: the group's value, with a missing group and the falsy 0 read as 0. */
  function OrZero(g: Option<int>): (n: int)
    ensures g.Some? ==> n == g.value
    ensures g.None? ==> n == 0
  {
    if g.Some? && g.value != 0 then g.value else 0
  }

  /** `$or` over `{ video: id }` for each of the given ids. */
  function OnAnyOf(ids: seq<Id>): Like -> bool {
    (l: Like) => l.video.Some? && l.video.value in ids
  }

  /**
   * `getChannelStats`: the views summed over the caller's videos, the number of subscriptions
   * to the caller's channel and the number of likes on the caller's videos; each is 0 when
   * nothing matched. The handler's 500 branch tests arrays, which are always truthy, so every
   * call succeeds.
   */
  function GetChannelStats(c: Collections, env: Env): (r: Response<ChannelStats>)
    ensures r.Ok? && r.statusCode == 200 && r.message == "Channel stats fetched successfully"
    ensures r.data.totalViews == SumViews(Select(c.videos, OwnedBy(env.principal)))
    ensures r.data.totalSubscribers == SubscriberCount(c.subscriptions, env.principal)
    ensures r.data.totalLikes == Count(c.likes, OnAnyOf(ChannelVideoIds(c, env.principal)))
    ensures r.data.totalSubscribers >= 0 && r.data.totalLikes >= 0
  {
    var videos := Select(c.videos, OwnedBy(env.principal));
    var views := Group(videos, SumViews(videos));
    var channelRows := Select(c.subscriptions, OfChannel(env.principal));
    var subscribers := Group(channelRows, |channelRows|);
    var likeRows := Select(c.likes, OnAnyOf(ChannelVideoIds(c, env.principal)));
    var likes := Group(likeRows, |likeRows|);
    Ok(200, ChannelStats(OrZero(views), OrZero(subscribers), OrZero(likes)), "Channel stats fetched successfully")
  }

  // ---------------------------------------------------------------------------------------
  // getChannelVideos

  /** One of the caller's videos with `totalLikes`, the `$size` of its joined likes. */
  datatype ChannelVideo = ChannelVideo(video: Video, totalLikes: nat)

  function LikesVideo(videoId: Id): Like -> bool {
    (l: Like) => l.video == Some(videoId)
  }

  function WithLikeCount(likes: seq<Like>): Video -> ChannelVideo {
    (v: Video) => ChannelVideo(v, Count(likes, LikesVideo(v.id)))
  }

  /** The pipeline before pagination: the caller's videos, in collection order, with like counts. */
  function ChannelVideoRows(c: Collections, owner: Id): (r: seq<ChannelVideo>)
    ensures |r| == Count(c.videos, OwnedBy(owner))
    ensures forall k :: 0 <= k < |r| ==>
      r[k].video in c.videos && r[k].video.owner == Some(owner)
      && r[k].totalLikes == Count(c.likes, LikesVideo(r[k].video.id))
    ensures forall v :: v in c.videos && v.owner == Some(owner) ==> WithLikeCount(c.likes)(v) in r
    ensures forall k :: 0 <= k < |r| ==> r[k] == WithLikeCount(c.likes)(Select(c.videos, OwnedBy(owner))[k])
  {
    var r := Map(Select(c.videos, OwnedBy(owner)), WithLikeCount(c.likes));
    forall v | v in c.videos && v.owner == Some(owner)
      ensures WithLikeCount(c.likes)(v) in r
    {
      SelectMapMember(c.videos, OwnedBy(owner), WithLikeCount(c.likes), v);
    }
    r
  }

  /** `getChannelVideos`: the first page of ten of the caller's videos with their like counts. */
  function GetChannelVideos(c: Collections, env: Env): (r: Response<seq<ChannelVideo>>)
    ensures r.Ok? && r.statusCode == 200 && r.message == "Videos fetched successfully"
    ensures r.data == Page(ChannelVideoRows(c, env.principal), 1, 10)
    ensures |r.data| <= 10
  {
    Ok(200, Page(ChannelVideoRows(c, env.principal), 1, 10), "Videos fetched successfully")
  }

  // ---------------------------------------------------------------------------------------
  // How the two views agree, and how they follow the other handlers

  function SumLikes(rows: seq<ChannelVideo>): nat {
    if rows == [] then 0 else rows[0].totalLikes + SumLikes(rows[1..])
  }

  /** Over videos with distinct `_id`s, the per-video like counts add up to the likes on any of them. */
  lemma {:induction false} LikesOfDistinctVideos(likes: seq<Like>, vs: seq<Video>)
    requires Distinct(vs, VideoId)
    ensures SumLikes(Map(vs, WithLikeCount(likes))) == Count(likes, OnAnyOf(Map(vs, VideoId)))
  {
    if vs == [] {
      SelectNone(likes, OnAnyOf([]));
    } else {
      var rest := vs[1..];
      assert Distinct(rest, VideoId) by {
        forall i, j | 0 <= i < j < |rest|
          ensures VideoId(rest[i]) != VideoId(rest[j])
        {
          assert rest[i] == vs[i + 1] && rest[j] == vs[j + 1];
        }
      }
      LikesOfDistinctVideos(likes, rest);
      var ids := Map(vs, VideoId);
      assert ids == [vs[0].id] + Map(rest, VideoId);
      assert vs[0].id !in Map(rest, VideoId) by {
        forall k | 0 <= k < |rest|
          ensures rest[k].id != vs[0].id
        {
          assert rest[k] == vs[k + 1];
        }
      }
      CountDisjointUnion(likes, LikesVideo(vs[0].id), OnAnyOf(Map(rest, VideoId)), OnAnyOf(ids));
      assert Map(vs, WithLikeCount(likes))[1..] == Map(rest, WithLikeCount(likes));
    }
  }

  /**
   * The dashboard is consistent with itself: with unique video `_id`s, the like counts of the
   * caller's videos (before paging) add up to the statistics' `totalLikes`.
   */
  lemma ChannelLikesAddUp(c: Collections, env: Env)
    requires UniqueIds(c.videos, VideoId)
    ensures SumLikes(ChannelVideoRows(c, env.principal)) == GetChannelStats(c, env).data.totalLikes
  {
    DistinctSelect(c.videos, VideoId, OwnedBy(env.principal));
    LikesOfDistinctVideos(c.likes, Select(c.videos, OwnedBy(env.principal)));
  }

  /**
   * `totalLikes` follows a video like toggle by anyone: one more when a like on one of the
   * caller's videos is added, one fewer when it is removed, and no change for another video.
   */
  lemma StatsFollowVideoLike(c: Collections, env: Env, videoId: Id, liker: Id, newId: Id)
    ensures var (likes, removed) := Likes.ToggleLikes(c.likes, Likes.OnVideo(videoId), liker, newId);
      var before := GetChannelStats(c, env).data.totalLikes;
      var after := GetChannelStats(c.(likes := likes), env).data.totalLikes;
      (videoId in ChannelVideoIds(c, env.principal) && !removed ==> after == before + 1)
      && (videoId in ChannelVideoIds(c, env.principal) && removed ==> after + 1 == before)
      && (videoId !in ChannelVideoIds(c, env.principal) ==> after == before)
  {
    var t := Likes.OnVideo(videoId);
    var p := OnAnyOf(ChannelVideoIds(c, env.principal));
    var selector := Likes.Selector(t, liker);
    var added := Likes.NewLike(newId, t, liker);
    var (likes, removed) := Toggle(c.likes, selector, added);
    if removed {
      var i: nat :| FirstMatchAt(c.likes, selector, i) && likes == RemoveAt(c.likes, i);
      if p(c.likes[i]) {
        CountRemoveAt(c.likes, p, i);
      } else {
        CountRemoveUnmatched(c.likes, p, i);
      }
    } else {
      CountAppend(c.likes, p, added);
    }
  }

  lemma {:induction false} SumViewsAppend(videos: seq<Video>, v: Video)
    ensures SumViews(videos + [v]) == SumViews(videos) + v.views
  {
    if videos != [] {
      assert (videos + [v])[1..] == videos[1..] + [v];
      SumViewsAppend(videos[1..], v);
    }
  }

  lemma {:induction false} SumViewsKeep(videos: seq<Video>, f: Video -> Video)
    requires forall v :: f(v).views == v.views
    ensures SumViews(Map(videos, f)) == SumViews(videos)
  {
    if videos != [] {
      assert Map(videos, f)[1..] == Map(videos[1..], f);
      SumViewsKeep(videos[1..], f);
    }
  }

  /**
   * A new video adds its views to its owner's `totalViews`, and to `totalLikes` the likes
   * already naming its id (a video like does not check that the video exists); nobody else's
   * statistics change. `publishAVideo` creates videos with 0 views.
   */
  lemma StatsAfterNewVideo(c: Collections, env: Env, v: Video)
    requires !HasId(c.videos, VideoId, v.id)
    ensures GetChannelStats(c.(videos := c.videos + [v]), env).data.totalViews
         == GetChannelStats(c, env).data.totalViews + (if v.owner == Some(env.principal) then v.views else 0)
    ensures GetChannelStats(c.(videos := c.videos + [v]), env).data.totalSubscribers
         == GetChannelStats(c, env).data.totalSubscribers
    ensures GetChannelStats(c.(videos := c.videos + [v]), env).data.totalLikes
         == GetChannelStats(c, env).data.totalLikes
            + (if v.owner == Some(env.principal) then Count(c.likes, LikesVideo(v.id)) else 0)
  {
    ViewsAfterNewVideo(c, env.principal, v);
    LikesAfterNewVideo(c, env.principal, v);
  }

  lemma ViewsAfterNewVideo(c: Collections, owner: Id, v: Video)
    ensures SumViews(Select(c.videos + [v], OwnedBy(owner)))
         == SumViews(Select(c.videos, OwnedBy(owner))) + (if v.owner == Some(owner) then v.views else 0)
  {
    OwnedAfterNewVideo(c, owner, v);
    var before := Select(c.videos, OwnedBy(owner));
    if v.owner == Some(owner) {
      assert Select(c.videos + [v], OwnedBy(owner)) == before + [v];
      SumViewsAppend(before, v);
    } else {
      assert Select(c.videos + [v], OwnedBy(owner)) == before;
    }
  }

  lemma LikesAfterNewVideo(c: Collections, owner: Id, v: Video)
    requires !HasId(c.videos, VideoId, v.id)
    ensures Count(c.likes, OnAnyOf(ChannelVideoIds(c.(videos := c.videos + [v]), owner)))
         == Count(c.likes, OnAnyOf(ChannelVideoIds(c, owner)))
            + (if v.owner == Some(owner) then Count(c.likes, LikesVideo(v.id)) else 0)
  {
    var ids := ChannelVideoIds(c, owner);
    OwnedAfterNewVideo(c, owner, v);
    if v.owner == Some(owner) {
      assert ChannelVideoIds(c.(videos := c.videos + [v]), owner) == ids + [v.id];
      assert v.id !in ids;
      CountDisjointUnion(c.likes, OnAnyOf(ids), LikesVideo(v.id), OnAnyOf(ids + [v.id]));
    } else {
      assert ChannelVideoIds(c.(videos := c.videos + [v]), owner) == ids;
    }
  }

  lemma OwnedAfterNewVideo(c: Collections, owner: Id, v: Video)
    ensures Select(c.videos + [v], OwnedBy(owner)) == Select(c.videos, OwnedBy(owner)) + (if v.owner == Some(owner) then [v] else [])
    ensures ChannelVideoIds(c.(videos := c.videos + [v]), owner)
         == ChannelVideoIds(c, owner) + (if v.owner == Some(owner) then [v.id] else [])
  {
    var p := OwnedBy(owner);
    SelectConcat(c.videos, [v], p);
    assert [v][1..] == [];
    assert Select([v], p) == if p(v) then [v] else [];
    MapConcat(Select(c.videos, p), Select([v], p), VideoId);
  }

  /** Toggling a video's publish flag changes none of the statistics. */
  lemma StatsIgnorePublishFlag(c: Collections, env: Env, videoId: Id)
    ensures GetChannelStats(c.(videos := Videos.FlipPublished(c.videos, videoId)), env) == GetChannelStats(c, env)
  {
    var p := OwnedBy(env.principal);
    var flip := Videos.Flip(videoId);
    SelectMap(c.videos, flip, p, p);
    SumViewsKeep(Select(c.videos, p), flip);
    MapKeep(Select(c.videos, p), flip, VideoId);
  }

  /**
   * A subscription to the caller's channel raises `totalSubscribers` by one, and toggling it
   * again restores every statistic.
   */
  lemma StatsFollowSubscription(c: Collections, env: Env, subscriber: Id, newId: Id)
    requires forall k :: 0 <= k < |c.subscriptions| ==> PairOf(c.subscriptions[k]) != (env.principal, subscriber)
    ensures var subscribed := c.(subscriptions := ToggleSubscriptions(c.subscriptions, env.principal, subscriber, newId).0);
      GetChannelStats(subscribed, env).data.totalSubscribers == GetChannelStats(c, env).data.totalSubscribers + 1
    ensures var subscribed := c.(subscriptions := ToggleSubscriptions(c.subscriptions, env.principal, subscriber, newId).0);
      var unsubscribed := subscribed.(subscriptions := ToggleSubscriptions(subscribed.subscriptions, env.principal, subscriber, newId).0);
      GetChannelStats(unsubscribed, env) == GetChannelStats(c, env)
  {
    SubscribeCountsOne(c.subscriptions, env.principal, subscriber, newId);
    ToggleSubscriptionsTwiceFromUnsubscribed(c.subscriptions, env.principal, subscriber, newId, newId);
    var subscribed := c.(subscriptions := ToggleSubscriptions(c.subscriptions, env.principal, subscriber, newId).0);
    assert subscribed.(subscriptions := ToggleSubscriptions(subscribed.subscriptions, env.principal, subscriber, newId).0) == c;
  }
}
