/**
 * The document store as the handlers see it: one collection per model, each a sequence of
 * documents in natural (insertion) order.
 */
module Database {
  import opened Primitives
  import opened Schemas
  import opened VideoModel

  /** The contents of every collection at one moment. */
  datatype Collections = Collections(
    users: seq<User>,
    videos: seq<Video>,
    comments: seq<Comment>,
    likes: seq<Like>,
    subscriptions: seq<Subscription>,
    tweets: seq<Tweet>,
    playlists: seq<Playlist>)

  /** The like rows have unique `_id`s, each names exactly one target, and no two say the same. */
  ghost predicate LikesWellFormed(likes: seq<Like>) {
    UniqueIds(likes, LikeId) && All(likes, TargetsOne) && Distinct(likes, KeyOf)
  }

  /** The subscription rows have unique `_id`s and no two join the same pair. */
  ghost predicate SubscriptionsWellFormed(subs: seq<Subscription>) {
    UniqueIds(subs, SubscriptionId) && Distinct(subs, PairOf)
  }

  /**
   * Every collection's `_id`s are unique, and the like and subscription collections are well
   * formed: the handlers, run one at a time, keep all of this.
   */
  ghost predicate WellFormed(c: Collections) {
    UniqueIds(c.users, UserId) && UniqueIds(c.videos, VideoId) && UniqueIds(c.comments, CommentId)
    && LikesWellFormed(c.likes) && SubscriptionsWellFormed(c.subscriptions)
    && UniqueIds(c.tweets, TweetId) && UniqueIds(c.playlists, PlaylistId)
  }

  /** The database the handlers share; each handler updates the collections in place. */
  class Db {
    var users: seq<User>
    var videos: seq<Video>
    var comments: seq<Comment>
    var likes: seq<Like>
    var subscriptions: seq<Subscription>
    var tweets: seq<Tweet>
    var playlists: seq<Playlist>

    function Snapshot(): Collections
      reads this
    {
      Collections(users, videos, comments, likes, subscriptions, tweets, playlists)
    }

    ghost predicate Valid()
      reads this
    {
      WellFormed(Snapshot())
    }

    // Each setter replaces one collection with one that keeps it well formed; the others stay.

    method SetUsers(users: seq<User>)
      requires Valid() && UniqueIds(users, UserId)
      modifies this
      ensures Valid() && Snapshot() == old(Snapshot()).(users := users)
    {
      this.users := users;
    }

    method SetVideos(videos: seq<Video>)
      requires Valid() && UniqueIds(videos, VideoId)
      modifies this
      ensures Valid() && Snapshot() == old(Snapshot()).(videos := videos)
    {
      this.videos := videos;
    }

    method SetComments(comments: seq<Comment>)
      requires Valid() && UniqueIds(comments, CommentId)
      modifies this
      ensures Valid() && Snapshot() == old(Snapshot()).(comments := comments)
    {
      this.comments := comments;
    }

    method SetLikes(likes: seq<Like>)
      requires Valid() && LikesWellFormed(likes)
      modifies this
      ensures Valid() && Snapshot() == old(Snapshot()).(likes := likes)
    {
      this.likes := likes;
    }

    method SetSubscriptions(subscriptions: seq<Subscription>)
      requires Valid() && SubscriptionsWellFormed(subscriptions)
      modifies this
      ensures Valid() && Snapshot() == old(Snapshot()).(subscriptions := subscriptions)
    {
      this.subscriptions := subscriptions;
    }

    method SetTweets(tweets: seq<Tweet>)
      requires Valid() && UniqueIds(tweets, TweetId)
      modifies this
      ensures Valid() && Snapshot() == old(Snapshot()).(tweets := tweets)
    {
      this.tweets := tweets;
    }

    method SetPlaylists(playlists: seq<Playlist>)
      requires Valid() && UniqueIds(playlists, PlaylistId)
      modifies this
      ensures Valid() && Snapshot() == old(Snapshot()).(playlists := playlists)
    {
      this.playlists := playlists;
    }

    constructor ()
      ensures Valid()
      ensures Snapshot() == Collections([], [], [], [], [], [], [])
    {
      users, videos, comments, likes := [], [], [], [];
      subscriptions, tweets, playlists := [], [], [];
    }
  }
}
