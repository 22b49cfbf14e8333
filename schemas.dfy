/**
 * The documents of the collections the handlers read and write. Only the Video schema's
 * validators and defaults are modelled (module VideoModel); the other records carry the fields
 * the handlers set or read.
 */
module Schemas {
  import opened Wrappers
  import opened Primitives

  /** A media reference returned by the media host: its URL and its `public_id`. */
  datatype MediaRef = MediaRef(url: string, publicId: string)

  datatype User = User(
    id: Id,
    username: string,
    email: string,
    fullname: string,
    password: Option<string>,
    avatar: MediaRef,
    coverImage: Option<MediaRef>,
    refreshToken: Option<string>,
    watchHistory: seq<Id>)

  /** A like row names the liked video, comment or tweet, and the user who liked it. */
  datatype Like = Like(id: Id, video: Option<Id>, comment: Option<Id>, tweet: Option<Id>, likedBy: Id)

  datatype Subscription = Subscription(id: Id, subscriber: Id, channel: Id)

  datatype Comment = Comment(id: Id, content: string, video: Id, owner: Id)

  datatype Tweet = Tweet(id: Id, owner: Id, content: string)

  /** A playlist's `videos` keeps insertion order and may repeat a video. */
  datatype Playlist = Playlist(id: Id, name: string, description: string, videos: seq<Id>, owner: Id)

  /** A like row names exactly one of video, comment and tweet. */
  predicate TargetsOne(l: Like) {
    (if l.video.Some? then 1 else 0) + (if l.comment.Some? then 1 else 0) + (if l.tweet.Some? then 1 else 0) == 1
  }

  /** What a like row says, without its `_id`. */
  datatype LikeKey = LikeKey(video: Option<Id>, comment: Option<Id>, tweet: Option<Id>, likedBy: Id)

  function KeyOf(l: Like): LikeKey {
    LikeKey(l.video, l.comment, l.tweet, l.likedBy)
  }

  /** A subscription row without its `_id`: (channel, subscriber). */
  function PairOf(s: Subscription): (Id, Id) {
    (s.channel, s.subscriber)
  }

  function UserId(u: User): Id { u.id }
  function LikeId(l: Like): Id { l.id }
  function SubscriptionId(s: Subscription): Id { s.id }
  function CommentId(c: Comment): Id { c.id }
  function TweetId(t: Tweet): Id { t.id }
  function PlaylistId(p: Playlist): Id { p.id }

  /** A user projected to `_id`, `fullname`, `username` and `avatar`. */
  datatype UserCard = UserCard(id: Id, fullname: string, username: string, avatar: MediaRef)

  function CardOf(u: User): UserCard {
    UserCard(u.id, u.fullname, u.username, u.avatar)
  }

  /**
   * A `$lookup` of users by `_id` with that projection, collapsed by `$first`: the referenced
   * user's card, or nothing when no user has the id.
   */
  function LookupCard(users: seq<User>, id: Id): (r: Option<UserCard>)
    ensures r.None? <==> !HasId(users, UserId, id)
    ensures r.Some? ==> r.value.id == id && exists u :: u in users && r.value == CardOf(u)
  {
    match FindById(users, UserId, id)
    case None => None
    case Some(k) => Some(CardOf(users[k]))
  }

  function IsUser(id: Id): User -> bool {
    (u: User) => u.id == id
  }

  /**
   * A `$lookup` of users by `_id` with that projection, kept as an array: the cards of the
   * users whose `_id` is `id`, at most one when `_id`s are unique.
   */
  function OwnerCards(users: seq<User>, id: Id): (r: seq<UserCard>)
    ensures |r| == Count(users, IsUser(id))
    ensures forall k :: 0 <= k < |r| ==> r[k].id == id && exists u :: u in users && r[k] == CardOf(u)
    ensures |r| == 0 <==> !HasId(users, UserId, id)
  {
    var rows := Select(users, IsUser(id));
    assert HasId(users, UserId, id) ==> |rows| > 0 by {
      if HasId(users, UserId, id) {
        var k :| 0 <= k < |users| && UserId(users[k]) == id;
        assert IsUser(id)(users[k]);
      }
    }
    assert |rows| > 0 ==> HasId(users, UserId, id) by {
      if |rows| > 0 {
        assert rows[0] in users;
      }
    }
    seq(|rows|, k requires 0 <= k < |rows| => CardOf(rows[k]))
  }

  /** With unique `_id`s, at most one user carries a given id. */
  lemma {:induction false} OneUserPerId(users: seq<User>, id: Id)
    requires UniqueIds(users, UserId)
    ensures Count(users, IsUser(id)) <= 1
  {
    if users != [] {
      var rest := users[1..];
      if users[0].id == id {
        assert NoneMatch(rest, IsUser(id)) by {
          forall k | 0 <= k < |rest|
            ensures !IsUser(id)(rest[k])
          {
            assert rest[k] == users[k + 1];
          }
        }
        SelectNone(rest, IsUser(id));
      } else {
        assert UniqueIds(rest, UserId) by {
          forall i, j | 0 <= i < j < |rest|
            ensures UserId(rest[i]) != UserId(rest[j])
          {
            assert rest[i] == users[i + 1] && rest[j] == users[j + 1];
          }
        }
        OneUserPerId(rest, id);
      }
    }
  }

  /**
   * The outcome of `uploadOnCloudinary` for a file that was given: the host's response, or
   * `undefined` when the upload threw (the helper swallows the error).
   */
  datatype Upload = Uploaded(media: MediaRef) | UploadFailed
}
