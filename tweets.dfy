/**
 * The tweet handlers (src/controllers/tweet.controller.js): posting a tweet, listing a user's
 * tweets, editing a tweet and deleting one. The edit is addressed by a user id, not a tweet
 * id, and none of the handlers checks that the caller owns the tweet.
 */
module Tweets {
  import opened Wrappers
  import opened Primitives
  import opened Text
  import opened Errors
  import opened Schemas
  import opened Database

  // ---------------------------------------------------------------------------------------
  // createTweet

  /** `!content?.trim()`: missing content, or content made only of white space. */
  predicate BlankContent(content: Option<string>) {
    content.None? || Trim(content.value) == ""
  }

  /**
   * `createTweet`: 400 for blank content; otherwise a new tweet by the caller is appended,
   * its content as given (not trimmed).
   */
  method CreateTweet(db: Db, env: Env, content: Option<string>, newId: Id) returns (r: Response<Tweet>)
    requires db.Valid() && !HasId(db.tweets, TweetId, newId)
    modifies db
    ensures db.Valid()
    ensures r.Ok? <==> !BlankContent(content)
    ensures !r.Ok? ==> r == Throw(400, "Tweet Content cannot be empty") && db.Snapshot() == old(db.Snapshot())
    ensures r.Ok? ==>
      r.statusCode == 201 && r.message == "Tweet created successfully"
      && r.data == Tweet(newId, env.principal, content.value)
      && db.Snapshot() == old(db.Snapshot()).(tweets := old(db.tweets) + [r.data])
  {
    if BlankContent(content) {
      return Throw(400, "Tweet Content cannot be empty");
    }
    var t := Tweet(newId, env.principal, content.value);
    UniqueAppend(db.tweets, TweetId, t);
    db.SetTweets(db.tweets + [t]);
    r := Ok(201, t, "Tweet created successfully");
  }

  // ---------------------------------------------------------------------------------------
  // getUserTweets

  /** A listed tweet: `owner` is the joined array of user cards, left uncollapsed. */
  datatype TweetView = TweetView(id: Id, owner: seq<UserCard>, content: string)

  function ByOwner(userId: Id): Tweet -> bool {
    (t: Tweet) => t.owner == userId
  }

  function WithOwnerCards(users: seq<User>): Tweet -> TweetView {
    (t: Tweet) => TweetView(t.id, OwnerCards(users, t.owner), t.content)
  }

  /**
   * The listing pipeline before pagination: exactly the user's tweets, in collection order,
   * each with the owner's cards.
   */
  function UserTweets(c: Collections, userId: Id): (r: seq<TweetView>)
    ensures |r| == Count(c.tweets, ByOwner(userId))
    ensures forall k :: 0 <= k < |r| ==>
      exists t :: t in c.tweets && t.owner == userId && r[k] == WithOwnerCards(c.users)(t)
    ensures forall t :: t in c.tweets && t.owner == userId ==> WithOwnerCards(c.users)(t) in r
    ensures forall k :: 0 <= k < |r| ==> r[k] == WithOwnerCards(c.users)(Select(c.tweets, ByOwner(userId))[k])
  {
    var r := Map(Select(c.tweets, ByOwner(userId)), WithOwnerCards(c.users));
    SelectMapOrigin(c.tweets, ByOwner(userId), WithOwnerCards(c.users));
    forall t | t in c.tweets && t.owner == userId
      ensures WithOwnerCards(c.users)(t) in r
    {
      SelectMapMember(c.tweets, ByOwner(userId), WithOwnerCards(c.users), t);
    }
    r
  }

  /**
   * `getUserTweets`: 400 for a missing or malformed user id; otherwise the first page of ten
   * of the user's tweets.
   */
  function GetUserTweets(c: Collections, env: Env, userId: string): (r: Response<seq<TweetView>>)
    ensures userId == "" ==> r == Throw(400, "User ID is missing")
    ensures userId != "" && !env.validId(userId) ==> r == Throw(400, "Invalid User ID")
    ensures userId != "" && env.validId(userId) ==>
      r.Ok? && r.statusCode == 200 && r.message == "User tweets fetched successfully"
      && r.data == Page(UserTweets(c, userId), 1, 10)
    ensures r.Ok? ==> |r.data| <= 10
  {
    if userId == "" then Throw(400, "User ID is missing")
    else if !env.validId(userId) then Throw(400, "Invalid User ID")
    else Ok(200, Page(UserTweets(c, userId), 1, 10), "User tweets fetched successfully")
  }

  /** A posted tweet is listed last among its author's tweets; nobody else's listing changes. */
  lemma CreatedTweetListedLast(c: Collections, t: Tweet, userId: Id)
    ensures UserTweets(c.(tweets := c.tweets + [t]), userId)
         == UserTweets(c, userId) + (if t.owner == userId then [WithOwnerCards(c.users)(t)] else [])
  {
    SelectMapAppend(c.tweets, ByOwner(userId), WithOwnerCards(c.users), t);
  }

  // ---------------------------------------------------------------------------------------
  // updateTweet

  /**
   * `updateTweet`: 400 for a missing or malformed user id or missing content; otherwise the
   * content of the FIRST tweet the user owns is set (untrimmed) and nothing else changes; 404
   * when the user owns no tweet.
   */
  method UpdateTweet(db: Db, env: Env, userId: string, content: Option<string>) returns (r: Response<Tweet>)
    requires db.Valid()
    modifies db
    ensures db.Valid()
    ensures userId == "" ==> r == Throw(400, "User ID is missing")
    ensures userId != "" && !env.validId(userId) ==> r == Throw(400, "Invalid User ID")
    ensures userId != "" && env.validId(userId) && !Truthy(content) ==> r == Throw(400, "Content is missing")
    ensures userId != "" && env.validId(userId) && Truthy(content) ==>
      (r.Ok? <==> !NoneMatch(old(db.tweets), ByOwner(userId)))
      && (!r.Ok? ==> r == Throw(404, "Failed to update the user tweet"))
    ensures !r.Ok? ==> db.Snapshot() == old(db.Snapshot())
    ensures r.Ok? ==>
      r.statusCode == 200 && r.message == "User tweet updated successfully"
      && exists i: nat :: FirstMatchAt(old(db.tweets), ByOwner(userId), i)
           && r.data == old(db.tweets)[i].(content := content.value)
           && db.Snapshot() == old(db.Snapshot()).(tweets := old(db.tweets)[i := r.data])
  {
    if userId == "" {
      return Throw(400, "User ID is missing");
    }
    if !env.validId(userId) {
      return Throw(400, "Invalid User ID");
    }
    if !Truthy(content) {
      return Throw(400, "Content is missing");
    }
    var found := FindFirst(db.tweets, ByOwner(userId));
    if found.None? {
      return Throw(404, "Failed to update the user tweet");
    }
    var i := found.value;
    var updated := db.tweets[i].(content := content.value);
    UniqueReplace(db.tweets, TweetId, i, updated);
    db.SetTweets(db.tweets[i := updated]);
    r := Ok(200, updated, "User tweet updated successfully");
  }

  /**
   * The tweet `updateTweet` edits is the one `getUserTweets` lists first for that user, and
   * after the edit the listing shows the new content there.
   */
  lemma EditedTweetListedFirst(c: Collections, userId: Id, content: string, i: nat)
    requires FirstMatchAt(c.tweets, ByOwner(userId), i)
    ensures UserTweets(c, userId) != [] && UserTweets(c, userId)[0].id == c.tweets[i].id
    ensures var after := c.(tweets := c.tweets[i := c.tweets[i].(content := content)]);
      UserTweets(after, userId) != []
      && UserTweets(after, userId)[0] == TweetView(c.tweets[i].id, OwnerCards(c.users, userId), content)
  {
    SelectStartsAtFirstMatch(c.tweets, ByOwner(userId), i);
    var tweets := c.tweets[i := c.tweets[i].(content := content)];
    assert FirstMatchAt(tweets, ByOwner(userId), i);
    SelectStartsAtFirstMatch(tweets, ByOwner(userId), i);
  }

  // ---------------------------------------------------------------------------------------
  // deleteTweet

  /**
   * `deleteTweet`: 400 for a missing or malformed tweet id (with the user-id messages); 404
   * when no tweet has the id; otherwise that tweet is gone and the answer is `true`.
   */
  method DeleteTweet(db: Db, env: Env, tweetId: string) returns (r: Response<bool>)
    requires db.Valid()
    modifies db
    ensures db.Valid()
    ensures tweetId == "" ==> r == Throw(400, "User ID is missing")
    ensures tweetId != "" && !env.validId(tweetId) ==> r == Throw(400, "Invalid User ID")
    ensures tweetId != "" && env.validId(tweetId) ==>
      (r.Ok? <==> HasId(old(db.tweets), TweetId, tweetId))
      && (!r.Ok? ==> r == Throw(404, "Tweet not found"))
      && !HasId(db.tweets, TweetId, tweetId)
    ensures !r.Ok? ==> db.Snapshot() == old(db.Snapshot())
    ensures r.Ok? ==>
      r == Ok(200, true, "Tweet deleted successfully")
      && exists k :: 0 <= k < |old(db.tweets)| && old(db.tweets)[k].id == tweetId
           && db.Snapshot() == old(db.Snapshot()).(tweets := RemoveAt(old(db.tweets), k))
  {
    if tweetId == "" {
      return Throw(400, "User ID is missing");
    }
    if !env.validId(tweetId) {
      return Throw(400, "Invalid User ID");
    }
    DeleteByIdKeepsUnique(db.tweets, TweetId, tweetId);
    var (tweets, deleted) := DeleteById(db.tweets, TweetId, tweetId);
    if deleted.None? {
      return Throw(404, "Tweet not found");
    }
    db.SetTweets(tweets);
    r := Ok(200, true, "Tweet deleted successfully");
  }
}
