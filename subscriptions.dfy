/**
 * The subscription handlers (src/controllers/subscription.controller.js): toggling a
 * subscription to a channel, and the two paginated listings.
 */
module Subscriptions {
  import opened Wrappers
  import opened Primitives
  import opened Errors
  import opened Schemas
  import opened Database

  /** The filter `{ channel, subscriber }`. */
  function PairSelector(channel: Id, subscriber: Id): Subscription -> bool {
    (s: Subscription) => s.channel == channel && s.subscriber == subscriber
  }

  function NewSubscription(id: Id, channel: Id, subscriber: Id): (s: Subscription)
    ensures s.id == id && PairOf(s) == (channel, subscriber)
  {
    Subscription(id, subscriber, channel)
  }

  /**
   * The Subscription collection after `subscriber` toggles `channel`, and whether a row was
   * removed (unsubscribed) rather than created (subscribed).
   */
  function ToggleSubscriptions(subs: seq<Subscription>, channel: Id, subscriber: Id, newId: Id)
    : (r: (seq<Subscription>, bool))
    ensures r.1 <==> exists k :: 0 <= k < |subs| && PairOf(subs[k]) == (channel, subscriber)
    ensures !r.1 ==> r.0 == subs + [NewSubscription(newId, channel, subscriber)]
    ensures r.1 ==> |r.0| == |subs| - 1
  {
    Toggle(subs, PairSelector(channel, subscriber), NewSubscription(newId, channel, subscriber))
  }

  /** In a well-formed collection an existing subscription is the only row for its pair. */
  lemma OnlyPair(subs: seq<Subscription>, channel: Id, subscriber: Id, i: nat)
    requires SubscriptionsWellFormed(subs)
    requires i < |subs| && PairOf(subs[i]) == (channel, subscriber)
    ensures FirstMatchAt(subs, PairSelector(channel, subscriber), i)
    ensures NoneMatch(RemoveAt(subs, i), PairSelector(channel, subscriber))
  {
  }

  lemma ToggleSubscriptionsKeepsWellFormed(subs: seq<Subscription>, channel: Id, subscriber: Id, newId: Id)
    requires SubscriptionsWellFormed(subs) && !HasId(subs, SubscriptionId, newId)
    ensures SubscriptionsWellFormed(ToggleSubscriptions(subs, channel, subscriber, newId).0)
  {
    var (r, removed) := ToggleSubscriptions(subs, channel, subscriber, newId);
    if removed {
      var i :| FirstMatchAt(subs, PairSelector(channel, subscriber), i) && r == RemoveAt(subs, i);
      UniqueRemoveAt(subs, SubscriptionId, i);
      DistinctRemoveAt(subs, PairOf, i);
    } else {
      var n := NewSubscription(newId, channel, subscriber);
      UniqueAppend(subs, SubscriptionId, n);
      assert forall k :: 0 <= k < |subs| ==> !PairSelector(channel, subscriber)(subs[k]);
      DistinctAppend(subs, PairOf, n);
    }
  }

  /** A toggle leaves every other (channel, subscriber) row as it was, in order. */
  lemma ToggleSubscriptionsKeepsOthers(subs: seq<Subscription>, channel: Id, subscriber: Id, newId: Id)
    ensures Reject(ToggleSubscriptions(subs, channel, subscriber, newId).0, PairSelector(channel, subscriber))
         == Reject(subs, PairSelector(channel, subscriber))
  {
    ToggleKeepsOthers(subs, PairSelector(channel, subscriber), NewSubscription(newId, channel, subscriber));
  }

  /** Subscribing and then toggling again restores the collection exactly. */
  lemma ToggleSubscriptionsTwiceFromUnsubscribed(subs: seq<Subscription>, channel: Id, subscriber: Id, id1: Id, id2: Id)
    requires forall k :: 0 <= k < |subs| ==> PairOf(subs[k]) != (channel, subscriber)
    ensures ToggleSubscriptions(subs, channel, subscriber, id1).1 == false
    ensures ToggleSubscriptions(ToggleSubscriptions(subs, channel, subscriber, id1).0, channel, subscriber, id2)
         == (subs, true)
  {
    ToggleTwiceWhenAbsent(subs, PairSelector(channel, subscriber),
      NewSubscription(id1, channel, subscriber), NewSubscription(id2, channel, subscriber));
  }

  /**
   * Unsubscribing and then toggling again subscribes anew: the same pairs as before, the
   * re-created row at the end with its new `_id`.
   */
  lemma ToggleSubscriptionsTwiceFromSubscribed(subs: seq<Subscription>, channel: Id, subscriber: Id, id1: Id, id2: Id, i: nat)
    requires SubscriptionsWellFormed(subs)
    requires i < |subs| && PairOf(subs[i]) == (channel, subscriber)
    ensures ToggleSubscriptions(subs, channel, subscriber, id1) == (RemoveAt(subs, i), true)
    ensures ToggleSubscriptions(RemoveAt(subs, i), channel, subscriber, id2)
         == (RemoveAt(subs, i) + [NewSubscription(id2, channel, subscriber)], false)
  {
    OnlyPair(subs, channel, subscriber, i);
    ToggleTwiceWhenPresent(subs, PairSelector(channel, subscriber),
      NewSubscription(id1, channel, subscriber), NewSubscription(id2, channel, subscriber), i);
  }

  /**
   * `toggleSubscription`: 400 for a missing or malformed channel id and for the caller's own
   * channel, all before the store is touched; otherwise the subscription is removed
   * ("Unsubscribed") or created ("Subscribed"), both with status 201.
   */
  method ToggleSubscription(db: Db, env: Env, channelId: string, newId: Id) returns (r: Response<bool>)
    requires db.Valid() && !HasId(db.subscriptions, SubscriptionId, newId)
    modifies db
    ensures db.Valid()
    ensures channelId == "" ==> r == Throw(400, "channel ID is missing")
    ensures channelId != "" && !env.validId(channelId) ==> r == Throw(400, "Invalid channel ID")
    ensures channelId != "" && env.validId(channelId) && channelId == env.principal ==>
      r == Throw(400, "User cannot subscribe to their own channel")
    ensures !r.Ok? ==> db.Snapshot() == old(db.Snapshot())
    ensures channelId != "" && env.validId(channelId) && channelId != env.principal ==>
      var (subs, removed) := ToggleSubscriptions(old(db.subscriptions), channelId, env.principal, newId);
      db.Snapshot() == old(db.Snapshot()).(subscriptions := subs)
      && r == if removed then Ok(201, true, "Unsubscribed successfully")
              else Ok(201, true, "Subscribed successfully")
  {
    if channelId == "" {
      return Throw(400, "channel ID is missing");
    }
    if !env.validId(channelId) {
      return Throw(400, "Invalid channel ID");
    }
    if channelId == env.principal {
      return Throw(400, "User cannot subscribe to their own channel");
    }
    ToggleSubscriptionsKeepsWellFormed(db.subscriptions, channelId, env.principal, newId);
    var (rest, existing) := FindOneAndDelete(db.subscriptions, PairSelector(channelId, env.principal));
    if existing.Some? {
      db.SetSubscriptions(rest);
      r := Ok(201, true, "Unsubscribed successfully");
    } else {
      db.SetSubscriptions(db.subscriptions + [NewSubscription(newId, channelId, env.principal)]);
      r := Ok(201, true, "Subscribed successfully");
    }
  }

  // ---------------------------------------------------------------------------------------
  // Counting and membership, shared with the profile, video and dashboard reads

  function OfChannel(channel: Id): Subscription -> bool {
    (s: Subscription) => s.channel == channel
  }

  function BySubscriber(subscriber: Id): Subscription -> bool {
    (s: Subscription) => s.subscriber == subscriber
  }

  /** `$size` of a `$lookup` of subscriptions whose `channel` is `channel`. */
  function SubscriberCount(subs: seq<Subscription>, channel: Id): nat {
    Count(subs, OfChannel(channel))
  }

  /** `"$subscribers.subscriber"`: the subscriber of each of the channel's rows, in order. */
  function SubscriberIds(subs: seq<Subscription>, channel: Id): (r: seq<Id>)
    ensures |r| == SubscriberCount(subs, channel)
    ensures forall u :: u in r <==> exists k :: 0 <= k < |subs| && PairOf(subs[k]) == (channel, u)
  {
    var rows := Select(subs, OfChannel(channel));
    var r := seq(|rows|, k requires 0 <= k < |rows| => rows[k].subscriber);
    assert forall u :: u in r ==> exists k :: 0 <= k < |subs| && PairOf(subs[k]) == (channel, u) by {
      forall u | u in r
        ensures exists k :: 0 <= k < |subs| && PairOf(subs[k]) == (channel, u)
      {
        var j :| 0 <= j < |rows| && r[j] == u;
        assert rows[j] in subs;
      }
    }
    assert forall u :: (exists k :: 0 <= k < |subs| && PairOf(subs[k]) == (channel, u)) ==> u in r by {
      forall u | exists k :: 0 <= k < |subs| && PairOf(subs[k]) == (channel, u)
        ensures u in r
      {
        var k :| 0 <= k < |subs| && PairOf(subs[k]) == (channel, u);
        assert OfChannel(channel)(subs[k]);
        var j :| 0 <= j < |rows| && rows[j] == subs[k];
        assert r[j] == u;
      }
    }
    r
  }

  /** The `isSubscribed` flag: `$in: [user, "$subscribers.subscriber"]`. */
  predicate IsSubscribed(subs: seq<Subscription>, channel: Id, user: Id) {
    user in SubscriberIds(subs, channel)
  }

  /**
   * A toggle that subscribes raises the channel's subscriber count by one and sets the
   * subscriber's `isSubscribed` flag.
   */
  lemma SubscribeCountsOne(subs: seq<Subscription>, channel: Id, subscriber: Id, newId: Id)
    requires forall k :: 0 <= k < |subs| ==> PairOf(subs[k]) != (channel, subscriber)
    ensures !IsSubscribed(subs, channel, subscriber)
    ensures var after := ToggleSubscriptions(subs, channel, subscriber, newId).0;
      SubscriberCount(after, channel) == SubscriberCount(subs, channel) + 1
      && IsSubscribed(after, channel, subscriber)
  {
    var n := NewSubscription(newId, channel, subscriber);
    CountAppend(subs, OfChannel(channel), n);
    var after := subs + [n];
    assert PairOf(after[|subs|]) == (channel, subscriber);
  }

  /**
   * A toggle that unsubscribes lowers the channel's subscriber count by one and clears the
   * subscriber's `isSubscribed` flag.
   */
  lemma UnsubscribeCountsOne(subs: seq<Subscription>, channel: Id, subscriber: Id, newId: Id, i: nat)
    requires SubscriptionsWellFormed(subs)
    requires i < |subs| && PairOf(subs[i]) == (channel, subscriber)
    ensures IsSubscribed(subs, channel, subscriber)
    ensures var after := ToggleSubscriptions(subs, channel, subscriber, newId).0;
      SubscriberCount(after, channel) + 1 == SubscriberCount(subs, channel)
      && !IsSubscribed(after, channel, subscriber)
  {
    OnlyPair(subs, channel, subscriber, i);
    ToggleTwiceWhenPresent(subs, PairSelector(channel, subscriber),
      NewSubscription(newId, channel, subscriber), NewSubscription(newId, channel, subscriber), i);
    CountRemoveAt(subs, OfChannel(channel), i);
    var after := RemoveAt(subs, i);
    assert forall k :: 0 <= k < |after| ==> PairOf(after[k]) != (channel, subscriber);
  }

  // ---------------------------------------------------------------------------------------
  // Listings

  /** The subscriber of each of the channel's rows, looked up and projected, before paging. */
  function ChannelSubscriberCards(c: Collections, channel: Id): (r: seq<Option<UserCard>>)
    ensures |r| == SubscriberCount(c.subscriptions, channel)
    ensures forall k :: 0 <= k < |r| ==>
      r[k] == LookupCard(c.users, Select(c.subscriptions, OfChannel(channel))[k].subscriber)
    ensures forall card :: card in r && card.Some? ==>
      exists s :: s in c.subscriptions && s.channel == channel && s.subscriber == card.value.id
  {
    var rows := Select(c.subscriptions, OfChannel(channel));
    var r := seq(|rows|, k requires 0 <= k < |rows| => LookupCard(c.users, rows[k].subscriber));
    assert forall k :: 0 <= k < |r| ==> rows[k] in c.subscriptions && rows[k].channel == channel && r[k] == LookupCard(c.users, rows[k].subscriber);
    r
  }

  /** The channel of each of the subscriber's rows, looked up and projected, before paging. */
  function SubscribedChannelCards(c: Collections, subscriber: Id): (r: seq<Option<UserCard>>)
    ensures |r| == Count(c.subscriptions, BySubscriber(subscriber))
    ensures forall k :: 0 <= k < |r| ==>
      r[k] == LookupCard(c.users, Select(c.subscriptions, BySubscriber(subscriber))[k].channel)
    ensures forall card :: card in r && card.Some? ==>
      exists s :: s in c.subscriptions && s.subscriber == subscriber && s.channel == card.value.id
  {
    var rows := Select(c.subscriptions, BySubscriber(subscriber));
    var r := seq(|rows|, k requires 0 <= k < |rows| => LookupCard(c.users, rows[k].channel));
    assert forall k :: 0 <= k < |r| ==> rows[k] in c.subscriptions && rows[k].subscriber == subscriber && r[k] == LookupCard(c.users, rows[k].channel);
    r
  }

  /**
   * `getUserChannelSubscribers`: 400 for a missing or malformed id; otherwise the first page
   * (page 1, limit 10) of the channel's subscribers. An entry is absent when its user is gone.
   */
  function GetUserChannelSubscribers(c: Collections, env: Env, channelId: string): (r: Response<seq<Option<UserCard>>>)
    ensures channelId == "" ==> r == Throw(400, "channel ID is missing")
    ensures channelId != "" && !env.validId(channelId) ==> r == Throw(400, "Invalid channel ID")
    ensures channelId != "" && env.validId(channelId) ==>
      r.Ok? && r.statusCode == 200 && |r.data| <= 10
      && r.data == Page(ChannelSubscriberCards(c, channelId), 1, 10)
    ensures r.Ok? ==> forall k :: 0 <= k < |r.data| && r.data[k].Some? ==>
      exists s :: s in c.subscriptions && s.channel == channelId && s.subscriber == r.data[k].value.id
  {
    if channelId == "" then Throw(400, "channel ID is missing")
    else if !env.validId(channelId) then Throw(400, "Invalid channel ID")
    else
      Ok(200, Page(ChannelSubscriberCards(c, channelId), 1, 10), "Successfully fetched the list of channel subscribers.")
  }

  /**
   * `getSubscribedChannels`: 400 for a missing or malformed id; otherwise the first page
   * (page 1, limit 10) of the channels the user subscribes to.
   */
  function GetSubscribedChannels(c: Collections, env: Env, subscriberId: string): (r: Response<seq<Option<UserCard>>>)
    ensures subscriberId == "" ==> r == Throw(400, "subscriber ID is missing")
    ensures subscriberId != "" && !env.validId(subscriberId) ==> r == Throw(400, "Invalid subscriber ID")
    ensures subscriberId != "" && env.validId(subscriberId) ==>
      r.Ok? && r.statusCode == 200 && |r.data| <= 10
      && r.data == Page(SubscribedChannelCards(c, subscriberId), 1, 10)
    ensures r.Ok? ==> forall k :: 0 <= k < |r.data| && r.data[k].Some? ==>
      exists s :: s in c.subscriptions && s.subscriber == subscriberId && s.channel == r.data[k].value.id
  {
    if subscriberId == "" then Throw(400, "subscriber ID is missing")
    else if !env.validId(subscriberId) then Throw(400, "Invalid subscriber ID")
    else
      Ok(200, Page(SubscribedChannelCards(c, subscriberId), 1, 10), "Successfully fetched the list of user subscribed channels")
  }
}
