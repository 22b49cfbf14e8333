# videoplatform — a Dafny model of the controller logic

The repository is an Express/MongoDB backend for a video-sharing site. Users register and
log in. They publish videos, comment, tweet, like videos, comments and tweets, subscribe to
channels, and keep playlists. A dashboard summarises a channel.

This project models the controllers' own decision logic. The document store is modelled as
an in-memory state:

- `Database.Db` is a class with one sequence field per collection. The handlers that write
  are methods that `modify` it. They store a collection through a setter (`Db.SetUsers`,
  `Db.SetComments`, ...). Each setter accepts only a collection that keeps the store well
  formed.
- Read-only handlers are functions over a `Collections` snapshot.
- Every handler checks its inputs in the source's order. It yields a success envelope, a
  thrown `ApiError` or another exception (a `Fault`).
- Mutating handlers keep `Db.Valid()`: unique `_id`s in every collection, like rows that name
  exactly one target, and no two rows for the same like or the same (channel, subscriber)
  pair.

Module layout:

- `Wrappers`, `Text` and `Primitives`: `Option`, JavaScript string operations, and the store
  primitives. `create` appends, `findOneAndDelete` removes the first match, `$push` appends
  and `$pull` removes every copy.
- `Errors` (src/utils/ApiError.js), `VideoModel` (src/models/video.model.js), `Schemas` and
  `Database`.
- `Ordering`: `$sort` on one field.
- One module per controller: `Likes`, `Subscriptions`, `Playlists`, `Users`, `Videos`,
  `Comments`, `Tweets` and `Dashboard`.
- `PublicId`: `extractPublicIdFromUrl` from src/utils/index.js.

Uninterpreted inputs stand for the parts the model does not look inside:

- `isValidObjectId` and the caller's `_id` (the `Env` datatype).
- The password comparison and `jwt.verify` (the `Crypto` datatype).
- Fresh `_id`s, issued tokens and the clock's reading for a new video's `createdAt` (method parameters).
- The outcome of each media-host upload or deletion (an `Upload` value or a flag).

Status codes:

- An `ApiError` keeps its status code in the field `status`, which Express's default
  handler reads (`Errors.HttpStatus`).
- `Ok`'s code is the HTTP status line that `res.status(...)` sets. The code inside the
  `ApiResponse` body is not modelled; it differs from the status line in two places:
  registration answers HTTP 201 with 200 in the body, and `getUserChannelProfile` answers
  HTTP 200 with 220 in the body.

## Model

| member | source | states |
|---|---|---|
| Errors.NewApiError | src/utils/ApiError.js:1-21 | `success` is false and `data` is null. `status` holds the given code. A missing message is "Something went wrong" and missing errors are `[]`; given ones are kept |
| Errors.Throw | src/utils/ApiError.js:2-13 | `throw new ApiError(status, message)`: a thrown error with that status and message, no errors, `success` false |
| Errors.HttpStatus | src/utils/ApiError.js:13 | A reply's HTTP code is `Ok`'s code (the status line) on success. For a thrown error it is the error's `status` when that is 4xx/5xx, else 500. Any other exception gives 500 |
| VideoModel.MissingPaths | src/models/video.model.js:5-45 | A path is reported missing exactly when its value does not satisfy `required`. Title and description are missing exactly when absent or only white space (checked after trimming) |
| VideoModel.NewVideo | src/models/video.model.js:5-56 | Accepted exactly when no required path is missing; a rejection names a non-empty set of paths. Accepted: title and description are stored trimmed and non-empty, both media and the duration as given, `views` defaults to 0, `isPublished` defaults to true, `createdAt` is the given time |
| Text.Trim | src/controllers/user.controller.js:40 | `String.prototype.trim`: the result is empty exactly when the input is all white space, and otherwise neither starts nor ends with white space (`TrimStart`/`TrimEnd` state that only white space is cut) |
| Text.TrimIdempotent | src/models/video.model.js:9 | Trimming a trimmed value changes nothing |
| Text.ToLower | src/controllers/user.controller.js:73 | Same length; each character is lowered position by position |
| Schemas.LookupCard | src/controllers/comment.controller.js:21-51 | The joined-and-`$first`ed user is the card of the user with that `_id`, or absent when there is none |
| Schemas.OwnerCards | src/controllers/tweet.controller.js:48-62 | The joined array holds exactly the cards of users with that `_id`, so at most one with unique ids |
| Primitives.FindOneAndDelete | src/controllers/like.controller.js:15-17 | Removes exactly the first matching row and returns it; nothing is removed when none matches |
| Primitives.SelectPosition | src/controllers/tweet.controller.js:47-51 | A `$match` stage keeps collection order: a selected row lands at the position given by the number of selected rows before it |
| Primitives.Pull | src/controllers/playlist.controller.js:144-146 | `$pull` removes every copy of the value and keeps the order of the rest |
| Primitives.PushThenPull | src/controllers/playlist.controller.js:104-151 | Pushing an absent value and then pulling it restores the array |
| Primitives.Toggle | src/controllers/like.controller.js:15-38 | Delete-if-present, else insert: the result says which happened. Removal takes out the first match and insertion appends |
| Primitives.ToggleTwiceWhenAbsent | src/controllers/like.controller.js:15-38 | Two toggles from an absent row restore the collection |
| Primitives.Page | src/controllers/subscription.controller.js:61-64 | A page has at most `limit` items: the slice after skipping `(page - 1) * limit` rows, full unless the rows run out |
| Likes.NewLike | src/controllers/like.controller.js:27-30 | The created row sets only the target's own field (video, comment or tweet) and `likedBy`. It matches the toggle's filter |
| Likes.MatchingRowKey | src/controllers/like.controller.js:15-30 | A row that the toggle filter matches says exactly what `NewLike` would create |
| Likes.ToggleLikes | src/controllers/like.controller.js:15-38 | "removed" exactly when a row matches (target, principal). Then one row goes; otherwise exactly `NewLike` is appended |
| Likes.ToggleLikesKeepsOthers | src/controllers/like.controller.js:15-17 | Rows for another target or another user are unchanged and stay in order |
| Likes.ToggleLikesTwiceFromUnliked | src/controllers/like.controller.js:15-38 | Like then unlike leaves the collection exactly as it was |
| Likes.ToggleLikesTwiceFromLiked | src/controllers/like.controller.js:15-38 | Unlike then like gives the same multiset of rows up to the new `_id` |
| Likes.ToggleLikesKeepsWellFormed | src/controllers/like.controller.js:15-38 | A toggle keeps ids unique, one target per row, and no duplicate likes |
| Likes.ToggleLike | src/controllers/like.controller.js:15-38 | The shared toggle changes only the like collection, as `ToggleLikes` says |
| Likes.ToggleVideoLike | src/controllers/like.controller.js:7-40 | 400 "Invalid Video ID" for a missing or malformed id, store untouched. Otherwise 200 "Video like removed successfully" when a like was removed, else 201 "Video liked successfully" |
| Likes.ToggleCommentLike | src/controllers/like.controller.js:42-75 | As for videos, with 400 "Invalid commentId" and the comment messages |
| Likes.ToggleTweetLike | src/controllers/like.controller.js:77-110 | As for videos, with 400 "Invalid Video ID" and the tweet messages |
| Likes.PopulateVideo | src/controllers/like.controller.js:113-115 | A reference populates exactly when it names an existing video, and then to that video |
| Likes.GetLikedVideos | src/controllers/like.controller.js:112-133 | Always 200, with one entry per like row of the caller, in collection order: entry `k` is the `video` reference of the caller's `k`-th like row, populated. A present entry is a video the caller liked |
| Likes.LikedVideoEntry | src/controllers/like.controller.js:113-122 | The caller's like at store index `i` gives the entry at its position among the caller's likes: the named video when it exists, and an absent entry for a comment or tweet like |
| Likes.LikedVideosAfterLike | src/controllers/like.controller.js:26-30 | A new like adds its populated video at the end of the caller's list |
| Subscriptions.NewSubscription | src/controllers/subscription.controller.js:35-38 | The created row joins exactly (channel, subscriber) |
| Subscriptions.ToggleSubscriptions | src/controllers/subscription.controller.js:24-47 | "unsubscribed" exactly when the pair has a row. Then one row goes; otherwise the pair's row is appended |
| Subscriptions.OnlyPair | src/controllers/subscription.controller.js:24-27 | In a well-formed collection, an existing pair row is the first and only one |
| Subscriptions.ToggleSubscriptionsKeepsWellFormed | src/controllers/subscription.controller.js:24-47 | A toggle keeps ids unique and pairs distinct |
| Subscriptions.ToggleSubscriptionsKeepsOthers | src/controllers/subscription.controller.js:24-27 | Rows of other pairs are unchanged and stay in order |
| Subscriptions.ToggleSubscriptionsTwiceFromUnsubscribed | src/controllers/subscription.controller.js:24-47 | Subscribe then unsubscribe restores the collection exactly |
| Subscriptions.ToggleSubscriptionsTwiceFromSubscribed | src/controllers/subscription.controller.js:24-47 | Unsubscribe then subscribe: the same pairs, with the re-created row last |
| Subscriptions.ToggleSubscription | src/controllers/subscription.controller.js:8-48 | 400 for a missing id, then a malformed id, then the caller's own channel, all with the store unchanged. Otherwise the toggle happens with 201 "Unsubscribed successfully" or "Subscribed successfully" |
| Subscriptions.SubscriberIds | src/controllers/user.controller.js:375-400 | `$subscribers.subscriber` has one entry per subscription row of the channel (its `$size`) and holds exactly the channel's subscribers |
| Subscriptions.SubscribeCountsOne | src/controllers/user.controller.js:392-404 | Subscribing raises the subscriber count by one and sets `isSubscribed` |
| Subscriptions.UnsubscribeCountsOne | src/controllers/user.controller.js:392-404 | Unsubscribing lowers the count by one and clears `isSubscribed` |
| Subscriptions.ChannelSubscriberCards | src/controllers/subscription.controller.js:66-104 | One entry per subscription to the channel. A present entry is the card of a user who subscribes |
| Subscriptions.SubscribedChannelCards | src/controllers/subscription.controller.js:140-178 | One entry per subscription of the subscriber. A present entry is the card of a channel they subscribe to |
| Subscriptions.GetUserChannelSubscribers | src/controllers/subscription.controller.js:50-122 | 400 for a missing or malformed id. Otherwise page 1 of 10 of the channel's subscribers (at most 10), each a subscriber's card |
| Subscriptions.GetSubscribedChannels | src/controllers/subscription.controller.js:124-197 | 400 for a missing or malformed id. Otherwise page 1 of 10 of the subscribed channels, each a channel's card |
| Playlists.AddThenRemoveRestores | src/controllers/playlist.controller.js:104-151 | Adding an absent video puts it last; removing it then restores the playlist |
| Playlists.AddTwiceThenRemove | src/controllers/playlist.controller.js:104-151 | Adding twice holds the video twice; one removal takes out every copy |
| Playlists.RemoveTwice | src/controllers/playlist.controller.js:141-151 | Removing is idempotent |
| Playlists.CreatePlaylist | src/controllers/playlist.controller.js:7-36 | 404 without a name, then 404 without a video id; a malformed video id fails the `videos` cast inside `create` (500); all leave the store unchanged. Otherwise a playlist is appended: `videos = [videoId]`, owner the caller, description defaulting to "" |
| Playlists.CheckPlaylistAndVideo | src/controllers/playlist.controller.js:94-102 | The checks pass exactly when both ids are present and valid; a failure is 404 or 400 |
| Playlists.AddVideoToPlaylist | src/controllers/playlist.controller.js:90-125 | After the checks, the video id is appended to that playlist's videos and nothing else changes. 500 when no playlist has the id |
| Playlists.RemoveVideoFromPlaylist | src/controllers/playlist.controller.js:127-166 | After the checks, every copy is pulled and the order is kept; the result no longer holds the video. 500 when no playlist has the id |
| Playlists.DeletePlaylist | src/controllers/playlist.controller.js:168-194 | 404 for a missing id, 400 for a malformed one, 404 for an absent playlist. Otherwise exactly that playlist is removed |
| Playlists.UpdatePlaylist | src/controllers/playlist.controller.js:196-239 | 404 for a missing id, 400 for a malformed one, 404 unless both name and description are given, 400 for an absent playlist. Otherwise only name and description are set |
| Playlists.GetUserPlaylists | src/controllers/playlist.controller.js:38-64 | 404 for a missing id, 400 for a malformed one. Otherwise exactly the user's playlists |
| Playlists.PopulateVideos | src/controllers/playlist.controller.js:78 | Each populated video exists and is referenced. With no dangling reference, none is dropped |
| Playlists.PopulateVideosConcat | src/controllers/playlist.controller.js:78 | Populating a concatenation populates each part |
| Playlists.GetPlaylistById | src/controllers/playlist.controller.js:66-88 | 404 for a missing id, 400 for a malformed one, 404 for an absent playlist. Otherwise the playlist with its videos populated |
| Playlists.AddedVideoReadsBackLast | src/controllers/playlist.controller.js:104-114 | After adding an existing video, reading the playlist back shows its old videos followed by the new one |
| Users.Public | src/controllers/user.controller.js:88-90 | `.select("-password -refreshToken")` drops exactly those two fields |
| Users.MissingUserFields | src/controllers/user.controller.js:71-86 | The schema rejects exactly the absent fullname, email or password |
| Users.CoverImage | src/controllers/user.controller.js:69-85 | A cover image is stored exactly when a file came and its upload succeeded, and then it is that upload |
| Users.Blank | src/controllers/user.controller.js:38-42 | `field?.trim() === ""` holds exactly for a supplied all-white-space field; an absent one passes |
| Users.RegistrationFailure | src/controllers/user.controller.js:38-92 | The failures in source order: 400 for a blank supplied field, 400 "Avatar is required" without an avatar, 409 for a taken email or username as given, a TypeError for a failed upload, 400 for an upload without a URL, a TypeError for an absent username, then the schema's failure naming the missing fields. No failure exactly when all checks pass |
| Users.NewUser | src/controllers/user.controller.js:71-86 | The new user has the username lowered, no refresh token and an empty history |
| Users.RegisterUser | src/controllers/user.controller.js:35-97 | On a failure nothing changes. Otherwise the user is appended and returned without credentials |
| Users.WithRefreshToken | src/controllers/user.controller.js:12-26 | Token generation changes only that user's refresh token |
| Users.LoginFailure | src/controllers/user.controller.js:102-118 | 404 without a username and an email; 403 for no matching user; 403 for a wrong password against the first match |
| Users.LoginAccepts | src/controllers/user.controller.js:106-118 | A username whose first matching user's password matches signs that user in |
| Users.LoginUser | src/controllers/user.controller.js:99-149 | On a failure nothing changes. Otherwise the stored refresh token is the one returned, and both cookies carry the tokens |
| Users.LogoutUser | src/controllers/user.controller.js:151-173 | The caller's stored refresh token is cleared and both cookies are cleared; the reply is `{}` |
| Users.IncomingRefreshToken | src/controllers/user.controller.js:176-177 | `cookie \|\| body`: an object cookie is a non-string, an empty cookie falls through to the body, and no token exactly when neither is truthy |
| Users.RefreshFailure | src/controllers/user.controller.js:179-194 | 401 with no token. A non-string or unverifiable token throws. 401 "Invalid refresh token" when the user the token names is gone. 401 "expired or used" unless it is that user's stored token |
| Users.RefreshedIndex | src/controllers/user.controller.js:186-194 | The rotated user is the one the token names and stores |
| Users.RefreshAccepts | src/controllers/user.controller.js:179-194 | A presented token that verifies to a user and is that user's stored token is accepted, for that user |
| Users.RotatedTokenRefused | src/controllers/user.controller.js:190-194 | Once a user's stored token is rotated to another, presenting the old one gives 401 "expired or used" |
| Users.RotateRefreshToken | src/controllers/user.controller.js:175-198 | On a failure nothing changes; otherwise only that user's stored token becomes the issued one |
| Users.RefreshAccessToken | src/controllers/user.controller.js:175-219 | As written: tokens are returned in the body, and the cookies are set to the options object |
| Users.RefreshAccessTokenCorrected | src/controllers/user.controller.js:200-208 | The same with the new tokens set as cookies |
| Users.RefreshCookieLosesToken | src/controllers/user.controller.js:205-208 | After the as-written reply, the next cookie-based refresh presents an object and is rejected |
| Users.RefreshCookieCarriesToken | src/controllers/user.controller.js:205-208 | After the corrected reply, the cookie presents exactly the new refresh token |
| Users.LoginThenRefresh | src/controllers/user.controller.js:99-219 | A login's token is accepted once and rotated; replaying it gives 401 "Refresh token is expired or used" |
| Users.CookieClientAsWritten | src/controllers/user.controller.js:175-219 | A cookie-only client succeeds once after login, then fails |
| Users.CookieClientCorrected | src/controllers/user.controller.js:175-219 | With the corrected reply, the second cookie refresh succeeds too |
| Users.LogoutRevokes | src/controllers/user.controller.js:153-161 | After logout no refresh token of the caller is accepted |
| Users.ChangeCurrentPassword | src/controllers/user.controller.js:221-244 | 400 when the passwords differ, before any lookup. A missing caller throws. 401 for a wrong current password. Otherwise only the stored credential changes |
| Users.UpdateUserDetails | src/controllers/user.controller.js:246-271 | 400 unless both fields are given, 400 for a missing caller. Otherwise only email and fullname are set, and the user is returned without credentials |
| Users.GetUserChannelProfile | src/controllers/user.controller.js:361-437 | 400 for a blank username, 404 for no user with the lowered name. Otherwise the subscriber count, the subscribed-to count, and `isSubscribed` iff the caller subscribes |
| Users.ProfileSeesSubscriptionToggle | src/controllers/user.controller.js:392-404 | Subscribing sets the viewer's flag and adds one subscriber; toggling again restores both |
| Users.WithOwner | src/controllers/user.controller.js:453-475 | A watched video keeps its fields; its owner array holds cards of that owner only |
| Users.WatchedVideos | src/controllers/user.controller.js:446-478 | Exactly the videos whose id is in the history, each once, in collection order: entry `k` is the `k`-th such video with its owner's card |
| Users.GetWatchHistory | src/controllers/user.controller.js:439-491 | Throws exactly when the caller's record is gone; otherwise the watched videos |
| Ordering.KeyLeTotal | src/controllers/video.controller.js:41-44 | Any two sort keys compare |
| Ordering.KeyLeTransitive | src/controllers/video.controller.js:41-44 | The key order is transitive |
| Ordering.SortBy | src/controllers/video.controller.js:41-44 | A `$sort` stage reorders the documents: the result is a permutation of its input (same length, same multiset) |
| Ordering.SortBySorted | src/controllers/video.controller.js:41-44 | A `$sort` result is ordered by the field in the chosen direction |
| Ordering.SortByMap | src/controllers/video.controller.js:79-82 | Stages that leave the key alone commute with the sort |
| Videos.FieldKey | src/controllers/video.controller.js:41-44 | The value a `$sort` before the owner `$lookup` sees: missing exactly for a path the stored video does not hold (and a null owner). `createdAt` sorts by creation time, `_id` by the id, and `thumbnail.public_id` / `videoFile.public_id` by the media host's id |
| Videos.NewestFirst | src/controllers/video.controller.js:41-44 | `sortBy=createdAt&sortType=desc` lists videos newest first |
| Videos.BuildVideoPipeline | src/controllers/video.controller.js:22-82 | The match carries the search text and the owner only when given. A sort stage comes second exactly when both `sortBy` and `sortType` are given ("desc" descending). Lookup and `$first` come last |
| Videos.Catalogue | src/controllers/video.controller.js:22-77 | Only requested videos of the collection (search in title or description ignoring case, and the owner), each with its owner's card |
| Videos.CatalogueComplete | src/controllers/video.controller.js:22-77 | Every requested video of the collection is listed |
| Videos.FilterMeansRequested | src/controllers/video.controller.js:22-38 | The built match document selects exactly the requested videos |
| Videos.RunUnsortedPipeline | src/controllers/video.controller.js:51-77 | Without a sort, the stages yield the catalogue in collection order |
| Videos.RunSortedPipeline | src/controllers/video.controller.js:51-82 | With the sort spliced at index 1, the stages yield the catalogue sorted by the field |
| Videos.GetAllVideos | src/controllers/video.controller.js:13-98 | 400 for a malformed user id. Otherwise a page of at most `limit` requested videos, sorted when asked and in collection order otherwise |
| Videos.SortedListing | src/controllers/video.controller.js:41-82 | The sorted listing is ordered and holds only requested videos |
| Videos.ErrorPaths | src/models/video.model.js:5-45 | A validation error names exactly the missing paths |
| Videos.UploadFailure | src/controllers/video.controller.js:104-124 | 404 without a title or description, 404 without either file, then the failed thumbnail and video uploads |
| Videos.PublishFailure | src/controllers/video.controller.js:101-143 | A check or upload failure, else the schema's rejection of the new document |
| Videos.BlankTitleFailsValidation | src/controllers/video.controller.js:104-139 | A white-space title passes the handler's check but fails validation |
| Videos.PublishAVideo | src/controllers/video.controller.js:101-148 | On a failure nothing changes. Otherwise the new video is appended: the caller's, trimmed text, 0 views, published, created at the given time |
| Videos.OwnerSummaryOf | src/controllers/video.controller.js:163-215 | The owner's card with the subscriber count and `isSubscribed` iff the viewer subscribes; absent for an unknown owner |
| Videos.GetVideoById | src/controllers/video.controller.js:151-225 | 400 without an id; a malformed id fails the cast. Otherwise the video with that id, if any, with its owner summary |
| Videos.DetailSeesSubscriptionToggle | src/controllers/video.controller.js:163-215 | Subscribing to the owner sets the flag and raises the count by one; toggling again restores both |
| Videos.UpdateVideoFailure | src/controllers/video.controller.js:234-280 | In order: 400 without any thumbnail, 400 for a blank id, 400 without title or description, then the cast, the missing video and the upload |
| Videos.UpdateVideo | src/controllers/video.controller.js:228-297 | On a failure nothing changes. Otherwise only title, description (trimmed) and thumbnail are set; a failed removal of the old thumbnail answers 500 after the update |
| Videos.DeleteVideo | src/controllers/video.controller.js:300-325 | A malformed id fails the cast; 500 for an absent video. Otherwise exactly that video is removed, and a failed media removal answers 500 after the deletion |
| Videos.FlipPublishedTwice | src/controllers/video.controller.js:337-349 | Two toggles restore the collection; a toggle changes only the one video's flag |
| Videos.TogglePublishStatus | src/controllers/video.controller.js:328-364 | A malformed id fails the cast; 404 for an absent video. Otherwise only that video's `isPublished` is negated |
| Comments.VideoComments | src/controllers/comment.controller.js:21-51 | Exactly the comments on the video, in collection order: entry `k` is the video's `k`-th comment with its author's card |
| Comments.GetVideoComments | src/controllers/comment.controller.js:7-71 | 400 for a missing or malformed id. Otherwise a page of at most `limit` comments on the video |
| Comments.ContentChecksDiffer | src/controllers/comment.controller.js:83-113 | The update check refuses everything the add check refuses, plus exactly non-empty white-space content |
| Comments.AddComment | src/controllers/comment.controller.js:73-100 | 400 for a bad video id, 404 for missing content. Otherwise a comment by the caller on that video is appended with the given content |
| Comments.AddedCommentListedLast | src/controllers/comment.controller.js:21-51 | A new comment is listed last for its video; other listings are unchanged |
| Comments.UpdateComment | src/controllers/comment.controller.js:102-136 | 400 for a bad id, 400 for blank content, 500 for an absent comment. Otherwise only the content changes |
| Comments.DeleteComment | src/controllers/comment.controller.js:138-155 | 400 for a bad id, 500 for an absent comment. Otherwise exactly that comment is removed |
| Comments.DeletedCommentNotListed | src/controllers/comment.controller.js:21-51 | A deleted comment is in no video's listing |
| Tweets.CreateTweet | src/controllers/tweet.controller.js:7-29 | 400 for blank content. Otherwise a tweet by the caller with the given content is appended |
| Tweets.UserTweets | src/controllers/tweet.controller.js:42-70 | Exactly the user's tweets, in collection order: entry `k` is the user's `k`-th tweet with the owner array |
| Tweets.GetUserTweets | src/controllers/tweet.controller.js:31-91 | 400 for a missing or malformed id. Otherwise page 1 of 10 of the user's tweets |
| Tweets.CreatedTweetListedLast | src/controllers/tweet.controller.js:42-70 | A new tweet is listed last for its author; other listings are unchanged |
| Tweets.UpdateTweet | src/controllers/tweet.controller.js:93-137 | 400s for the user id and missing content; 404 when the user owns no tweet. Otherwise only the content of the user's first tweet changes |
| Tweets.EditedTweetListedFirst | src/controllers/tweet.controller.js:111-125 | The edited tweet is the first in that user's listing, and it shows the new content |
| Tweets.DeleteTweet | src/controllers/tweet.controller.js:139-160 | 400 for a missing or malformed id, 404 for an absent tweet. Otherwise exactly that tweet is removed |
| Dashboard.ChannelVideoIds | src/controllers/dashboard.controller.js:40-58 | Exactly the `_id`s of the caller's videos |
| Dashboard.Group | src/controllers/dashboard.controller.js:11-38 | A `$group` yields a value exactly when some document matched |
| Dashboard.OrZero | src/controllers/dashboard.controller.js:79-81 | `\|\| 0`: a missing group reads as 0 |
| Dashboard.GetChannelStats | src/controllers/dashboard.controller.js:9-86 | Always 200. Views summed over the caller's videos, the channel's subscriber count, and the likes on the caller's videos, each 0 when nothing matched |
| Dashboard.ChannelVideoRows | src/controllers/dashboard.controller.js:94-118 | Exactly the caller's videos, in collection order: entry `k` is the caller's `k`-th video with the number of likes naming it |
| Dashboard.GetChannelVideos | src/controllers/dashboard.controller.js:88-135 | Always 200, with page 1 of 10 of those rows |
| Dashboard.LikesOfDistinctVideos | src/controllers/dashboard.controller.js:40-118 | Over distinct videos, per-video like counts add up to the likes on any of them |
| Dashboard.ChannelLikesAddUp | src/controllers/dashboard.controller.js:40-118 | The per-video like counts add up to `totalLikes` |
| Dashboard.StatsFollowVideoLike | src/controllers/dashboard.controller.js:40-68 | A like toggle on an owned video moves `totalLikes` by exactly one; on another video it changes nothing |
| Dashboard.StatsAfterNewVideo | src/controllers/dashboard.controller.js:9-86 | A new video adds its views and the likes already naming it to its owner's stats; nobody else's change |
| Dashboard.StatsIgnorePublishFlag | src/controllers/dashboard.controller.js:9-86 | A publish toggle changes no statistic |
| Dashboard.StatsFollowSubscription | src/controllers/dashboard.controller.js:26-38 | A subscription adds one subscriber; toggling it again restores every statistic |
| PublicId.RegexMatchUnique | src/utils/index.js:3 | The leftmost-longest match is unique |
| PublicId.CaptureAt | src/utils/index.js:3 | At one start, the greedy group ends at the last `.jpg` before the next `/`, or there is no match |
| PublicId.SearchFrom | src/utils/index.js:5 | The first start at or after `i` that matches, with no match before it |
| PublicId.ExtractPublicIdFromUrl | src/utils/index.js:1-8 | null exactly when the pattern matches nowhere. Otherwise the group of the leftmost, greedy match |
| PublicId.ExtractedIdShape | src/utils/index.js:3-5 | A result is non-empty and has no `/`. `upload/` + result + `.jpg` occurs at the leftmost matching start |
| PublicId.GreedyGroup | src/utils/index.js:3 | `upload/a.jpg.jpg` gives `a.jpg` |
| PublicId.VersionedUrlYieldsNull | src/utils/index.js:3-7 | `upload/v1/a.jpg` gives null: the group cannot cross `/` |

## Left out

- Media host (src/utils/cloudinary.js) is not part of this model. Uploads and deletions are outcomes given as parameters, and removing the local file is left out. src/utils/cloudinary.js does not export the `deleteVideoFromCloudinary` that video.controller.js imports, and it imports `./ApiError` without an extension. Module loading is not modelled, so `Videos.DeleteVideo` models the intended call.
- Authentication middleware, JWT signing and verification, and bcrypt are left out. The caller's `_id` is an input, `jwt.verify` and the password check are uninterpreted functions, and issued tokens are parameters. Token expiry is part of `jwt.verify`.
- `asyncHandler` and the `.then/.catch` around `aggregatePaginate` are left out. An error thrown inside `.catch` never reaches Express, and the listings are modelled as succeeding.
- `Primitives.Page`: paginate metadata (totals, page counts) is not modelled; only the page's rows are. `page` and `limit` are taken as positive integers, not as the `parseInt` of query strings.
- `Videos.Catalogue`: the `$regex` search is modelled as a case-insensitive substring test, valid for queries without regex metacharacters. Case folding covers ASCII letters only (`Text.ToLower`).
- `Videos.GetAllVideos`: `splice` on the Aggregate object is modelled as inserting the sort stage at index 1, as intended. Whether it works at run time is not modelled.
- `Ordering.SortBySorted`: ties keep insertion order. MongoDB's cross-type order is simplified to missing < numbers < strings < booleans; within one field every stored video has the same type, so only a missing value meets another type. `createdAt` is compared as a number of milliseconds.
- Videos.GetAllVideos: sorting on `updatedAt` or on a whole media sub-document (`thumbnail`, `videoFile`) is not modelled. `Videos.FieldKey` reads those as missing, so such a request lists in collection order, while the store would order by the update time or by the sub-document. `updatedAt` is not stored in the model because every update would change it. Ids sort as their lower-case hex spelling (see the line on ids below).
- `Dashboard.GetChannelStats`: the `$or: []` of a user without videos (dashboard.controller.js:59) is modelled as matching no like. The 500 branch at lines 71-73 tests arrays, which are always truthy, so it is unreachable and not modelled.
- The "not created" 500 branches after `create` (like.controller.js:32-34, subscription.controller.js:40-42, playlist.controller.js:29-31, video.controller.js:141-143) are unreachable, since `create` resolves to the document or throws. The `!playlists` and `!likedVideos` checks after `find` are unreachable for the same reason.
- Toggle concurrency is left out: the two steps `findOneAndDelete` then `create` run one request at a time. Neither atomicity nor ownership checks are added, since the code has neither.
- Deleting a video, comment, tweet or user does not cascade to likes, comments or playlists (the code does not), and nothing here models cascades.
- `getCurrentUser`, `changeUserAvatar` and `changeUserCoverImage` (user.controller.js:273-359) are not part of this model: they echo the principal or replace a media reference through the media host.
- The comment, tweet, like, subscription, playlist and user Mongoose models are not part of this model beyond the fields the controllers use. Timestamps and indexes are left out.
- The `statusCode` inside the `ApiResponse` body is not modelled: `Ok`'s code is the HTTP status line. The two differ for registration (HTTP 201, body 200) and `getUserChannelProfile` (HTTP 200, body 220).
- Users.LogoutUser: `$set: { refreshToken: undefined }` (user.controller.js:156) is modelled as clearing the stored token, which is what Mongoose 5 does (undefined becomes null). Mongoose 6 and later strip undefined keys from an update, so the token would survive logout and `Users.LogoutRevokes` would not hold. The Mongoose version is not fixed by the repository's sources.
- Videos.UpdateVideo: the `thumbnail` in the request body is taken as a well-formed `{url, public_id}` object or absent. A string there (an empty one, which `!thumbnail` treats as missing, or one that fails the `$set` cast) is not modelled.
- Ids are taken in canonical lower-case hex form. The store compares cast ObjectIds, but the self-subscription guard (subscription.controller.js:20) compares strings, so a `channelId` spelling the caller's own id in upper case would pass the guard and store a self-subscription. The model compares ids as plain values and cannot express that case.
- VideoModel.NewVideo: `duration` is a whole number (`int`). The media host reports a fractional number of seconds, which the schema stores as a Number and `sortBy=duration` sorts by; fractions are not modelled.
- Routes, src/app.js and src/index.js (Express wiring, CORS, environment, database connection) are left out.

## Findings

| source | as written | input that shows it | evidently intended | confidence | as-written member | corrected member |
|---|---|---|---|---|---|---|
| src/controllers/user.controller.js:205-208 | `res.cookie("accessToken", options)` and `res.cookie("refreshToken", options)` set the cookie values to the options object; the new tokens are never set as cookies | a client logs in, refreshes once through its cookie, then refreshes again through the cookie: the second request presents an object, which `jwt.verify` rejects | `res.cookie("accessToken", accessToken, options)` and `res.cookie("refreshToken", refreshToken, options)`, as `loginUser` does at lines 136-137 | high, not executed | Users.RefreshAccessToken, Users.RefreshCookieLosesToken, Users.CookieClientAsWritten | Users.RefreshAccessTokenCorrected, Users.RefreshCookieCarriesToken, Users.CookieClientCorrected |
