/** `TweetsService` (services/tweets_service/service.py): creating and
    deleting tweets, liking and unliking, and the cached feed. A call that
    raises rolls the session back, so it changes no table. */
module Tweets {
  import opened Outcomes
  import opened Text
  import opened Db
  import opened S3

  /** The feed's cache ttl in seconds. */
  const FeedTtl := 180

  function NoTweetOfUserMessage(tweetId: int): string
  {
    "This user doesn't have a tweet wits id: " + IntToString(tweetId)
  }

  function TweetNotFoundMessage(tweetId: int): string
  {
    "Tweet wits id: " + IntToString(tweetId) + " not found"
  }

  /** `None += 1` and `None -= 1` */
  function NoneOperandMessage(op: string): string
  {
    "unsupported operand type(s) for " + op + ": 'NoneType' and 'int'"
  }

  /** The media ids `create_tweet` binds: none for None or an empty list. */
  function ListedMedia(mediaIds: Option<seq<int>>): seq<int>
  {
    if mediaIds.Some? then mediaIds.value else []
  }

  /** The `medias` insert succeeds iff every id names a picture and no id is listed twice. */
  predicate MediaInsertable(ids: seq<int>, pictures: map<int, string>)
  {
    (forall i :: 0 <= i < |ids| ==> ids[i] in pictures) &&
    (forall i, j :: 0 <= i < j < |ids| ==> ids[i] != ids[j])
  }

  class TweetsService {
    const db: Database
    const cache: Cache
    const store: Store
    /** `settings.REDIS_TWEETS_CACHE` */
    const feedKey: string

    constructor(db: Database, cache: Cache, store: Store, feedKey: string)
      ensures this.db == db && this.cache == cache && this.store == store && this.feedKey == feedKey
    {
      this.db := db;
      this.cache := cache;
      this.store := store;
      this.feedKey := feedKey;
    }

    /** `create_tweet`: the tweet gets the id the flush assigns (`freshId`),
        one `medias` row per listed picture, and a zero like count. A listed id
        that names no picture, or is listed twice, violates a key and the whole
        call is rolled back. */
    method CreateTweet(content: string, mediaIds: Option<seq<int>>, user: int, freshId: int)
      returns (r: Response<int>)
      requires db.Valid() && user in db.users && freshId !in db.tweets
      modifies db, cache
      ensures db.Valid()
      ensures var ids := ListedMedia(mediaIds);
        if MediaInsertable(ids, old(db.pictures)) then
          r == Ok(freshId) &&
          db.tweets == old(db.tweets)[freshId := TweetRow(content, mediaIds, user, Some(0))] &&
          db.media == old(db.media) + MediaRows(freshId, ids) &&
          cache.entries == old(cache.entries) - {feedKey}
        else
          r == HandleExceptions(Raised(Exception(IntegrityError, IntegrityMessage))) &&
          db.tweets == old(db.tweets) && db.media == old(db.media) && cache.entries == old(cache.entries)
      ensures db.users == old(db.users) && db.pictures == old(db.pictures)
      ensures db.likes == old(db.likes) && db.subscriptions == old(db.subscriptions)
    {
      var ids := ListedMedia(mediaIds);
      if !MediaInsertable(ids, db.pictures) {
        return HandleExceptions(Raised(Exception(IntegrityError, IntegrityMessage)));
      }
      var rows := MediaRows(freshId, ids);
      assert forall i :: 0 <= i < |db.media| ==> db.media[i] !in rows;
      ghost var oldMedia := db.media;
      db.tweets := db.tweets[freshId := TweetRow(content, mediaIds, user, Some(0))];
      db.media := db.media + rows;
      assert DistinctRows(db.media) by {
        forall i, j | 0 <= i < j < |db.media| ensures db.media[i] != db.media[j] {
          if j < |oldMedia| {
            assert db.media[i] == oldMedia[i] && db.media[j] == oldMedia[j];
          } else if i >= |oldMedia| {
            assert db.media[i] == rows[i - |oldMedia|] && db.media[j] == rows[j - |oldMedia|];
          } else {
            assert db.media[i] == oldMedia[i] && db.media[j] == rows[j - |oldMedia|];
          }
        }
      }
      cache.Delete(feedKey);
      return Ok(freshId);
    }

    /** `delete_tweet`: only the author's own tweet is found. Its pictures
        are deleted from the store first, only when it has any (the wrapped
        delete swallows a store failure, `storeFault`); then the tweet, its
        likes and its `medias` rows go; the pictures stay. */
    method DeleteTweet(tweetId: int, user: int, storeFault: Option<(nat, Exception)>) returns (r: Response<()>)
      requires db.Valid()
      modifies db, cache, store
      ensures db.Valid()
      ensures !(tweetId in old(db.tweets) && old(db.tweets)[tweetId].author == user) ==>
        r == Fail("Data error", NoTweetOfUserMessage(tweetId)) &&
        db.tweets == old(db.tweets) && db.likes == old(db.likes) && db.media == old(db.media) &&
        cache.entries == old(cache.entries) && store.objects == old(store.objects)
      ensures tweetId in old(db.tweets) && old(db.tweets)[tweetId].author == user ==>
        r == Ok(()) &&
        db.tweets == old(db.tweets) - {tweetId} &&
        db.likes == (set l | l in old(db.likes) && l.1 != tweetId) &&
        db.media == WithoutTweet(old(db.media), tweetId) &&
        cache.entries == old(cache.entries) - {feedKey}
      ensures var links := Attachments(old(db.media), old(db.pictures), tweetId);
        tweetId in old(db.tweets) && old(db.tweets)[tweetId].author == user && |links| > 0 ==>
        var deleted := if storeFault.Some? && storeFault.value.0 < |links| then storeFault.value.0 else |links|;
        store.objects == old(store.objects) - DeletedKeys(store.mediaFolder, links[..deleted])
      ensures |Attachments(old(db.media), old(db.pictures), tweetId)| == 0 ==> store.objects == old(store.objects)
      ensures db.users == old(db.users) && db.pictures == old(db.pictures) && db.subscriptions == old(db.subscriptions)
      ensures store.lifecycle == old(store.lifecycle)
    {
      if !(tweetId in db.tweets && db.tweets[tweetId].author == user) {
        return Fail("Data error", NoTweetOfUserMessage(tweetId));
      }
      var links := Attachments(db.media, db.pictures, tweetId);
      if |links| > 0 {
        var _ := store.DeleteFile(links, storeFault);
      }
      db.RemoveTweet(tweetId);
      cache.Delete(feedKey);
      return Ok(());
    }

    /** `add_like`: the conditional on the right of `+=` yields 1 either way,
        so a null count raises TypeError before the like is added; a repeated
        like violates the `likes` key at commit. Either way nothing changes. */
    method AddLike(tweetId: int, user: int) returns (r: Response<()>)
      requires db.Valid() && user in db.users
      modifies db, cache
      ensures db.Valid()
      ensures tweetId !in old(db.tweets) ==>
        r == Fail("Tweet error", TweetNotFoundMessage(tweetId)) && db.likes == old(db.likes) && db.tweets == old(db.tweets)
      ensures tweetId in old(db.tweets) && old(db.tweets)[tweetId].likesCount.None? ==>
        r == HandleExceptions(Raised(Exception(TypeError, NoneOperandMessage("+=")))) && db.likes == old(db.likes) && db.tweets == old(db.tweets)
      ensures tweetId in old(db.tweets) && old(db.tweets)[tweetId].likesCount.Some? && (user, tweetId) in old(db.likes) ==>
        r == HandleExceptions(Raised(Exception(IntegrityError, IntegrityMessage))) && db.likes == old(db.likes) && db.tweets == old(db.tweets)
      ensures tweetId in old(db.tweets) && old(db.tweets)[tweetId].likesCount.Some? && (user, tweetId) !in old(db.likes) ==>
        r == Ok(()) && db.likes == old(db.likes) + {(user, tweetId)} &&
        db.tweets == old(db.tweets)[tweetId := old(db.tweets)[tweetId].(likesCount := Some(old(db.tweets)[tweetId].likesCount.value + 1))]
      ensures !r.Ok? ==> cache.entries == old(cache.entries)
      ensures r.Ok? ==> cache.entries == old(cache.entries) - {feedKey}
      ensures db.users == old(db.users) && db.pictures == old(db.pictures) && db.media == old(db.media)
      ensures db.subscriptions == old(db.subscriptions)
    {
      if tweetId !in db.tweets {
        return Fail("Tweet error", TweetNotFoundMessage(tweetId));
      }
      var row := db.tweets[tweetId];
      if row.likesCount.None? {
        return HandleExceptions(Raised(Exception(TypeError, NoneOperandMessage("+="))));
      }
      if (user, tweetId) in db.likes {
        return HandleExceptions(Raised(Exception(IntegrityError, IntegrityMessage)));
      }
      db.tweets := db.tweets[tweetId := row.(likesCount := Some(row.likesCount.value + 1))];
      db.likes := db.likes + {(user, tweetId)};
      cache.Delete(feedKey);
      return Ok(());
    }

    /** `delete_like`: succeeds iff a like row was removed, and then the count
        drops by one; a null count raises TypeError and the removal is rolled back. */
    method DeleteLike(tweetId: int, user: int) returns (r: Response<()>)
      requires db.Valid()
      modifies db, cache
      ensures db.Valid()
      ensures (user, tweetId) !in old(db.likes) ==>
        r == Fail("Like error", "This user has not liked this tweet") &&
        db.likes == old(db.likes) && db.tweets == old(db.tweets) && cache.entries == old(cache.entries)
      ensures (user, tweetId) in old(db.likes) && old(db.tweets)[tweetId].likesCount.None? ==>
        r == HandleExceptions(Raised(Exception(TypeError, NoneOperandMessage("-=")))) &&
        db.likes == old(db.likes) && db.tweets == old(db.tweets) && cache.entries == old(cache.entries)
      ensures (user, tweetId) in old(db.likes) && old(db.tweets)[tweetId].likesCount.Some? ==>
        r == Ok(()) && db.likes == old(db.likes) - {(user, tweetId)} &&
        db.tweets == old(db.tweets)[tweetId := old(db.tweets)[tweetId].(likesCount := Some(old(db.tweets)[tweetId].likesCount.value - 1))] &&
        cache.entries == old(cache.entries) - {feedKey}
      ensures db.users == old(db.users) && db.pictures == old(db.pictures) && db.media == old(db.media)
      ensures db.subscriptions == old(db.subscriptions)
    {
      if (user, tweetId) !in db.likes {
        return Fail("Like error", "This user has not liked this tweet");
      }
      var row := db.tweets[tweetId];
      if row.likesCount.None? {
        return HandleExceptions(Raised(Exception(TypeError, NoneOperandMessage("-="))));
      }
      db.likes := db.likes - {(user, tweetId)};
      db.tweets := db.tweets[tweetId := row.(likesCount := Some(row.likesCount.value - 1))];
      cache.Delete(feedKey);
      return Ok(());
    }

    /** `get_tweets`: a cached value is returned as it is; otherwise the
        tweets in the query's order (`order`, newest id first) become views,
        appended one by one, and the feed is cached for 180 seconds. */
    method GetTweets(order: seq<int>) returns (r: Response<CachedValue>)
      requires db.Valid()
      requires forall i :: 0 <= i < |order| ==> order[i] in db.tweets
      requires forall t :: t in db.tweets ==> t in order
      requires forall i, j :: 0 <= i < j < |order| ==> order[i] > order[j]
      modifies cache
      ensures feedKey in old(cache.entries) ==> r == Ok(old(cache.entries)[feedKey].value) && cache.entries == old(cache.entries)
      ensures feedKey !in old(cache.entries) ==>
        r == Ok(Feed(db.FeedViews(order))) &&
        cache.entries == old(cache.entries)[feedKey := CacheEntry(Feed(db.FeedViews(order)), FeedTtl)]
    {
      var cached := cache.Get(feedKey);
      if cached.Some? {
        return Ok(cached.value);
      }
      var views: seq<TweetView> := [];
      var i := 0;
      while i < |order|
        invariant 0 <= i <= |order|
        invariant views == db.FeedViews(order[..i])
      {
        assert order[..i + 1][..i] == order[..i];
        views := views + [db.View(order[i])];
        i := i + 1;
      }
      assert order[..|order|] == order;
      cache.Set(feedKey, Feed(views), FeedTtl);
      return Ok(Feed(views));
    }
  }

  /** The feed a miss caches lists every tweet once, newest first, each with
      its own content, author, likes and attachments. */
  lemma {:induction false} FeedIsNewestFirst(db: Database, order: seq<int>)
    requires db.Valid()
    requires forall i :: 0 <= i < |order| ==> order[i] in db.tweets
    requires forall t :: t in db.tweets ==> t in order
    requires forall i, j :: 0 <= i < j < |order| ==> order[i] > order[j]
    ensures var feed := db.FeedViews(order);
      (forall i, j :: 0 <= i < j < |feed| ==> feed[i].id > feed[j].id) &&
      (forall t :: t in db.tweets <==> exists i :: 0 <= i < |feed| && feed[i].id == t) &&
      (forall i :: 0 <= i < |feed| ==> feed[i] == db.View(feed[i].id))
  {
    var feed := db.FeedViews(order);
    forall i | 0 <= i < |feed|
      ensures feed[i].id == order[i] && feed[i].id in db.tweets && feed[i] == db.View(feed[i].id)
    {
    }
    forall t | t in db.tweets
      ensures exists i :: 0 <= i < |feed| && feed[i].id == t
    {
      var i :| 0 <= i < |order| && order[i] == t;
      assert feed[i].id == t;
    }
  }
}
