/** The relations behind the ORM models (services/database/models.py) and
    the key-value cache (services/redis/redis_service.py), as the services
    see them: tables are maps keyed by primary key, association tables are
    sets of key pairs, and a cache entry is the decoded value with its ttl. */
module Db {
  import opened Outcomes

  /** The `str(e)` of a database constraint violation; its driver-specific
      text is not modelled. */
  const IntegrityMessage := "duplicate key or foreign key violation"

  datatype UserRow = UserRow(apiKey: string, name: string)

  /** The `users.api_key` column is unique. */
  predicate UniqueApiKeys(users: map<int, UserRow>)
  {
    forall u, v :: u in users && v in users && users[u].apiKey == users[v].apiKey ==> u == v
  }

  /** A tweet: `likesCount` is nullable in the schema (default 0). */
  datatype TweetRow = TweetRow(content: string, mediaIds: Option<seq<int>>, author: int, likesCount: Option<int>)

  /** `UserSchema`: how a user appears inside a response. */
  datatype UserView = UserView(id: int, name: string)

  /** `AllTweetsSchema` */
  datatype TweetView = TweetView(id: int, content: string, attachments: seq<string>, author: UserView, likes: set<UserView>)

  /** `UserDataSchema` */
  datatype ProfileView = ProfileView(id: int, name: string, followers: set<UserView>, following: set<UserView>)

  /** What a cache entry decodes to: `ReadyAllData` or `ResponseUserDataSchema`. */
  datatype CachedValue = Feed(tweets: seq<TweetView>) | Profile(user: ProfileView)

  /** The links of the pictures attached to a tweet, in the order of the
      `medias` rows. */
  function Attachments(media: seq<(int, int)>, pictures: map<int, string>, tweet: int): (links: seq<string>)
    ensures |links| <= |media|
    ensures forall i :: 0 <= i < |links| ==> links[i] in pictures.Values
    decreases |media|
  {
    if |media| == 0 then []
    else
      var row := media[|media| - 1];
      Attachments(media[..|media| - 1], pictures, tweet) +
        (if row.0 == tweet && row.1 in pictures then [pictures[row.1]] else [])
  }

  /** A link is an attachment iff some `medias` row binds one of the tweet's
      pictures with that link. */
  lemma {:induction false} AttachmentsExactly(media: seq<(int, int)>, pictures: map<int, string>, tweet: int, link: string)
    ensures link in Attachments(media, pictures, tweet) <==>
      exists i :: 0 <= i < |media| && media[i].0 == tweet && media[i].1 in pictures && pictures[media[i].1] == link
    decreases |media|
  {
    if |media| > 0 {
      var init := media[..|media| - 1];
      AttachmentsExactly(init, pictures, tweet, link);
      if link in Attachments(init, pictures, tweet) {
        var i :| 0 <= i < |init| && init[i].0 == tweet && init[i].1 in pictures && pictures[init[i].1] == link;
        assert media[i] == init[i];
      }
      if exists i :: 0 <= i < |media| && media[i].0 == tweet && media[i].1 in pictures && pictures[media[i].1] == link {
        var i :| 0 <= i < |media| && media[i].0 == tweet && media[i].1 in pictures && pictures[media[i].1] == link;
        if i < |media| - 1 {
          assert init[i] == media[i];
        }
      }
    }
  }

  /** The rows `create_tweet` inserts: one per listed picture, all bound to the new tweet. */
  function MediaRows(tweet: int, pictureIds: seq<int>): (rows: seq<(int, int)>)
    ensures |rows| == |pictureIds|
    ensures forall i :: 0 <= i < |rows| ==> rows[i] == (tweet, pictureIds[i])
  {
    seq(|pictureIds|, i requires 0 <= i < |pictureIds| => (tweet, pictureIds[i]))
  }

  /** Rows for other tweets do not contribute attachments. */
  lemma {:induction false} AttachmentsOfOthers(media: seq<(int, int)>, pictures: map<int, string>, tweet: int)
    requires forall i :: 0 <= i < |media| ==> media[i].0 != tweet
    ensures Attachments(media, pictures, tweet) == []
    decreases |media|
  {
    if |media| > 0 {
      AttachmentsOfOthers(media[..|media| - 1], pictures, tweet);
    }
  }

  lemma {:induction false} AttachmentsAppend(a: seq<(int, int)>, b: seq<(int, int)>, pictures: map<int, string>, tweet: int)
    ensures Attachments(a + b, pictures, tweet) == Attachments(a, pictures, tweet) + Attachments(b, pictures, tweet)
    decreases |b|
  {
    if |b| == 0 {
      assert a + b == a;
    } else {
      AttachmentsAppend(a, b[..|b| - 1], pictures, tweet);
      assert (a + b)[..|a + b| - 1] == a + b[..|b| - 1];
    }
  }

  /** The rows of a fresh tweet give its attachments in the order of the ids. */
  lemma {:induction false} AttachmentsOfMediaRows(tweet: int, ids: seq<int>, pictures: map<int, string>)
    requires forall i :: 0 <= i < |ids| ==> ids[i] in pictures
    ensures Attachments(MediaRows(tweet, ids), pictures, tweet) == seq(|ids|, i requires 0 <= i < |ids| => pictures[ids[i]])
    decreases |ids|
  {
    if |ids| > 0 {
      var init := ids[..|ids| - 1];
      AttachmentsOfMediaRows(tweet, init, pictures);
      assert MediaRows(tweet, ids)[..|ids| - 1] == MediaRows(tweet, init);
    }
  }

  /** A freshly created tweet's attachments are the links of its picture
      ids, in the order given. */
  lemma FreshTweetAttachments(media: seq<(int, int)>, pictures: map<int, string>, tweet: int, ids: seq<int>)
    requires forall i :: 0 <= i < |media| ==> media[i].0 != tweet
    requires forall i :: 0 <= i < |ids| ==> ids[i] in pictures
    ensures Attachments(media + MediaRows(tweet, ids), pictures, tweet) ==
      seq(|ids|, i requires 0 <= i < |ids| => pictures[ids[i]])
  {
    AttachmentsAppend(media, MediaRows(tweet, ids), pictures, tweet);
    AttachmentsOfOthers(media, pictures, tweet);
    AttachmentsOfMediaRows(tweet, ids, pictures);
  }

  /** The `medias` rows that remain when a tweet is deleted. */
  function WithoutTweet(media: seq<(int, int)>, tweet: int): (rest: seq<(int, int)>)
    ensures forall i :: 0 <= i < |rest| ==> rest[i].0 != tweet && rest[i] in media
    ensures forall i :: 0 <= i < |media| && media[i].0 != tweet ==> media[i] in rest
    decreases |media|
  {
    if |media| == 0 then []
    else
      var row := media[|media| - 1];
      var init := WithoutTweet(media[..|media| - 1], tweet);
      assert forall r :: r in media[..|media| - 1] ==> r in media;
      init + (if row.0 != tweet then [row] else [])
  }

  predicate DistinctRows(rows: seq<(int, int)>)
  {
    forall i, j :: 0 <= i < j < |rows| ==> rows[i] != rows[j]
  }

  lemma {:induction false} WithoutTweetDistinct(media: seq<(int, int)>, tweet: int)
    requires DistinctRows(media)
    ensures DistinctRows(WithoutTweet(media, tweet))
    decreases |media|
  {
    if |media| > 0 {
      var init := media[..|media| - 1];
      assert DistinctRows(init);
      WithoutTweetDistinct(init, tweet);
      var row := media[|media| - 1];
      assert row !in init;
    }
  }

  /** The tables of the application's database. */
  class Database {
    var users: map<int, UserRow>
    var tweets: map<int, TweetRow>
    /** `pictures`: id to link */
    var pictures: map<int, string>
    /** `likes`: (user_id, tweet_id) */
    var likes: set<(int, int)>
    /** `medias`: (tweet_id, picture_id), in insertion order */
    var media: seq<(int, int)>
    /** `subscriptions`: (subscriber_id, subscribed_to_id) */
    var subscriptions: set<(int, int)>

    /** Foreign keys hold, primary keys are unique, and so are api keys. */
    ghost predicate Valid()
      reads this
    {
      (forall t :: t in tweets ==> tweets[t].author in users) &&
      (forall l :: l in likes ==> l.0 in users && l.1 in tweets) &&
      (forall i :: 0 <= i < |media| ==> media[i].0 in tweets && media[i].1 in pictures) &&
      DistinctRows(media) &&
      (forall s :: s in subscriptions ==> s.0 in users && s.1 in users) &&
      UniqueApiKeys(users)
    }

    constructor(users: map<int, UserRow>)
      requires UniqueApiKeys(users)
      ensures this.users == users && tweets == map[] && pictures == map[]
      ensures likes == {} && media == [] && subscriptions == {}
      ensures Valid()
    {
      this.users := users;
      tweets := map[];
      pictures := map[];
      likes := {};
      media := [];
      subscriptions := {};
    }

    /** `session.delete(tweet)`: its likes and `medias` rows go with it; the
        pictures stay. */
    method RemoveTweet(id: int)
      requires Valid()
      modifies this
      ensures Valid()
      ensures tweets == old(tweets) - {id}
      ensures likes == (set l | l in old(likes) && l.1 != id)
      ensures media == WithoutTweet(old(media), id)
      ensures users == old(users) && pictures == old(pictures) && subscriptions == old(subscriptions)
    {
      WithoutTweetDistinct(media, id);
      tweets := tweets - {id};
      likes := set l | l in likes && l.1 != id;
      media := WithoutTweet(media, id);
    }

    function UserViewOf(id: int): UserView
      requires id in users
      reads this
    {
      UserView(id, users[id].name)
    }

    /** The users who liked a tweet. */
    function Likers(tweet: int): (r: set<UserView>)
      requires Valid()
      reads this
      ensures forall v :: v in r <==> (v.id, tweet) in likes && v == UserViewOf(v.id)
    {
      set l | l in likes && l.1 == tweet :: UserViewOf(l.0)
    }

    /** `AllTweetsSchema` of one tweet with its author, likes and attachments loaded. */
    function View(id: int): (v: TweetView)
      requires Valid() && id in tweets
      reads this
      ensures v.id == id && v.content == tweets[id].content
      ensures v.author == UserViewOf(tweets[id].author)
      ensures v.attachments == Attachments(media, pictures, id)
      ensures v.likes == Likers(id)
    {
      TweetView(id, tweets[id].content, Attachments(media, pictures, id), UserViewOf(tweets[id].author), Likers(id))
    }

    /** The views of the tweets in the order given. */
    function FeedViews(order: seq<int>): (r: seq<TweetView>)
      requires Valid() && forall i :: 0 <= i < |order| ==> order[i] in tweets
      reads this
      ensures |r| == |order|
      ensures forall i :: 0 <= i < |order| ==> r[i] == View(order[i])
      decreases |order|
    {
      if |order| == 0 then [] else FeedViews(order[..|order| - 1]) + [View(order[|order| - 1])]
    }

    /** `UserDataSchema` of one user with followers and following loaded. */
    function ProfileOf(id: int): (p: ProfileView)
      requires Valid() && id in users
      reads this
      ensures p.id == id && p.name == users[id].name
      ensures forall v :: v in p.followers <==> (v.id, id) in subscriptions && v == UserViewOf(v.id)
      ensures forall v :: v in p.following <==> (id, v.id) in subscriptions && v == UserViewOf(v.id)
    {
      ProfileView(id, users[id].name,
        set s | s in subscriptions && s.1 == id :: UserViewOf(s.0),
        set s | s in subscriptions && s.0 == id :: UserViewOf(s.1))
    }
  }

  /** One cache entry: the decoded value and the ttl it was set with. */
  datatype CacheEntry = CacheEntry(value: CachedValue, ttl: int)

  /** The Redis cache as a map from key to entry. */
  class Cache {
    var entries: map<string, CacheEntry>

    constructor()
      ensures entries == map[]
    {
      entries := map[];
    }

    /** `redis.get(key)`, decoded. */
    method Get(key: string) returns (r: Option<CachedValue>)
      ensures r.Some? <==> key in entries
      ensures r.Some? ==> r.value == entries[key].value
    {
      if key in entries {
        return Some(entries[key].value);
      }
      return None;
    }

    /** `redis.set(key, value, ttl)` */
    method Set(key: string, value: CachedValue, ttl: int)
      modifies this
      ensures entries == old(entries)[key := CacheEntry(value, ttl)]
    {
      entries := entries[key := CacheEntry(value, ttl)];
    }

    /** `redis.delete(key)` */
    method Delete(key: string)
      modifies this
      ensures entries == old(entries) - {key}
    {
      entries := entries - {key};
    }
  }
}
