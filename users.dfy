/** `UserService` (services/users_service/service.py): following and
    unfollowing, and the two cached profile reads. */
module Users {
  import opened Outcomes
  import opened Text
  import opened Db

  /** The profile cache ttl in seconds. */
  const ProfileTtl := 120

  /** `str(e)` of the ValidationError `UserDataSchema.model_validate(None)`
      raises; pydantic's full text is not modelled. */
  const NoUserValidationMessage := "1 validation error for UserDataSchema"

  /** `f"{settings.REDIS_USER_CACHE}:{user_id=}"`: the key follow, unfollow
      and `find_user` use. */
  function UserIdKey(prefix: string, id: int): string
  {
    prefix + ":user_id=" + IntToString(id)
  }

  /** `f"{settings.REDIS_USER_CACHE}:{user.id=}"`: the key `get_user_data` uses. */
  function UserDotIdKey(prefix: string, id: int): string
  {
    prefix + ":user.id=" + IntToString(id)
  }

  /** The two key forms never meet: the character after "user" is "_" in one
      and "." in the other. So follow and unfollow never invalidate an entry
      of `get_user_data`. */
  lemma KeyFormsDiffer(prefix: string, a: int, b: int)
    ensures UserIdKey(prefix, a) != UserDotIdKey(prefix, b)
  {
    assert UserIdKey(prefix, a)[|prefix| + 5] == '_';
    assert UserDotIdKey(prefix, b)[|prefix| + 5] == '.';
  }

  /** Distinct users have distinct `user_id=` keys. */
  lemma UserIdKeyInjective(prefix: string, a: int, b: int)
    requires UserIdKey(prefix, a) == UserIdKey(prefix, b)
    ensures a == b
  {
    var n := |prefix + ":user_id="|;
    assert UserIdKey(prefix, a)[n..] == IntToString(a);
    assert UserIdKey(prefix, b)[n..] == IntToString(b);
    IntToStringInjective(a, b);
  }

  function NotFoundMessage(id: int): string
  {
    "User with id: " + IntToString(id) + " not found"
  }

  function NotSubscribedMessage(user: int, target: int): string
  {
    "User with id: " + IntToString(user) + ", is not subscribed to user with id: " + IntToString(target)
  }

  class UserService {
    const db: Database
    const cache: Cache
    /** `settings.REDIS_USER_CACHE` */
    const prefix: string

    constructor(db: Database, cache: Cache, prefix: string)
      ensures this.db == db && this.cache == cache && this.prefix == prefix
    {
      this.db := db;
      this.cache := cache;
      this.prefix := prefix;
    }

    /** `add_follow`: the self check comes before any lookup; a repeated
        subscription violates the `subscriptions` primary key at commit and changes nothing. */
    method AddFollow(userId: int, user: int) returns (r: Response<()>)
      requires db.Valid() && user in db.users
      modifies db, cache
      ensures db.Valid()
      ensures userId == user ==>
        r == Fail("User id error", "A user cannot subscribe to himself") &&
        db.subscriptions == old(db.subscriptions) && cache.entries == old(cache.entries)
      ensures userId != user && userId !in old(db.users) ==>
        r == Fail("User id error", NotFoundMessage(userId)) &&
        db.subscriptions == old(db.subscriptions) && cache.entries == old(cache.entries)
      ensures userId != user && userId in old(db.users) && (user, userId) in old(db.subscriptions) ==>
        r == HandleExceptions(Raised(Exception(IntegrityError, IntegrityMessage))) &&
        db.subscriptions == old(db.subscriptions) && cache.entries == old(cache.entries)
      ensures userId != user && userId in old(db.users) && (user, userId) !in old(db.subscriptions) ==>
        r == Ok(()) &&
        db.subscriptions == old(db.subscriptions) + {(user, userId)} &&
        cache.entries == old(cache.entries) - {UserIdKey(prefix, userId)}
      ensures db.users == old(db.users) && db.tweets == old(db.tweets) && db.pictures == old(db.pictures)
      ensures db.likes == old(db.likes) && db.media == old(db.media)
    {
      if userId == user {
        return Fail("User id error", "A user cannot subscribe to himself");
      }
      if userId !in db.users {
        return Fail("User id error", NotFoundMessage(userId));
      }
      if (user, userId) in db.subscriptions {
        return HandleExceptions(Raised(Exception(IntegrityError, IntegrityMessage)));
      }
      db.subscriptions := db.subscriptions + {(user, userId)};
      cache.Delete(UserIdKey(prefix, userId));
      return Ok(());
    }

    /** `unfollow_user`: commits only when exactly one subscription row was removed. */
    method UnfollowUser(userId: int, user: int) returns (r: Response<()>)
      requires db.Valid() && user in db.users
      modifies db, cache
      ensures db.Valid()
      ensures userId == user ==>
        r == Fail("User id error", "A user cannot unsubscribe to himself") &&
        db.subscriptions == old(db.subscriptions) && cache.entries == old(cache.entries)
      ensures userId != user && userId !in old(db.users) ==>
        r == Fail("User id error", NotFoundMessage(userId)) &&
        db.subscriptions == old(db.subscriptions) && cache.entries == old(cache.entries)
      ensures userId != user && userId in old(db.users) && (user, userId) !in old(db.subscriptions) ==>
        r == Fail("Subscribe error", NotSubscribedMessage(user, userId)) &&
        db.subscriptions == old(db.subscriptions) && cache.entries == old(cache.entries)
      ensures userId != user && userId in old(db.users) && (user, userId) in old(db.subscriptions) ==>
        r == Ok(()) &&
        db.subscriptions == old(db.subscriptions) - {(user, userId)} &&
        cache.entries == old(cache.entries) - {UserIdKey(prefix, userId)}
      ensures db.users == old(db.users) && db.tweets == old(db.tweets) && db.pictures == old(db.pictures)
      ensures db.likes == old(db.likes) && db.media == old(db.media)
    {
      if userId == user {
        return Fail("User id error", "A user cannot unsubscribe to himself");
      }
      if userId !in db.users {
        return Fail("User id error", NotFoundMessage(userId));
      }
      var rowcount := if (user, userId) in db.subscriptions then 1 else 0;
      if rowcount != 1 {
        return Fail("Subscribe error", NotSubscribedMessage(user, userId));
      }
      db.subscriptions := db.subscriptions - {(user, userId)};
      cache.Delete(UserIdKey(prefix, userId));
      return Ok(());
    }

    /** `get_user_data`: the caller's own profile under the `user.id=` key. */
    method GetUserData(user: int) returns (r: Response<CachedValue>)
      requires db.Valid() && user in db.users
      modifies cache
      ensures UserDotIdKey(prefix, user) in old(cache.entries) ==>
        r == Ok(old(cache.entries)[UserDotIdKey(prefix, user)].value) && cache.entries == old(cache.entries)
      ensures UserDotIdKey(prefix, user) !in old(cache.entries) ==>
        r == Ok(Profile(db.ProfileOf(user))) &&
        cache.entries == old(cache.entries)[UserDotIdKey(prefix, user) := CacheEntry(Profile(db.ProfileOf(user)), ProfileTtl)]
    {
      var key := UserDotIdKey(prefix, user);
      var cached := cache.Get(key);
      if cached.Some? {
        return Ok(cached.value);
      }
      var response := Profile(db.ProfileOf(user));
      cache.Set(key, response, ProfileTtl);
      return Ok(response);
    }

    /** `find_user`: any user's profile under the `user_id=` key; an unknown
        id fails validation and nothing is cached. */
    method FindUser(userId: int) returns (r: Response<CachedValue>)
      requires db.Valid()
      modifies cache
      ensures UserIdKey(prefix, userId) in old(cache.entries) ==>
        r == Ok(old(cache.entries)[UserIdKey(prefix, userId)].value) && cache.entries == old(cache.entries)
      ensures UserIdKey(prefix, userId) !in old(cache.entries) && userId in db.users ==>
        r == Ok(Profile(db.ProfileOf(userId))) &&
        cache.entries == old(cache.entries)[UserIdKey(prefix, userId) := CacheEntry(Profile(db.ProfileOf(userId)), ProfileTtl)]
      ensures UserIdKey(prefix, userId) !in old(cache.entries) && userId !in db.users ==>
        r == HandleExceptions(Raised(Exception(ValidationError, NoUserValidationMessage))) && cache.entries == old(cache.entries)
    {
      var key := UserIdKey(prefix, userId);
      var cached := cache.Get(key);
      if cached.Some? {
        return Ok(cached.value);
      }
      if userId !in db.users {
        return HandleExceptions(Raised(Exception(ValidationError, NoUserValidationMessage)));
      }
      var response := Profile(db.ProfileOf(userId));
      cache.Set(key, response, ProfileTtl);
      return Ok(response);
    }
  }

  /** After following `target`, a `find_user` of `target` misses the cache
      (and so reads the new subscription), while every `get_user_data` entry
      is still there. */
  lemma FollowInvalidatesOnlyFindUser(entries: map<string, CacheEntry>, prefix: string, target: int, other: int)
    ensures UserIdKey(prefix, target) !in entries - {UserIdKey(prefix, target)}
    ensures UserDotIdKey(prefix, other) in entries ==>
      UserDotIdKey(prefix, other) in entries - {UserIdKey(prefix, target)} &&
      (entries - {UserIdKey(prefix, target)})[UserDotIdKey(prefix, other)] == entries[UserDotIdKey(prefix, other)]
  {
    KeyFormsDiffer(prefix, target, other);
  }
}
