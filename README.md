# Social network API back end: a Dafny model

This project models the core of a small social network's back end:

- registered users post tweets with pictures, like tweets and follow each other;
- a scheduler backs up the database and rotates logs into an object store;
- the scheduler governs what the store keeps through lifecycle rules.

The model covers the following parts:

- **Lifecycle rule engine** (`services/media_service/s3client.py`). `set_lifecycle_rules` appends a rule `{ID, Status: "Enabled", Filter: {Prefix}, Expiration: {Days}}` to the bucket's configuration. `delete_completed_rule` reads the date at the end of each rule's prefix and keeps the rule iff that date plus `Days + 1` days lies strictly after today. It then writes back the survivors, or deletes the configuration when none survive.
    - `Lifecycle` models these on values.
    - `S3.Store` models the client as a class over the bucket's state. That state is the lifecycle configuration, replaced whole by every write, and the set of object keys.
- **Backup and retention helpers** (`services/celery_src/celery_utils.py`), in `Backup`. They cover:
    - dated local folders and dump file names;
    - the store prefixes that dumps and logs go under;
    - the prefix a rule is registered for;
    - the sweep of old local folders;
    - the log upload filter.

  A local directory is a `Directory` object over a map from entry name to entry.
- **Tweets service** (`services/tweets_service/service.py`) and **users service** (`services/users_service/service.py`), in `Tweets` and `Users`.
    - These run over `Db.Database`, which holds the tables as maps and sets, and `Db.Cache`, the Redis cache as a map.
    - Every branch, error record and cache invalidation of the source is a case of a method's postcondition.
- **Media upload** (`services/media_service/service.py`), in `Media`:
    - the extension check through `PurePath.name` and `.suffix`;
    - the stored object's name;
    - the sequence upload, then insert.
- **Utilities** (`services/utils.py`): `handle_exceptions` is in `Outcomes` and `check_user` is in `Auth`.

Python's library behaviour that the core relies on is modelled explicitly:

- `str.split` and `[-1]`;
- `str(int)`;
- `strftime("%d.%m.%Y")`;
- `strptime(s, "%d.%m.%Y")` with the regular expressions of its directives;
- `date.toordinal()`, `date + timedelta` and their OverflowErrors.

The clock, `uuid4()`, identifiers the database assigns and directory listings are parameters. So are the failures of the object store, of the file system and of the media service's database insert. The database's constraint violations (IntegrityError for a repeated like or follow, or for an unknown picture id) follow from the state. "Fresh" parameters are required to be unused.

Some points where the code's behaviour differs from what a reader would expect. The model follows the code in each case.

- **Failed fetch in `set_lifecycle_rules`.**
    - When the fetch fails, the wrapped `get_lifecycle_rules` returns an error record. An error record has no `"Rules"`.
    - So after any failed fetch, not only "no configuration", the new rule is written alone. This overwrites the stored rules (`Lifecycle.RegisterAfterFailedFetch`). It is not abandoned.
    - A failed write is swallowed by the wrapped `send_rules`.
- **The comparison is strict.** A rule for `01.01.2024` with 3 days is kept on 2024-01-04 and dropped on 2024-01-05 (`Lifecycle.PruneBoundaryExample`).
- **Exceptions in `delete_completed_rule`.**
    - Only `TypeError` and the HTTP client's `ClientError` (aiohttp) are caught inside it.
    - The object store's own `ClientError` (botocore) and `KeyError`, `ValueError` and `OverflowError` from a malformed rule all reach `handle_exceptions`.
    - A failed fetch always ends as a caught `TypeError`, because the error record is not subscriptable.
- **Log selection never matches.** `get_old_logs_folder` selects `.zip` files whose names start with `dd.mm.yyyy`. The logger names its files after the ISO date (`config.py:81-82`), so no log file it writes is ever selected (`Backup.IsoNamedLogNeverSelected`).
- **`add_like` with a null count.** In `data.likes_count += 1 if data.likes_count is not None else 1`, the conditional binds to the right-hand side. A null count therefore raises TypeError.
- **Unreachable branch in `get_tweets`.** Its `if tweets:` tests a `ScalarResult`, which is always true. So the "No tweets in the database" branch cannot be reached, and an empty table gives an empty feed.
- **Two cache key forms.** The users service writes keys of two forms: `{prefix}:user_id={id}` and `{prefix}:user.id={id}`.
    - Follow and unfollow invalidate only the first form (`Users.KeyFormsDiffer`, `Users.FollowInvalidatesOnlyFindUser`).
    - So `get_user_data` can keep serving a stale profile for up to 120 seconds.

## Model

| member | source | states |
|---|---|---|
| Outcomes.ErrorResult | services/utils.py:41-47 | the error record carries the exception's class name as its type and `str(e)` as its message |
| Outcomes.HandleExceptions | services/utils.py:33-47 | the wrapper never raises: a returned response passes through unchanged, a raised exception becomes the error record with its class name and message; every failure of a decorated tweets, users or store method that its body does not catch is stated through it |
| Text.Split | services/media_service/s3client.py:208 | one-character `split` yields at least one piece and no piece contains the separator |
| Text.LastSegment | services/media_service/s3client.py:96-101 | `split("/")[-1]` contains no "/" |
| Text.LastSegmentOfJoin | services/celery_src/celery_utils.py:72-73 | the last "/" segment of `a/b` is `b` whenever `b` has no "/" |
| Text.Pad2 | services/celery_src/celery_utils.py:70-71 | `%02d` rendering is two digits whose value is the number |
| Text.Pad4 | services/celery_src/celery_utils.py:70 | `%Y` rendering is four digits whose value is the year |
| Text.IntToString | services/users_service/service.py:87 | `str(n)` is non-empty and starts with "-" iff `n` is negative |
| Text.IntToStringInjective | services/users_service/service.py:80 | distinct ids render differently, so distinct users get distinct cache keys and messages |
| Text.Lower | services/media_service/service.py:79 | ASCII case folding: the length is kept, no upper-case ASCII letter is left, and every other character is kept as it is |
| Dates.DaysInMonth | services/media_service/s3client.py:209 | every month has 28 to 31 days |
| Dates.Ordinal | services/media_service/s3client.py:210-214 | `toordinal()` of a valid date lies in 1..3652059 (`date.max`) |
| Dates.OrdinalBounds | services/media_service/s3client.py:210-212 | the day-count formula stays within the range of `date` for years 1..9999 |
| Dates.DayToken | services/media_service/s3client.py:209 | a `%d` field that matches has a value in 1..31 |
| Dates.MonthToken | services/media_service/s3client.py:209 | a `%m` field that matches has a value in 1..12 |
| Dates.YearToken | services/media_service/s3client.py:209 | a `%Y` field is exactly four digits, with a value in 0..9999 |
| Dates.FormatDmy | services/celery_src/celery_utils.py:70 | `strftime("%d.%m.%Y")` gives ten characters with dots at positions 2 and 5 |
| Dates.FormatTime | services/celery_src/celery_utils.py:70 | `strftime("%H:%M:%S")` gives eight characters with colons at positions 2 and 5, and the three two-digit fields are the hour, minute and second |
| Dates.FormatIso | services/media_service/service.py:175 | `str(date)` gives ten characters with hyphens at positions 4 and 7, and the fields are the year, month and day |
| Dates.ParseDmy | services/media_service/s3client.py:209 | only a string that matches the `%d.%m.%Y` pattern parses; the date it gives is valid |
| Dates.MatchedButRefused | services/media_service/s3client.py:209 | a string that matches the pattern is refused iff its year is 0 or its day is past the end of the month |
| Dates.StrptimeFailure | services/media_service/s3client.py:209 | a refused string raises ValueError; its message is "time data … does not match format …" iff the string does not match the pattern, and otherwise the range error of `date` |
| Dates.FormatDmyHasNoSlash | services/celery_src/celery_utils.py:72-73 | a `dd.mm.yyyy` date has no "/", so it is the last segment of a path ending in it |
| Dates.ParseFormatDmy | services/media_service/s3client.py:209 | parsing with `%d.%m.%Y` what `strftime("%d.%m.%Y")` wrote gives back the same date, for every valid date |
| Dates.ParseDmyShortFields | services/media_service/s3client.py:209 | one-digit day and month fields are accepted: "5.1.2024" is 5 January 2024 |
| Dates.ParseDmyDayOutOfRange | services/media_service/s3client.py:209 | "30.02.2024" matches the pattern but is refused with "day is out of range for month" |
| Dates.ParseDmyShortYear | services/media_service/s3client.py:209 | a two-digit year does not match the pattern and is refused with the "does not match format" message |
| Lifecycle.FetchResponse | services/media_service/s3client.py:119-130 | the fetch succeeds iff the transport does not fail and a configuration exists, and then yields exactly the stored rules; no configuration gives the NoSuchLifecycleConfiguration error record |
| Lifecycle.RegisteredRules | services/media_service/s3client.py:141-165 | the written list ends with the new rule; after a successful fetch it is the fetched rules, in order, plus that rule; after a failed fetch it is that rule alone |
| Lifecycle.RegisterKeepsIdsDistinct | services/media_service/s3client.py:142-153 | with a fresh id, the rule ids of the written configuration stay pairwise distinct |
| Lifecycle.RegisterEffect | services/media_service/s3client.py:141-167 | a failed write leaves the configuration as it was; otherwise the configuration exists and ends with the new rule |
| Lifecycle.RegisterGrowsByOne | services/media_service/s3client.py:141-167 | a registration the store does not fail grows the configuration by exactly the new rule at the end, or starts one with it |
| Lifecycle.RegisterAfterFailedFetch | services/media_service/s3client.py:155-167 | when the fetch fails for any reason and the write succeeds, the configuration becomes the new rule alone, so earlier rules are lost |
| Lifecycle.RuleVerdict | services/media_service/s3client.py:207-215 | a rule is kept or dropped only when it has a prefix and a number of days and the prefix's last segment parses as a date; otherwise the rule raises KeyError, ValueError or OverflowError, none of which the pruner catches |
| Lifecycle.VerdictOfDatedRule | services/media_service/s3client.py:208-215 | a well-formed rule dated `d` for `n` days is kept iff `d + n + 1` is strictly after today, and dropped iff it is not |
| Lifecycle.PruneBoundaryExample | services/media_service/s3client.py:210-215 | a rule for 01.01.2024 with 3 days is kept on 2024-01-04 and dropped on 2024-01-05 |
| Lifecycle.FilterRules | services/media_service/s3client.py:205-215 | the loop never keeps more rules than it was given |
| Lifecycle.FilterKeepsExactly | services/media_service/s3client.py:205-215 | the loop completes iff no rule raises, and then a rule survives iff it is among the rules and its verdict is Keep |
| Lifecycle.FilterAbortsAtFirst | services/media_service/s3client.py:203-215 | an aborted loop reports the exception of the first rule that raises, no earlier rule raising |
| Lifecycle.FilterConcat | services/media_service/s3client.py:207-215 | the loop preserves order: survivors of `a + b` are those of `a` followed by those of `b`, an exception in `a` taking precedence |
| Lifecycle.FilterAbortedPrefix | services/media_service/s3client.py:205-215 | once the rules up to some point raise, the loop's outcome is that exception, whatever rules follow |
| Lifecycle.SurvivorsAreKept | services/media_service/s3client.py:214-215 | every survivor's own verdict is Keep |
| Lifecycle.FilterOfKept | services/media_service/s3client.py:207-215 | a list all of whose rules are kept passes the loop unchanged |
| Lifecycle.FilterIdempotent | services/media_service/s3client.py:203-218 | filtering the survivors again on the same day returns them unchanged |
| Lifecycle.PruneReport | services/media_service/s3client.py:224-225 | an exception inside the pruner's `try` ends in success iff it is a TypeError or the HTTP client's ClientError |
| Lifecycle.PruneEffect | services/media_service/s3client.py:203-225 | a pass that reports an error record leaves the configuration as it was |
| Lifecycle.Pruned | services/media_service/s3client.py:203-223 | a pass the store does not fail never turns a configuration into an empty rule list and never creates one where there was none |
| Lifecycle.PruneOutcome | services/media_service/s3client.py:203-225 | a failed fetch, a raising rule or a failed write leaves the configuration as it was; otherwise the survivors replace it, or it is deleted when none survive; it never becomes an empty list |
| Lifecycle.PruneIdempotent | services/media_service/s3client.py:203-225 | a second prune pass on the same day changes nothing |
| S3.CeleryKey | services/media_service/s3client.py:179 | the object key starts with `s3_path/` and ends with the file's last path segment |
| S3.ObjectUrl | services/media_service/s3client.py:86 | the URL starts with `{S3_URL}/{bucket}/`, and its last segment is the object's name when that name has no "/" |
| S3.MediaKey | services/media_service/s3client.py:96-100 | the key is the media folder followed by a part with no "/" |
| S3.DeletedKeys | services/media_service/s3client.py:96-101 | every key deleted lies under the media folder |
| S3.MediaKeyOfObjectUrl | services/media_service/s3client.py:86-101 | for a media folder that is empty or ends with "/", the key `delete_file` derives from the URL `upload_file` returned is the uploaded object's name |
| S3.DeletedKeysExactly | services/media_service/s3client.py:96-101 | a key is deleted iff it is the media folder followed by the last segment of one of the links |
| S3.Store.GetLifecycleRules | services/media_service/s3client.py:119-130 | the response is the fetch response of the stored configuration under the given fault; nothing changes |
| S3.Store.SendRules | services/media_service/s3client.py:105-116 | a write replaces the whole configuration with the given rules, or on failure changes nothing and returns the error record |
| S3.Store.DeleteLifecycle | services/media_service/s3client.py:220-223 | the configuration is removed, or the failure is raised and nothing changes |
| S3.Store.SetLifecycleRules | services/media_service/s3client.py:133-167 | the new configuration is the registration effect of the rule with the fresh id, the call always reports success, and the store never holds an empty list |
| S3.Store.CorrectRules | services/media_service/s3client.py:205-215 | the loop ends with exactly the filtered survivors, in order, or with the exception of the first rule that raises |
| S3.Store.DeleteCompletedRule | services/media_service/s3client.py:193-225 | the new configuration and the response are those of one prune pass, objects are untouched, the store never holds an empty list |
| S3.Store.UploadFile | services/media_service/s3client.py:65-86 | a successful upload adds the object and returns `{S3_URL}/{bucket}/{name}`; a failure adds nothing and returns the error record |
| S3.Store.DeleteFile | services/media_service/s3client.py:89-101 | one delete per link in order; a failure at index `k` stops after the first `k` deletes and returns the error record |
| S3.CeleryFailure | services/media_service/s3client.py:188-189 | a failure inside the upload's `try` is swallowed iff it is the HTTP client's ClientError; any other failure gives its error record |
| S3.Store.UploadFileCelery | services/media_service/s3client.py:170-190 | in the source's order: a failure to open the client, then a missing file (FileNotFoundError's record), then a failed put; each client failure is swallowed iff it is the HTTP client's; the file is stored under its celery key iff none of these happens, and nothing is stored otherwise |
| Backup.FormattedDate | services/celery_src/celery_utils.py:58-75 | the list has four elements from one clock reading: `today_dir` is `base/date`, whose last segment is `date`; `time` is the `%H:%M:%S` rendering of the clock; `date` parses back to today; `current_s3_dir` is the last segment of `base` |
| Backup.DumpKey | services/celery_src/celery_utils.py:107-109 | a dump is stored under "backup_database/", and its key's last segment is `{time}_backup.dump` |
| Backup.CurrentFolder | services/celery_src/celery_utils.py:158-162 | the folder starts with `{s3_dir}/` and its last segment is today's `dd.mm.yyyy` |
| Backup.Sweep | services/celery_src/celery_utils.py:138-143 | the sweep only removes entries, leaves what it keeps unchanged, and never removes today's entry |
| Backup.UploadedLogKeys | services/celery_src/celery_utils.py:203-208 | every uploaded log key lies under `logs/{date}/` |
| Backup.FormatTimeHasNoSlash | services/celery_src/celery_utils.py:71 | the `%H:%M:%S` rendering contains no "/" |
| Backup.DumpKeyShape | services/celery_src/celery_utils.py:107-109 | a dump is stored under `backup_database/{last segment of base}/{date}/{time}_backup.dump` |
| Backup.CurrentFolderRoundTrip | services/celery_src/celery_utils.py:158-161 | the pruner parses back, from the registered prefix, the day on which the rule was registered |
| Backup.RegisteredRuleLifetime | services/celery_src/celery_utils.py:166-178 | a rule registered on day `d` for `n` days is kept on `today` iff `d + n + 1 > today`, and dropped otherwise |
| Backup.RulePrefixCoversDump | services/celery_src/celery_utils.py:147-162 | with `s3_dir` "backup_database", the prefix registered for a backup directory on a day is a prefix of the key of that day's dump from it |
| Backup.SweepOnlyRemovesOthers | services/celery_src/celery_utils.py:131-143 | the sweep only removes; today's folder always survives, and every removed entry is a directory with another name |
| Backup.SweepLeavesOnlyToday | services/celery_src/celery_utils.py:138-143 | when the listing is the directory's entries and all other entries are directories, only today's entry is left |
| Backup.SweepKeepsExtra | services/celery_src/celery_utils.py:141-143 | an entry named like today is carried through the sweep unchanged |
| Backup.UploadedLogKeysExactly | services/celery_src/celery_utils.py:203-208 | a key is uploaded iff it is `logs/{date}/{name}` for a listed `.zip` name starting with the date whose upload did not fail |
| Backup.IsoNamedLogNeverSelected | services/celery_src/celery_utils.py:204-206 | a file name that starts with an ISO date is never selected by the `dd.mm.yyyy` filter |
| Backup.Directory.MakeFolder | services/celery_src/celery_utils.py:43-54 | the folder is created iff no entry has that name and `makedirs` does not fail; nothing else changes |
| Backup.Directory.GetFormattedDate | services/celery_src/celery_utils.py:58-75 | returns the formatted-date list of one clock reading and makes today's folder |
| Backup.Directory.MakeDbDump | services/celery_src/celery_utils.py:79-93 | the dump file appears in the dated folder iff that folder exists |
| Backup.Directory.UploadDumpsToS3 | services/celery_src/celery_utils.py:97-109 | the store gains the dump's key iff the client opens and the dump exists |
| Backup.Directory.UploadDbDumpToS3 | services/celery_src/celery_utils.py:113-127 | folder, dump and upload come from one clock reading; the store gains exactly that dump's key when it was written and uploaded |
| Backup.Directory.DeleteOldLogs | services/celery_src/celery_utils.py:131-143 | the loop leaves the directory exactly as the sweep of the listing that spares today's name |
| Backup.Directory.UploadTodaysLogs | services/celery_src/celery_utils.py:203-208 | over the listing, the store gains exactly the keys of the selected logs whose uploads succeeded, and its lifecycle configuration is untouched |
| Backup.Directory.UploadIfTodays | services/celery_src/celery_utils.py:205-208 | a name the filter selects is stored under `logs/{date}/{name}` unless its upload fails; any other name adds nothing |
| Backup.Directory.GetOldLogsFolder | services/celery_src/celery_utils.py:196-208 | today's folder is made, and the store gains exactly the keys of the selected logs whose uploads succeeded |
| Backup.UploadLogsToS3 | services/celery_src/celery_utils.py:182-192 | a log is stored under `logs/{date}/{file name}` unless its upload fails |
| Backup.SetFolderLifecycle | services/celery_src/celery_utils.py:166-178 | the configuration becomes the registration effect of a rule for today's folder `{s3_dir}/{last segment}/{date}` |
| Backup.DeleteCompletedRules | services/celery_src/celery_utils.py:212-216 | the configuration becomes that of one prune pass |
| Db.MediaRows | services/tweets_service/service.py:63-68 | one `medias` row per listed picture, in order, each bound to the new tweet |
| Db.Attachments | services/tweets_service/service.py:239-241 | a tweet has no more attachments than `medias` rows, and each is the link of a stored picture |
| Db.AttachmentsExactly | services/tweets_service/service.py:239-241 | a link is an attachment of a tweet iff some `medias` row binds one of its pictures with that link |
| Db.FreshTweetAttachments | services/tweets_service/service.py:58-68 | a newly created tweet's attachments are the links of its picture ids in the order given |
| Db.WithoutTweet | services/tweets_service/service.py:105 | after a deletion, the remaining `medias` rows are exactly the old rows for other tweets |
| Db.Database.RemoveTweet | services/tweets_service/service.py:105-106 | the tweet, its likes and its `medias` rows go; users, pictures and subscriptions stay; all keys stay consistent |
| Db.Database.Likers | services/tweets_service/service.py:243 | a user appears among a tweet's likes iff a like row links them |
| Db.Database.View | services/tweets_service/service.py:236-244 | a tweet's view carries its id, content, author, likers and attachments |
| Db.Database.FeedViews | services/tweets_service/service.py:234-245 | the feed has one view per tweet of the query, in the query's order |
| Db.Database.ProfileOf | services/users_service/service.py:168-176 | a profile lists exactly the subscribers as followers and the subscribed-to users as following |
| Db.Cache.Get | services/redis/redis_service.py:80-83 | a value is returned iff the key is present, and it is the stored value |
| Db.Cache.Set | services/redis/redis_service.py:61-64 | the key maps to the value with its ttl; other keys are unchanged |
| Db.Cache.Delete | services/redis/redis_service.py:95 | the key is absent afterwards; other keys are unchanged |
| Tweets.TweetsService.CreateTweet | services/tweets_service/service.py:58-73 | with insertable picture ids the tweet is added with zero likes, its `medias` rows are appended and the feed cache is dropped; otherwise IntegrityError and nothing changes |
| Tweets.TweetsService.DeleteTweet | services/tweets_service/service.py:96-117 | only the author's tweet is deleted; its pictures' objects are removed only when it has any, up to a store failure; the tweet, its likes and its `medias` rows go and the feed cache is dropped; otherwise "Data error" and nothing changes |
| Tweets.TweetsService.AddLike | services/tweets_service/service.py:138-156 | an unknown tweet gives "Tweet error"; a null count gives TypeError; a repeated like gives IntegrityError; in these cases nothing changes; otherwise the like is added, the count grows by one and the feed cache is dropped |
| Tweets.TweetsService.DeleteLike | services/tweets_service/service.py:177-200 | succeeds iff the user had liked the tweet and its count is not null, then removes the like, lowers the count by one and drops the feed cache; otherwise nothing changes |
| Tweets.TweetsService.GetTweets | services/tweets_service/service.py:221-264 | a cache hit is returned as it is; a miss returns and caches for 180 seconds the feed of all tweets in the query's order |
| Tweets.FeedIsNewestFirst | services/tweets_service/service.py:223-245 | the feed holds every tweet exactly once, newest id first, each with its own view |
| Users.KeyFormsDiffer | services/users_service/service.py:164-166 | the `user_id=` and `user.id=` cache keys never coincide |
| Users.UserIdKeyInjective | services/users_service/service.py:80 | distinct users have distinct `user_id=` keys |
| Users.FollowInvalidatesOnlyFindUser | services/users_service/service.py:78-81 | after the invalidation the target's `find_user` entry is gone while every `get_user_data` entry remains |
| Users.UserService.AddFollow | services/users_service/service.py:62-89 | following oneself or an unknown user gives "User id error"; a repeated follow gives IntegrityError; in those cases nothing changes; otherwise the subscription is added and the target's `user_id=` entry is dropped |
| Users.UserService.UnfollowUser | services/users_service/service.py:106-149 | unfollowing oneself or an unknown user gives "User id error", a missing subscription gives "Subscribe error" and nothing changes; otherwise the subscription is removed and the target's `user_id=` entry dropped |
| Users.UserService.GetUserData | services/users_service/service.py:164-189 | a hit on `user.id=` is returned as it is; a miss returns and caches for 120 seconds the user's profile |
| Users.UserService.FindUser | services/users_service/service.py:206-231 | a hit on `user_id=` is returned as it is; a miss on a known user returns and caches its profile; an unknown user gives ValidationError and caches nothing |
| Media.LastName | services/media_service/service.py:79 | the name is one of the path's parts, or empty, and never "." |
| Media.PathName | services/media_service/service.py:79 | `Path(s).name` contains no "/" |
| Media.RFind | services/media_service/service.py:79 | `rfind` gives -1 iff the character is absent, else the index of its last occurrence |
| Media.UploadExtension | services/media_service/service.py:64-79 | there is an extension iff there is a file name, and it contains neither "." nor "/" |
| Media.Suffix | services/media_service/service.py:79 | a suffix is empty or a "." followed by at least one dot-free character, ending the name |
| Media.FileExtension | services/media_service/service.py:79 | the extension contains neither "." nor "/" |
| Media.NoDotNoExtension | services/media_service/service.py:79 | a name without "." has the empty extension |
| Media.ExtensionOfPlainName | services/media_service/service.py:79 | `stem.ext` with a non-empty stem and a dot-free extension has that extension in lower case |
| Media.ExtensionIgnoresDirectory | services/media_service/service.py:79 | directories before the name do not change the extension |
| Media.DotAtEitherEndNoExtension | services/media_service/service.py:79 | a name with a leading dot only (".bashrc") or a trailing dot has no extension |
| Media.UpperCaseExtensionExample | services/media_service/service.py:79 | "photo.JPG" has extension "jpg" |
| Media.DoubleSuffixExample | services/media_service/service.py:79 | "archive.tar.gz" has extension "gz" |
| Media.Allowed | config.py:8-24 | only an extension of two to four lower-case ASCII letters can be allowed, so "JPG", "" and no extension are refused |
| Media.MediaName | services/media_service/service.py:173-176 | the object name starts with `{folder}{uuid}-` and ends with `.{ext}` |
| Media.UploadedPictureIsDeletable | services/media_service/service.py:173-176 | the key `delete_file` derives from a stored picture link is the uploaded object's name |
| Media.MediaService.UploadPicture | services/media_service/service.py:155-188 | a disallowed or missing extension gives "Authorization failed" and changes nothing; a compression failure gives its record; a failed upload gives ValidationError and changes nothing; otherwise the object is stored under `{folder}{uuid}-{date}.{ext}`, and the picture row with its URL is added unless the insert fails |
| Auth.CheckUser | services/utils.py:69-91 | an absent or empty key gives "Header error"; otherwise the call succeeds iff some user holds the key, returning such a user, and "Not authorize" otherwise |
| Auth.CheckUserFindsOwner | services/utils.py:70-75 | with unique api keys the user returned is the key's owner |

## Left out

- Transport, sessions, the asynchronous event loop and the scheduler's timing (`services/celery_src/celery_app.py`) are not part of this model. Every store and file-system failure is a parameter.
- Database and Redis transport failures in the tweets and users services are not modelled: their methods take no database or cache fault. In the source, such a failure after a successful commit reaches `handle_exceptions`: the change stays committed and the call returns the error record. An example is a failing `redis.delete` after the commit in `add_like` (services/tweets_service/service.py:146-147) or in `add_follow` (services/users_service/service.py:79-80). The model does not express that outcome.
- Logging is left out. It has no effect on state or results.
- JSON encoding of cached values: the cache holds the decoded value, and a hit returns it as it is.
- Redis ttl expiry: entries carry their ttl, but time passing is not modelled. The `if ttl:` branch without expiry is never taken by these callers.
- `compress_image` (services/utils.py:94-136) does image processing. It appears only as a possible failure of `UploadPicture`.
- `pg_dump` and the shell (services/celery_src/celery_utils.py:87-93): the dump file appears iff its folder exists, and its contents are not modelled.
- `os.makedirs` creating missing parent directories: `Directory.MakeFolder` covers a direct child. A missing base directory is the `fails` parameter.
- Object contents: the store is a set of keys.
- The wall clock is read once per operation, and two operations read it more often. `delete_completed_rule` reads `datetime.now()` once per rule. `get_old_logs_folder` reads it once in `get_formatted_date` and again in every `upload_logs_to_s3` call (services/celery_src/celery_utils.py:188-189), while `Backup.Directory.UploadIfTodays` passes one clock reading to every upload. So a pass that straddles midnight is not modelled. For the logs this changes nothing, since no log is ever selected (`Backup.IsoNamedLogNeverSelected`).
- The order of rows the database returns for `get_tweets` (ORDER BY id DESC) is a parameter that the precondition describes. The order of a tweet's attachments is taken as the insertion order of its `medias` rows.
- Routes, schemas, `main.py`, `db_connect.py` and `users_init.py` are not part of this model.
- Dates.ParseFormatDmy: the round trip is stated for `%Y` rendered with four digits. The C library's `strftime` may leave years before 1000 unpadded, and strptime's `%Y` would then refuse them.
- Dates.DayToken: strptime's `\d` also matches non-ASCII decimal digits. Only ASCII digits are modelled.
- Dates.YearToken: the same holds for its `\d\d\d\d` pattern. Only ASCII digits are modelled.
- Lifecycle.RuleVerdict: exception messages are modelled only as far as their kind. `Dates.StrptimeFailure` tells a string that does not match the pattern from a matched string that `date` refuses ("year 0 is out of range", "day is out of range for month"). The `%r` quoting of the string inside the "does not match format" message is not reproduced. Trailing text is not given the separate "unconverted data remains" message. The exact range-error wording of the running Python version is not checked. The KeyError for a rule without a `Filter` or an `Expiration` dictionary is not separate from the KeyError for a missing `Prefix` or `Days`: a rule's dictionaries are modelled only as the optional prefix and number of days.
- Text.Lower: only ASCII letters are folded. Python's `str.lower()` also folds other letters, and may change them or make them longer. The body compares the folded extension with the allowed list, and every entry of that list is ASCII lower case. So the only difference for acceptance is a non-ASCII letter that Python folds into ASCII: the Kelvin sign folds to "k", and no allowed extension contains "k".
- S3.Store.DeleteFile: a `get_client()` failure before the first delete is the fault at index 0. With no links at all, that failure is not represented. The tweets service calls `delete_file` only when the tweet has attachments.
- `handle_exceptions_sync` (services/celery_src/celery_utils.py:19-39) is not modelled as a separate function. It returns None both when it catches an exception and when a unit function returns normally. The values the helpers use, from `get_formatted_date` and `get_current_folder`, cannot raise. So each helper's postcondition states the effect of a caught failure directly: for example, `Backup.Directory.DeleteOldLogs` stops at the first failing `rmtree`.
- Tweets.TweetsService.CreateTweet: the IntegrityError message is a fixed stand-in for the driver's text.
- Tweets.TweetsService.AddLike: the IntegrityError message is a fixed stand-in for the driver's text.
- Users.UserService.AddFollow: the IntegrityError message is a fixed stand-in for the driver's text.
- Users.UserService.FindUser: the ValidationError message is a fixed stand-in for pydantic's text.
- Media.MediaService.UploadPicture: the ValidationError message is a fixed stand-in for pydantic's text. The name check uses POSIX `PurePath` parsing. `uuid4()` and the date are parameters, and `Media.UploadedPictureIsDeletable` takes a uuid free of "/", as a `uuid4()` string is.
- Auth.CheckUser: requires the `users.api_key` uniqueness that the schema enforces.
