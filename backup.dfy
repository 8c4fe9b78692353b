/** The backup and log-retention helpers of the Celery scheduler
    (services/celery_src/celery_utils.py): dated local folders, dump file
    names, the store prefixes dumps and logs go under, the prefix a lifecycle
    rule is registered for, and the local sweeps. One local directory is a
    `Directory` object; the wall clock and every failure are parameters. */
module Backup {
  import opened Outcomes
  import opened Text
  import opened Dates
  import opened Lifecycle
  import opened S3

  /** An entry of a local directory: a plain file, or a sub-directory with
      the names it holds. */
  datatype Entry = File | Folder(names: set<string>)

  /** `get_formatted_date`'s result for the base directory and one clock
      reading: `[today_dir, time, date, current_s3_dir]`. */
  function FormattedDate(base: string, now: Clock): (r: seq<string>)
    ensures |r| == 4 && r[2] == FormatDmy(now.date) && r[1] == FormatTime(now)
    ensures r[0] == base + "/" + r[2] && LastSegment(r[0]) == r[2]
    ensures ParseDmy(r[2]) == Some(now.date)
    ensures r[3] == LastSegment(base) && '/' !in r[3]
  {
    var date := FormatDmy(now.date);
    FormatDmyHasNoSlash(now.date);
    LastSegmentOfJoin(base, date);
    ParseFormatDmy(now.date);
    [base + "/" + date, FormatTime(now), date, LastSegment(base)]
  }

  /** The clock renderings contain no "/". */
  lemma FormatTimeHasNoSlash(now: Clock)
    ensures '/' !in FormatTime(now)
  {
    NoDotInDigits(Pad2(now.hour));
    NoDotInDigits(Pad2(now.minute));
    NoDotInDigits(Pad2(now.second));
  }

  /** The dump file name `make_db_dump` writes and `upload_dumps_to_s3` reads. */
  function DumpName(time: string): string
  {
    time + "_backup.dump"
  }

  /** `"{directory}/{time}_backup.dump"`, the one path both helpers use. */
  function DumpPath(directory: string, time: string): string
  {
    directory + "/" + DumpName(time)
  }

  /** The fixed first folder of every dump key. */
  const DumpRoot := "backup_database"

  /** `"backup_database/{dump_dir}/{date}"` */
  function DumpsPrefix(dumpDir: string, date: string): string
  {
    DumpRoot + "/" + dumpDir + "/" + date
  }

  /** The store key of the dump `upload_db_dump_to_s3` makes from one clock
      reading, through `upload_file_celery`. */
  function DumpKey(base: string, now: Clock): (key: string)
    ensures StartsWith(key, DumpRoot + "/")
    ensures LastSegment(key) == FormatTime(now) + "_backup.dump"
  {
    var f := FormattedDate(base, now);
    var prefix := DumpsPrefix(f[3], f[2]);
    var key := CeleryKey(prefix, DumpPath(f[0], f[1]));
    StartsWithJoin(DumpRoot + "/", f[3]);
    StartsWithExtend(DumpRoot + "/" + f[3], DumpRoot + "/", "/");
    StartsWithExtend(DumpRoot + "/" + f[3] + "/", DumpRoot + "/", f[2]);
    StartsWithExtend(prefix, DumpRoot + "/", "/");
    StartsWithTrans(key, prefix + "/", DumpRoot + "/");
    FormatTimeHasNoSlash(now);
    LastSegmentOfJoin(f[0], DumpName(f[1]));
    key
  }

  /** The dump lands at `backup_database/{last segment of base}/{date}/{time}_backup.dump`. */
  lemma DumpKeyShape(base: string, now: Clock)
    ensures DumpKey(base, now) ==
      DumpRoot + "/" + LastSegment(base) + "/" + FormatDmy(now.date) + "/" + FormatTime(now) + "_backup.dump"
  {
    var f := FormattedDate(base, now);
    FormatTimeHasNoSlash(now);
    assert '/' !in DumpName(f[1]);
    LastSegmentOfJoin(f[0], DumpName(f[1]));
  }

  /** `get_current_folder`: `"{s3_dir}/{last segment of dump_dir}/{date}"`. */
  function CurrentFolder(dumpDir: string, s3Dir: string, now: Clock): (folder: string)
    ensures StartsWith(folder, s3Dir + "/")
    ensures LastSegment(folder) == FormatDmy(now.date)
  {
    var seg, date := LastSegment(dumpDir), FormatDmy(now.date);
    StartsWithJoin(s3Dir + "/", seg);
    StartsWithExtend(s3Dir + "/" + seg, s3Dir + "/", "/");
    StartsWithExtend(s3Dir + "/" + seg + "/", s3Dir + "/", date);
    FormatDmyHasNoSlash(now.date);
    LastSegmentOfJoin(s3Dir + "/" + seg, date);
    s3Dir + "/" + seg + "/" + date
  }

  /** The pruner reads back the date a registration wrote: the last segment
      of the registered prefix parses under `"%d.%m.%Y"` to the day of the
      clock reading. */
  lemma {:induction false} CurrentFolderRoundTrip(dumpDir: string, s3Dir: string, now: Clock)
    ensures ParseDmy(LastSegment(CurrentFolder(dumpDir, s3Dir, now))) == Some(now.date)
  {
    FormatDmyHasNoSlash(now.date);
    LastSegmentOfJoin(s3Dir + "/" + LastSegment(dumpDir), FormatDmy(now.date));
    ParseFormatDmy(now.date);
  }

  /** A rule registered on day `now` for `days` days is kept by the pruner on
      `today` iff `now + days + 1` lies strictly after `today`. */
  lemma {:induction false} RegisteredRuleLifetime(id: string, dumpDir: string, s3Dir: string, days: int,
                                                  now: Clock, today: CivilDate)
    requires 1 <= Ordinal(now.date) + days + 1 <= MaxOrdinal
    ensures RuleVerdict(NewRule(id, CurrentFolder(dumpDir, s3Dir, now), days), today) == Keep <==>
      Ordinal(now.date) + days + 1 > Ordinal(today)
    ensures RuleVerdict(NewRule(id, CurrentFolder(dumpDir, s3Dir, now), days), today) == Drop <==>
      Ordinal(now.date) + days + 1 <= Ordinal(today)
  {
    CurrentFolderRoundTrip(dumpDir, s3Dir, now);
    VerdictOfDatedRule(NewRule(id, CurrentFolder(dumpDir, s3Dir, now), days), now.date, days, today);
  }

  /** With the dump folder setting equal to "backup_database", the rule that
      `set_folder_lifecycle` registers for a backup directory on a day covers
      the dump uploaded from that directory on that day: the rule's prefix is
      a prefix of the dump's key. */
  lemma {:induction false} RulePrefixCoversDump(base: string, now: Clock)
    ensures StartsWith(DumpKey(base, now), CurrentFolder(base, DumpRoot, now))
  {
    DumpKeyShape(base, now);
    var folder := CurrentFolder(base, DumpRoot, now);
    StartsWithJoin(folder, "/");
    StartsWithExtend(folder + "/", folder, FormatTime(now));
    StartsWithExtend(folder + "/" + FormatTime(now), folder, "_backup.dump");
  }

  /** `make_folder` on a directory's child: nothing when an entry of that name
      exists, a new empty folder otherwise, and nothing when `os.makedirs`
      fails (the OSError is logged). */
  function AfterMakeFolder(entries: map<string, Entry>, name: string, fails: bool): map<string, Entry>
  {
    if name in entries || fails then entries else entries[name := Folder({})]
  }

  /** The shell redirection of `make_db_dump` creates the dump file when the
      dated folder exists; otherwise the shell fails and nothing is raised. */
  function AfterDump(entries: map<string, Entry>, date: string, time: string): map<string, Entry>
  {
    if date in entries && entries[date].Folder? then entries[date := Folder(entries[date].names + {DumpName(time)})]
    else entries
  }

  /** The entries `delete_old_logs` leaves: it walks the listing in order,
      skips the entry named `keep` and removes every other one with
      `shutil.rmtree`; the first that is not a directory raises, which ends
      the sweep (`handle_exceptions_sync` logs it). */
  function Sweep(entries: map<string, Entry>, names: seq<string>, keep: string): (after: map<string, Entry>)
    ensures forall n :: n in after ==> n in entries && after[n] == entries[n]
    ensures keep in entries ==> keep in after
    decreases |names|
  {
    if |names| == 0 then entries
    else if names[0] == keep then Sweep(entries, names[1..], keep)
    else if names[0] in entries && entries[names[0]].Folder? then Sweep(entries - {names[0]}, names[1..], keep)
    else entries
  }

  /** The sweep only removes: what is left is unchanged, today's entry is
      always left, and every removed entry is a directory with another name. */
  lemma {:induction false} SweepOnlyRemovesOthers(entries: map<string, Entry>, names: seq<string>, keep: string)
    ensures var after := Sweep(entries, names, keep);
      (forall n :: n in after ==> n in entries && after[n] == entries[n]) &&
      (keep in entries ==> keep in after) &&
      (forall n :: n in entries && n !in after ==> n != keep && entries[n].Folder?)
    decreases |names|
  {
    if |names| > 0 {
      if names[0] == keep {
        SweepOnlyRemovesOthers(entries, names[1..], keep);
      } else if names[0] in entries && entries[names[0]].Folder? {
        SweepOnlyRemovesOthers(entries - {names[0]}, names[1..], keep);
      }
    }
  }

  predicate Distinct(names: seq<string>)
  {
    forall i, j :: 0 <= i < j < |names| ==> names[i] != names[j]
  }

  /** When the listing is the directory's entries and every entry other than
      today's is a directory, the sweep leaves today's entry and nothing else. */
  lemma {:induction false} SweepLeavesOnlyToday(entries: map<string, Entry>, names: seq<string>, keep: string)
    requires Distinct(names)
    requires forall n :: n in entries <==> n in names
    requires forall n :: n in entries && n != keep ==> entries[n].Folder?
    ensures Sweep(entries, names, keep) == if keep in entries then map[keep := entries[keep]] else map[]
    decreases |names|
  {
    if |names| == 0 {
      assert entries == map[];
    } else {
      var rest := names[1..];
      assert Distinct(rest);
      assert names[0] !in rest by {
        forall j | 0 <= j < |rest| ensures rest[j] != names[0] {
          assert rest[j] == names[j + 1];
        }
      }
      if names[0] == keep {
        var smaller := entries - {keep};
        SweepLeavesOnlyToday(smaller, rest, keep);
        assert Sweep(entries, rest, keep) == Sweep(smaller, rest, keep) + map[keep := entries[keep]] by {
          SweepKeepsExtra(smaller, rest, keep, entries[keep]);
          assert smaller[keep := entries[keep]] == entries;
        }
        assert map[] + map[keep := entries[keep]] == map[keep := entries[keep]];
      } else {
        SweepLeavesOnlyToday(entries - {names[0]}, rest, keep);
      }
    }
  }

  /** An entry named `keep` that the sweep never touches rides along. */
  lemma {:induction false} SweepKeepsExtra(entries: map<string, Entry>, names: seq<string>, keep: string, e: Entry)
    requires keep !in entries
    requires Distinct(names)
    requires forall i :: 0 <= i < |names| ==> names[i] == keep || names[i] in entries
    ensures Sweep(entries[keep := e], names, keep) == Sweep(entries, names, keep) + map[keep := e]
    decreases |names|
  {
    if |names| > 0 {
      var rest := names[1..];
      assert Distinct(rest);
      if names[0] == keep {
        SweepKeepsExtra(entries, rest, keep, e);
      } else if entries[names[0]].Folder? {
        forall j | 0 <= j < |rest| ensures rest[j] == keep || rest[j] in entries - {names[0]} {
          assert rest[j] == names[j + 1];
        }
        assert entries[keep := e] - {names[0]} == (entries - {names[0]})[keep := e];
        SweepKeepsExtra(entries - {names[0]}, names[1..], keep, e);
      }
    }
  }

  /** The filter of `get_old_logs_folder`: a ".zip" file whose name starts
      with the date. */
  predicate IsTodaysLog(name: string, date: string)
  {
    EndsWith(name, ".zip") && StartsWith(name, date)
  }

  /** `"logs/{date}"`, the prefix `upload_logs_to_s3` passes on. */
  function LogsPrefix(date: string): string
  {
    "logs/" + date
  }

  /** The keys the log uploads of one `get_old_logs_folder` call store: one
      per selected name whose upload does not fail. */
  function UploadedLogKeys(names: seq<string>, date: string, faults: map<string, Exception>): (keys: set<string>)
    ensures forall k :: k in keys ==> StartsWith(k, LogsPrefix(date) + "/")
    decreases |names|
  {
    if |names| == 0 then {}
    else
      var last := names[|names| - 1];
      StartsWithJoin(LogsPrefix(date) + "/", last);
      UploadedLogKeys(names[..|names| - 1], date, faults) +
        (if IsTodaysLog(last, date) && last !in faults then {LogsPrefix(date) + "/" + last} else {})
  }

  /** One more name of the listing: the loop's step. */
  lemma UploadedLogKeysStep(names: seq<string>, i: int, date: string, faults: map<string, Exception>)
    requires 0 <= i < |names|
    ensures UploadedLogKeys(names[..i + 1], date, faults) == UploadedLogKeys(names[..i], date, faults) +
      (if IsTodaysLog(names[i], date) && names[i] !in faults then {LogsPrefix(date) + "/" + names[i]} else {})
  {
    assert names[..i + 1][..i] == names[..i];
  }

  /** Exactly the selected logs are uploaded, each under `logs/{date}/{name}`. */
  lemma {:induction false} UploadedLogKeysExactly(names: seq<string>, date: string, faults: map<string, Exception>, key: string)
    ensures key in UploadedLogKeys(names, date, faults) <==>
      exists i :: 0 <= i < |names| && IsTodaysLog(names[i], date) && names[i] !in faults &&
                  key == "logs/" + date + "/" + names[i]
    decreases |names|
  {
    if |names| > 0 {
      var init := names[..|names| - 1];
      UploadedLogKeysExactly(init, date, faults, key);
      if key in UploadedLogKeys(init, date, faults) {
        var i :| 0 <= i < |init| && IsTodaysLog(init[i], date) && init[i] !in faults && key == "logs/" + date + "/" + init[i];
        assert names[i] == init[i];
      }
      if exists i :: 0 <= i < |names| && IsTodaysLog(names[i], date) && names[i] !in faults &&
                     key == "logs/" + date + "/" + names[i] {
        var i :| 0 <= i < |names| && IsTodaysLog(names[i], date) && names[i] !in faults &&
                 key == "logs/" + date + "/" + names[i];
        if i < |names| - 1 {
          assert init[i] == names[i];
        }
      }
    }
  }

  /** The logger names its files after the ISO date (`YYYY-MM-DD`), and a
      name that starts with an ISO date never starts with a `dd.mm.yyyy`
      date: the third character is a digit in one and "." in the other. So
      the filter selects no file the logger names. */
  lemma IsoNamedLogNeverSelected(name: string, logDay: CivilDate, today: CivilDate)
    requires StartsWith(name, FormatIso(logDay))
    ensures !IsTodaysLog(name, FormatDmy(today))
  {
    assert name[2] == FormatIso(logDay)[2] == Pad4(logDay.year)[2];
    assert FormatDmy(today)[2] == '.';
  }

  /** One local directory (`current_directory`, a backup folder or the logs folder). */
  class Directory {
    const path: string
    var entries: map<string, Entry>

    /** Entry names are single path components. */
    ghost predicate Valid()
      reads this
    {
      forall n :: n in entries ==> '/' !in n
    }

    constructor(path: string, entries: map<string, Entry>)
      requires forall n :: n in entries ==> '/' !in n
      ensures this.path == path && this.entries == entries
      ensures Valid()
    {
      this.path := path;
      this.entries := entries;
    }

    /** `make_folder("{path}/{name}")` */
    method MakeFolder(name: string, fails: bool)
      requires Valid() && '/' !in name
      modifies this
      ensures Valid()
      ensures entries == AfterMakeFolder(old(entries), name, fails)
    {
      if name !in entries && !fails {
        entries := entries[name := Folder({})];
      }
    }

    /** `get_formatted_date(path)`: one clock reading, today's folder made. */
    method GetFormattedDate(now: Clock, mkdirFails: bool) returns (r: seq<string>)
      requires Valid()
      modifies this
      ensures Valid()
      ensures r == FormattedDate(path, now)
      ensures entries == AfterMakeFolder(old(entries), FormatDmy(now.date), mkdirFails)
    {
      r := FormattedDate(path, now);
      FormatDmyHasNoSlash(now.date);
      MakeFolder(r[2], mkdirFails);
    }

    /** `make_db_dump("{path}/{date}", time)`; the dump's contents are not modelled. */
    method MakeDbDump(date: string, time: string)
      modifies this
      ensures entries == AfterDump(old(entries), date, time)
    {
      if date in entries && entries[date].Folder? {
        entries := entries[date := Folder(entries[date].names + {DumpName(time)})];
      }
    }

    /** Whether the dump file of `MakeDbDump(date, time)` is present. */
    predicate HasDump(date: string, time: string)
      reads this
    {
      date in entries && entries[date].Folder? && DumpName(time) in entries[date].names
    }

    /** `upload_dumps_to_s3("{path}/{date}", time, date, dump_dir)`: the
        wrapped upload never raises and its response is dropped, so a failure
        of the client (`fault`) only means that nothing is stored. */
    method UploadDumpsToS3(store: Store, date: string, time: string, dumpDir: string, fault: Option<Exception>)
      modifies store
      ensures store.objects == old(store.objects) +
        (if HasDump(date, time) && fault.None? then {CeleryKey(DumpsPrefix(dumpDir, date), DumpPath(path + "/" + date, time))} else {})
      ensures store.lifecycle == old(store.lifecycle)
    {
      var filePath := DumpPath(path + "/" + date, time);
      var _ := store.UploadFileCelery(filePath, DumpsPrefix(dumpDir, date), HasDump(date, time), fault, None);
    }

    /** `upload_db_dump_to_s3(path)`: today's folder, the dump, its upload,
        all from one clock reading. */
    method UploadDbDumpToS3(store: Store, now: Clock, mkdirFails: bool, fault: Option<Exception>)
      requires Valid()
      modifies this, store
      ensures Valid()
      ensures entries == AfterDump(AfterMakeFolder(old(entries), FormatDmy(now.date), mkdirFails),
                                   FormatDmy(now.date), FormatTime(now))
      ensures store.objects == old(store.objects) + (if HasDump(FormatDmy(now.date), FormatTime(now)) && fault.None? then {DumpKey(path, now)} else {})
      ensures store.lifecycle == old(store.lifecycle)
    {
      var current := GetFormattedDate(now, mkdirFails);
      MakeDbDump(current[2], current[1]);
      UploadDumpsToS3(store, current[2], current[1], current[3], fault);
    }

    /** `delete_old_logs(path)`: today's entry survives; `listing` is what
        `os.listdir` returned, in its order. */
    method DeleteOldLogs(today: CivilDate, listing: seq<string>)
      requires Valid()
      modifies this
      ensures Valid()
      ensures entries == Sweep(old(entries), listing, FormatDmy(today))
    {
      var formatted := FormatDmy(today);
      var i := 0;
      while i < |listing|
        invariant 0 <= i <= |listing|
        invariant Valid()
        invariant Sweep(old(entries), listing, formatted) == Sweep(entries, listing[i..], formatted)
      {
        var name := listing[i];
        assert listing[i..][1..] == listing[i + 1..];
        if name != formatted {
          if !(name in entries && entries[name].Folder?) {
            return;
          }
          entries := entries - {name};
        }
        i := i + 1;
      }
    }

    /** `get_old_logs_folder(path)`: the listing precedes the folder
        `get_formatted_date` makes; each selected log is uploaded through
        `upload_logs_to_s3`, whose failures (`faults`, by name) are swallowed. */
    method GetOldLogsFolder(store: Store, now: Clock, mkdirFails: bool, listing: seq<string>,
                            faults: map<string, Exception>)
      requires Valid()
      requires forall i :: 0 <= i < |listing| ==> '/' !in listing[i]
      modifies this, store
      ensures Valid()
      ensures entries == AfterMakeFolder(old(entries), FormatDmy(now.date), mkdirFails)
      ensures store.objects == old(store.objects) + UploadedLogKeys(listing, FormatDmy(now.date), faults)
      ensures store.lifecycle == old(store.lifecycle)
    {
      var current := GetFormattedDate(now, mkdirFails);
      assert current[2] == FormatDmy(now.date);
      UploadTodaysLogs(store, now, listing, faults);
    }

    /** The loop of `get_old_logs_folder` over the listing taken before the
        folder was made. */
    method UploadTodaysLogs(store: Store, now: Clock, listing: seq<string>, faults: map<string, Exception>)
      requires forall i :: 0 <= i < |listing| ==> '/' !in listing[i]
      modifies store
      ensures store.objects == old(store.objects) + UploadedLogKeys(listing, FormatDmy(now.date), faults)
      ensures store.lifecycle == old(store.lifecycle)
    {
      var date := FormatDmy(now.date);
      var i := 0;
      while i < |listing|
        invariant 0 <= i <= |listing|
        invariant store.objects == old(store.objects) + UploadedLogKeys(listing[..i], date, faults)
        invariant store.lifecycle == old(store.lifecycle)
      {
        UploadedLogKeysStep(listing, i, date, faults);
        UploadIfTodays(store, listing[i], now, faults);
        i := i + 1;
      }
      assert listing[..|listing|] == listing;
    }

    /** One step of `get_old_logs_folder`'s loop: a selected name is uploaded
        from this directory. */
    method UploadIfTodays(store: Store, name: string, now: Clock, faults: map<string, Exception>)
      requires '/' !in name
      modifies store
      ensures var date := FormatDmy(now.date);
        store.objects == old(store.objects) +
          (if IsTodaysLog(name, date) && name !in faults then {LogsPrefix(date) + "/" + name} else {})
      ensures store.lifecycle == old(store.lifecycle)
    {
      var date := FormatDmy(now.date);
      if IsTodaysLog(name, date) {
        LastSegmentOfJoin(path, name);
        assert CeleryKey(LogsPrefix(date), path + "/" + name) == LogsPrefix(date) + "/" + name;
        UploadLogsToS3(store, path + "/" + name, now, if name in faults then Some(faults[name]) else None);
      }
    }
  }

  /** `upload_logs_to_s3(file)`: the file goes under `logs/{date}`. The file
      is listed, so it exists; `fault` is a failure of its upload. */
  method UploadLogsToS3(store: Store, filePath: string, now: Clock, fault: Option<Exception>)
    modifies store
    ensures store.objects == old(store.objects) + (if fault.None? then {CeleryKey(LogsPrefix(FormatDmy(now.date)), filePath)} else {})
    ensures store.lifecycle == old(store.lifecycle)
  {
    var _ := store.UploadFileCelery(filePath, LogsPrefix(FormatDmy(now.date)), true, None, fault);
  }

  /** `set_folder_lifecycle(dump_dir, days, s3_dir)`: registers a rule for
      today's folder under `s3_dir`. */
  method SetFolderLifecycle(store: Store, dumpDir: string, days: int, s3Dir: string, now: Clock, freshId: string,
                            fetchFault: Option<Exception>, writeFault: Option<Exception>)
    requires store.Valid()
    modifies store
    ensures store.Valid()
    ensures store.lifecycle ==
      RegisterEffect(old(store.lifecycle), NewRule(freshId, CurrentFolder(dumpDir, s3Dir, now), days), fetchFault, writeFault)
    ensures store.objects == old(store.objects)
  {
    var folder := CurrentFolder(dumpDir, s3Dir, now);
    var _ := store.SetLifecycleRules(folder, days, freshId, fetchFault, writeFault);
  }

  /** `delete_completed_rules()`: one prune pass. */
  method DeleteCompletedRules(store: Store, today: CivilDate, fetchFault: Option<Exception>, writeFault: Option<Exception>)
    requires store.Valid()
    modifies store
    ensures store.Valid()
    ensures store.lifecycle == PruneEffect(old(store.lifecycle), today, fetchFault, writeFault).config
    ensures store.objects == old(store.objects)
  {
    var _ := store.DeleteCompletedRule(today, fetchFault, writeFault);
  }
}
