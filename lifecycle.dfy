/** The lifecycle rule engine of the object-store client
    (services/media_service/s3client.py): the rule a registration appends,
    the keep/drop verdict of the pruner, and what one registration or one
    prune pass does to the store's whole lifecycle configuration. */
module Lifecycle {
  import opened Outcomes
  import opened Text
  import opened Dates

  /** One rule of the configuration:
      `{ID, Status, Filter: {Prefix}, Expiration: {Days}}`. `prefix` and `days`
      are absent when the store holds a rule of another shape (written by
      another tool); the pruner's lookups then raise KeyError. */
  datatype Rule = Rule(id: string, status: string, prefix: Option<string>, days: Option<int>)

  /** The rule `set_lifecycle_rules` builds around a freshly generated id. */
  function NewRule(id: string, folderPrefix: string, days: int): Rule
  {
    Rule(id, "Enabled", Some(folderPrefix), Some(days))
  }

  /** The error the store raises when the bucket has no lifecycle configuration. */
  const NoSuchLifecycle := Exception(StoreClientError,
    "An error occurred (NoSuchLifecycleConfiguration) when calling the GetBucketLifecycleConfiguration operation: The lifecycle configuration does not exist")

  /** What the `handle_exceptions`-wrapped `get_lifecycle_rules` returns for
      the stored configuration: `{Rules: ...}`, or an error record when there
      is none or when the transport fails. */
  function FetchResponse(config: Option<seq<Rule>>, fault: Option<Exception>): (r: Response<seq<Rule>>)
    ensures r.Ok? <==> fault.None? && config.Some?
    ensures r.Ok? ==> r.value == config.value
    ensures config.None? && fault.None? ==> r == HandleExceptions(Raised(NoSuchLifecycle))
  {
    if fault.Some? then HandleExceptions(Raised(fault.value))
    else if config.None? then HandleExceptions(Raised(NoSuchLifecycle))
    else Ok(config.value)
  }

  /** The configuration `set_lifecycle_rules` writes: the fetched rules in
      their order followed by the new rule. An error record has no "Rules",
      so after a failed fetch the new rule is written alone. */
  function RegisteredRules(fetched: Response<seq<Rule>>, rule: Rule): (rules: seq<Rule>)
    ensures |rules| >= 1 && rules[|rules| - 1] == rule
    ensures fetched.Ok? ==> |rules| == |fetched.value| + 1 && rules[..|fetched.value|] == fetched.value
    ensures fetched.Fail? ==> rules == [rule]
  {
    if fetched.Ok? then fetched.value + [rule] else [rule]
  }

  /** No two rules share an id. */
  predicate DistinctIds(rules: seq<Rule>)
  {
    forall i, j :: 0 <= i < j < |rules| ==> rules[i].id != rules[j].id
  }

  /** A fresh id keeps the ids of the configuration distinct. */
  lemma RegisterKeepsIdsDistinct(fetched: Response<seq<Rule>>, freshId: string, folderPrefix: string, days: int)
    requires fetched.Ok? ==> DistinctIds(fetched.value)
    requires fetched.Ok? ==> forall i :: 0 <= i < |fetched.value| ==> fetched.value[i].id != freshId
    ensures DistinctIds(RegisteredRules(fetched, NewRule(freshId, folderPrefix, days)))
  {
  }

  /** The effect of one `set_lifecycle_rules` call on the configuration: a
      failed write (swallowed by the wrapped `send_rules`) leaves it as it was. */
  function RegisterEffect(config: Option<seq<Rule>>, rule: Rule, fetchFault: Option<Exception>,
                          writeFault: Option<Exception>): (after: Option<seq<Rule>>)
    ensures writeFault.Some? ==> after == config
    ensures writeFault.None? ==> after.Some? && |after.value| >= 1 && after.value[|after.value| - 1] == rule
  {
    if writeFault.Some? then config else Some(RegisteredRules(FetchResponse(config, fetchFault), rule))
  }

  /** A successful registration grows an existing configuration by exactly
      one rule at the end and keeps the others in order; on an empty bucket
      the configuration becomes the new rule alone. */
  lemma RegisterGrowsByOne(config: Option<seq<Rule>>, rule: Rule)
    ensures var after := RegisterEffect(config, rule, None, None);
      after.Some? &&
      (config.Some? ==> after.value == config.value + [rule]) &&
      (config.None? ==> after.value == [rule])
  {
  }

  /** A fetch that fails for any reason other than a missing configuration
      still leads to a write of the new rule alone: the rules already stored
      are overwritten. */
  lemma RegisterAfterFailedFetch(config: Option<seq<Rule>>, rule: Rule, fault: Exception)
    ensures RegisterEffect(config, rule, Some(fault), None) == Some([rule])
  {
  }

  /** The pruner's decision about one rule. */
  datatype Verdict = Keep | Drop | Abort(exc: Exception)

  const MaxDeltaDays := 999999999

  /** `delete_completed_rule`'s loop body for one rule: parse the last "/"
      segment of the prefix as `%d.%m.%Y`, add `Days + 1` days, and keep the
      rule iff that date is strictly after today. Each lookup or conversion
      that Python would fail on gives the exception it raises. */
  function RuleVerdict(rule: Rule, today: CivilDate): (v: Verdict)
    ensures !v.Abort? ==>
      rule.prefix.Some? && rule.days.Some? && ParseDmy(LastSegment(rule.prefix.value)).Some?
    ensures v.Abort? ==> v.exc.cls == KeyError || v.exc.cls == ValueError || v.exc.cls == OverflowError
  {
    match rule.prefix
    case None => Abort(Exception(KeyError, "'Prefix'"))
    case Some(p) =>
      var dateStr := LastSegment(p);
      match ParseDmy(dateStr)
      case None => Abort(StrptimeFailure(dateStr))
      case Some(d) =>
        match rule.days
        case None => Abort(Exception(KeyError, "'Days'"))
        case Some(n) =>
          var delta := n + 1;
          if delta < -MaxDeltaDays || delta > MaxDeltaDays then
            Abort(Exception(OverflowError, "days=" + IntToString(delta) + "; must have magnitude <= 999999999"))
          else
            var nextDay := Ordinal(d) + delta;
            if nextDay < 1 || nextDay > MaxOrdinal then Abort(Exception(OverflowError, "date value out of range"))
            else if nextDay > Ordinal(today) then Keep
            else Drop
  }

  /** The keep predicate in calendar terms: a well-formed rule dated `d` with
      `n` days survives iff `d + (n + 1)` days lies strictly after today. */
  lemma {:induction false} VerdictOfDatedRule(rule: Rule, d: CivilDate, n: int, today: CivilDate)
    requires rule.prefix.Some? && ParseDmy(LastSegment(rule.prefix.value)) == Some(d)
    requires rule.days == Some(n)
    requires 1 <= Ordinal(d) + n + 1 <= MaxOrdinal
    ensures RuleVerdict(rule, today) == Keep <==> Ordinal(d) + n + 1 > Ordinal(today)
    ensures RuleVerdict(rule, today) == Drop <==> Ordinal(d) + n + 1 <= Ordinal(today)
  {
    assert -MaxDeltaDays <= n + 1 <= MaxDeltaDays;
  }

  /** The folder a registration writes on 01.01.2024 reads back as that day. */
  lemma NewYearFolderDate()
    ensures ParseDmy(LastSegment("backup_database/hour/01.01.2024")) == Some(Date(2024, 1, 1))
  {
    var d: CivilDate := Date(2024, 1, 1);
    var date := FormatDmy(d);
    assert date == "01.01.2024";
    assert "backup_database/hour" + "/" + date == "backup_database/hour/01.01.2024";
    FormatDmyHasNoSlash(d);
    LastSegmentOfJoin("backup_database/hour", date);
    ParseFormatDmy(d);
  }

  /** The boundary of the strict comparison: a rule for 01.01.2024 with 3 days
      is kept on 04.01.2024 and dropped on 05.01.2024. */
  lemma PruneBoundaryExample()
    ensures RuleVerdict(NewRule("id", "backup_database/hour/01.01.2024", 3), Date(2024, 1, 4)) == Keep
    ensures RuleVerdict(NewRule("id", "backup_database/hour/01.01.2024", 3), Date(2024, 1, 5)) == Drop
  {
    var rule := NewRule("id", "backup_database/hour/01.01.2024", 3);
    NewYearFolderDate();
    VerdictOfDatedRule(rule, Date(2024, 1, 1), 3, Date(2024, 1, 4));
    VerdictOfDatedRule(rule, Date(2024, 1, 1), 3, Date(2024, 1, 5));
  }

  /** The result of the pruner's loop: the survivors, or the first exception. */
  datatype Filtered = Survivors(kept: seq<Rule>) | Aborted(exc: Exception)

  /** The pruner's loop over the rules in order, appending each kept rule to
      `correct_rules`; the first exception ends the loop. */
  function FilterRules(rules: seq<Rule>, today: CivilDate): (f: Filtered)
    ensures f.Survivors? ==> |f.kept| <= |rules|
    decreases |rules|
  {
    if |rules| == 0 then Survivors([])
    else
      var last := rules[|rules| - 1];
      match FilterRules(rules[..|rules| - 1], today)
      case Aborted(e) => Aborted(e)
      case Survivors(kept) =>
        match RuleVerdict(last, today)
        case Keep => Survivors(kept + [last])
        case Drop => Survivors(kept)
        case Abort(e) => Aborted(e)
  }

  /** The loop ends normally iff no rule raises, and then a rule is among the
      survivors iff it is one of the rules and its verdict is Keep. */
  lemma {:induction false} FilterKeepsExactly(rules: seq<Rule>, today: CivilDate)
    ensures FilterRules(rules, today).Survivors? <==> forall i :: 0 <= i < |rules| ==> !RuleVerdict(rules[i], today).Abort?
    ensures FilterRules(rules, today).Survivors? ==>
      forall r :: r in FilterRules(rules, today).kept <==> r in rules && RuleVerdict(r, today) == Keep
    decreases |rules|
  {
    if |rules| > 0 {
      var init, last := rules[..|rules| - 1], rules[|rules| - 1];
      assert rules == init + [last];
      FilterKeepsExactly(init, today);
      FilterSnoc(init, last, today);
      if FilterRules(init, today).Aborted? {
        var i :| 0 <= i < |init| && RuleVerdict(init[i], today).Abort?;
        assert rules[i] == init[i];
      }
    }
  }

  /** The exception that ends the loop is that of the first rule whose
      verdict is Abort. */
  lemma {:induction false} FilterAbortsAtFirst(rules: seq<Rule>, today: CivilDate)
    requires FilterRules(rules, today).Aborted?
    ensures exists i :: (0 <= i < |rules| && RuleVerdict(rules[i], today) == Abort(FilterRules(rules, today).exc) &&
                         forall j :: 0 <= j < i ==> !RuleVerdict(rules[j], today).Abort?)
    decreases |rules|
  {
    var init, last := rules[..|rules| - 1], rules[|rules| - 1];
    assert rules == init + [last];
    FilterSnoc(init, last, today);
    var f := FilterRules(init, today);
    if f.Aborted? {
      FilterAbortsAtFirst(init, today);
      var i :| 0 <= i < |init| && RuleVerdict(init[i], today) == Abort(f.exc) &&
        (forall j :: 0 <= j < i ==> !RuleVerdict(init[j], today).Abort?);
      assert rules[i] == init[i];
      assert forall j :: 0 <= j < i ==> rules[j] == init[j];
    } else {
      FilterKeepsExactly(init, today);
      var i := |rules| - 1;
      assert forall j :: 0 <= j < i ==> rules[j] == init[j];
    }
  }

  /** The loop preserves order: the survivors of `a + b` are the survivors of
      `a` followed by the survivors of `b`, and an exception in `a` comes first. */
  lemma {:induction false} FilterConcat(a: seq<Rule>, b: seq<Rule>, today: CivilDate)
    ensures FilterRules(a + b, today) ==
      match FilterRules(a, today)
      case Aborted(e) => Aborted(e)
      case Survivors(ka) =>
        match FilterRules(b, today)
        case Aborted(e) => Aborted(e)
        case Survivors(kb) => Survivors(ka + kb)
    decreases |b|
  {
    if |b| == 0 {
      assert a + b == a;
    } else {
      var binit := b[..|b| - 1];
      FilterConcat(a, binit, today);
      assert (a + b)[..|a + b| - 1] == a + binit;
      assert (a + b)[|a + b| - 1] == b[|b| - 1];
      match FilterRules(a, today)
      case Aborted(e) =>
      case Survivors(ka) =>
        match FilterRules(binit, today)
        case Aborted(e) =>
        case Survivors(kb) =>
          assert ka + kb + [b[|b| - 1]] == ka + (kb + [b[|b| - 1]]);
    }
  }

  /** Every survivor is kept on its own. */
  lemma {:induction false} SurvivorsAreKept(rules: seq<Rule>, today: CivilDate)
    requires FilterRules(rules, today).Survivors?
    ensures forall i :: 0 <= i < |FilterRules(rules, today).kept| ==>
      RuleVerdict(FilterRules(rules, today).kept[i], today) == Keep
  {
    FilterKeepsExactly(rules, today);
  }

  /** One more rule at the end: the loop's last step. */
  lemma FilterSnoc(init: seq<Rule>, last: Rule, today: CivilDate)
    ensures FilterRules(init + [last], today) ==
      match FilterRules(init, today)
      case Aborted(e) => Aborted(e)
      case Survivors(kept) =>
        match RuleVerdict(last, today)
        case Keep => Survivors(kept + [last])
        case Drop => Survivors(kept)
        case Abort(e) => Aborted(e)
  {
    assert (init + [last])[..|init|] == init;
  }

  /** Once a prefix of the rules raises, the rest of the loop is never run. */
  lemma {:induction false} FilterAbortedPrefix(rules: seq<Rule>, i: nat, today: CivilDate)
    requires i <= |rules| && FilterRules(rules[..i], today).Aborted?
    ensures FilterRules(rules, today) == FilterRules(rules[..i], today)
    decreases |rules|
  {
    if i == |rules| {
      assert rules[..i] == rules;
    } else {
      var init := rules[..|rules| - 1];
      assert init[..i] == rules[..i];
      FilterAbortedPrefix(init, i, today);
    }
  }

  /** A list every member of which is kept passes the loop unchanged. */
  lemma {:induction false} FilterOfKept(rules: seq<Rule>, today: CivilDate)
    requires forall i :: 0 <= i < |rules| ==> RuleVerdict(rules[i], today) == Keep
    ensures FilterRules(rules, today) == Survivors(rules)
    decreases |rules|
  {
    if |rules| > 0 {
      var init, last := rules[..|rules| - 1], rules[|rules| - 1];
      assert rules == init + [last];
      FilterOfKept(init, today);
      FilterSnoc(init, last, today);
    }
  }

  /** Pruning is idempotent for a fixed day: filtering the survivors again
      returns them unchanged. */
  lemma FilterIdempotent(rules: seq<Rule>, today: CivilDate)
    requires FilterRules(rules, today).Survivors?
    ensures FilterRules(FilterRules(rules, today).kept, today) == FilterRules(rules, today)
  {
    SurvivorsAreKept(rules, today);
    FilterOfKept(FilterRules(rules, today).kept, today);
  }

  /** What `delete_completed_rule` returns for an exception raised inside its
      `try`: TypeError and the HTTP client's ClientError are logged as "No
      rules found" and the call returns normally; any other exception reaches
      `handle_exceptions`, which turns it into an error record. */
  function PruneReport(e: Exception): (r: Response<()>)
    ensures r.Ok? <==> e.cls == TypeError || e.cls == HttpClientError
  {
    if e.cls == TypeError || e.cls == HttpClientError then Ok(()) else HandleExceptions(Raised(e))
  }

  /** Subscripting the error record that a failed fetch returns. */
  const NotSubscriptable := Exception(TypeError, "'ExceptionSchema' object is not subscriptable")

  /** The configuration after a prune pass, and what the call returns. */
  datatype PruneResult = PruneResult(config: Option<seq<Rule>>, report: Response<()>)

  /** One `delete_completed_rule` pass: fetch, filter, then write the survivors
      or, when none survive, delete the configuration. `send_rules` swallows a
      failed write; a failed delete raises inside the `try`. */
  function PruneEffect(config: Option<seq<Rule>>, today: CivilDate, fetchFault: Option<Exception>,
                       writeFault: Option<Exception>): (r: PruneResult)
    ensures r.report.Fail? ==> r.config == config
  {
    var fetched := FetchResponse(config, fetchFault);
    if fetched.Fail? then PruneResult(config, PruneReport(NotSubscriptable))
    else
      match FilterRules(fetched.value, today)
      case Aborted(e) => PruneResult(config, PruneReport(e))
      case Survivors(kept) =>
        if |kept| > 0 then PruneResult(if writeFault.Some? then config else Some(kept), Ok(()))
        else if writeFault.Some? then PruneResult(config, PruneReport(writeFault.value))
        else PruneResult(None, Ok(()))
  }

  /** The configuration after a pass in which the store does not fail. */
  function Pruned(config: Option<seq<Rule>>, today: CivilDate): (after: Option<seq<Rule>>)
    ensures config != Some([]) ==> after != Some([])
    ensures config.None? ==> after.None?
  {
    PruneEffect(config, today, None, None).config
  }

  /** Nothing is written before the whole list has been filtered: a failed
      fetch, a rule that raises, or a failed write leaves the configuration as
      it was; otherwise the survivors replace it, or it is deleted when there
      are none, and it is never written as an empty list. */
  lemma PruneOutcome(config: Option<seq<Rule>>, today: CivilDate, fetchFault: Option<Exception>,
                     writeFault: Option<Exception>)
    ensures var after := PruneEffect(config, today, fetchFault, writeFault).config;
      (fetchFault.Some? || config.None? || writeFault.Some? ==> after == config) &&
      (config.Some? && FilterRules(config.value, today).Aborted? ==> after == config) &&
      (config.Some? && fetchFault.None? && writeFault.None? && FilterRules(config.value, today).Survivors? ==>
         var kept := FilterRules(config.value, today).kept;
         after == if |kept| > 0 then Some(kept) else None) &&
      (config != Some([]) ==> after != Some([]))
  {
  }

  /** Running the pruner twice on the same day changes nothing the second time. */
  lemma PruneIdempotent(config: Option<seq<Rule>>, today: CivilDate)
    ensures Pruned(Pruned(config, today), today) == Pruned(config, today)
  {
    if config.Some? && FilterRules(config.value, today).Survivors? {
      var kept := FilterRules(config.value, today).kept;
      if |kept| > 0 {
        FilterIdempotent(config.value, today);
      }
    }
  }
}
