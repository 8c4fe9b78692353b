/** The object-store client (services/media_service/s3client.py) as a class
    over the bucket's state: its lifecycle configuration, replaced whole by
    every write, and its set of object keys. Transport failures are the
    `fault` parameters of the methods. */
module S3 {
  import opened Outcomes
  import opened Text
  import opened Dates
  import opened Lifecycle

  /** The URL `upload_file` returns for an object name. */
  function ObjectUrl(s3Url: string, bucket: string, objectName: string): (url: string)
    ensures StartsWith(url, s3Url + "/" + bucket + "/")
    ensures '/' !in objectName ==> LastSegment(url) == objectName
  {
    var url := s3Url + "/" + bucket + "/" + objectName;
    StartsWithJoin(s3Url + "/" + bucket + "/", objectName);
    if '/' in objectName then url
    else
      LastSegmentOfJoin(s3Url + "/" + bucket, objectName);
      url
  }

  /** The key `delete_file` deletes for a stored picture link: the media
      folder followed by the last "/" segment of the link. */
  function MediaKey(mediaFolder: string, link: string): (key: string)
    ensures StartsWith(key, mediaFolder) && '/' !in key[|mediaFolder|..]
  {
    StartsWithJoin(mediaFolder, LastSegment(link));
    assert (mediaFolder + LastSegment(link))[|mediaFolder|..] == LastSegment(link);
    mediaFolder + LastSegment(link)
  }

  /** The key `upload_file_celery` stores a local file under. */
  function CeleryKey(s3Path: string, filePath: string): (key: string)
    ensures StartsWith(key, s3Path + "/")
    ensures LastSegment(key) == LastSegment(filePath)
  {
    LastSegmentOfJoin(s3Path, LastSegment(filePath));
    assert (s3Path + "/" + LastSegment(filePath))[..|s3Path + "/"|] == s3Path + "/";
    s3Path + "/" + LastSegment(filePath)
  }

  /** What `upload_file_celery` returns for a failure inside its `try`: the
      HTTP client's ClientError is logged and swallowed, any other exception
      reaches the wrapper. */
  function CeleryFailure(e: Exception): (r: Response<()>)
    ensures r.Ok? <==> e.cls == HttpClientError
    ensures r.Fail? ==> r == ErrorResult(e)
  {
    if e.cls == HttpClientError then Ok(()) else HandleExceptions(Raised(e))
  }

  /** `delete_file` finds the object `upload_file` stored: when the media
      folder is empty or ends with "/" and the file name has no "/", the key
      derived from the returned URL is the uploaded object's name. */
  lemma {:induction false} MediaKeyOfObjectUrl(s3Url: string, bucket: string, mediaFolder: string, fileName: string)
    requires mediaFolder == "" || EndsWith(mediaFolder, "/")
    requires '/' !in fileName
    ensures MediaKey(mediaFolder, ObjectUrl(s3Url, bucket, mediaFolder + fileName)) == mediaFolder + fileName
  {
    if mediaFolder == "" {
      assert ObjectUrl(s3Url, bucket, mediaFolder + fileName) == (s3Url + "/" + bucket) + "/" + fileName;
      LastSegmentOfJoin(s3Url + "/" + bucket, fileName);
    } else {
      var head := mediaFolder[..|mediaFolder| - 1];
      assert mediaFolder == head + "/";
      assert ObjectUrl(s3Url, bucket, mediaFolder + fileName) == (s3Url + "/" + bucket + "/" + head) + "/" + fileName;
      LastSegmentOfJoin(s3Url + "/" + bucket + "/" + head, fileName);
    }
  }

  /** The keys one `delete_file` call deletes for the links, in order. */
  function DeletedKeys(mediaFolder: string, links: seq<string>): (keys: set<string>)
    ensures forall k :: k in keys ==> StartsWith(k, mediaFolder)
    decreases |links|
  {
    if |links| == 0 then {}
    else DeletedKeys(mediaFolder, links[..|links| - 1]) + {MediaKey(mediaFolder, links[|links| - 1])}
  }

  /** One delete per picture: a key is deleted iff it is the key of one of the links. */
  lemma {:induction false} DeletedKeysExactly(mediaFolder: string, links: seq<string>, key: string)
    ensures key in DeletedKeys(mediaFolder, links) <==> exists i :: 0 <= i < |links| && key == MediaKey(mediaFolder, links[i])
    decreases |links|
  {
    if |links| > 0 {
      var init := links[..|links| - 1];
      DeletedKeysExactly(mediaFolder, init, key);
      if key in DeletedKeys(mediaFolder, init) {
        var i :| 0 <= i < |init| && key == MediaKey(mediaFolder, init[i]);
        assert links[i] == init[i];
      }
      if exists i :: 0 <= i < |links| && key == MediaKey(mediaFolder, links[i]) {
        var i :| 0 <= i < |links| && key == MediaKey(mediaFolder, links[i]);
        if i < |links| - 1 {
          assert init[i] == links[i];
        }
      }
    }
  }

  /** The message of the FileNotFoundError `open` raises. */
  function NoSuchFileMessage(path: string): string
  {
    "[Errno 2] No such file or directory: '" + path + "'"
  }

  class Store {
    /** `settings.S3_URL`, `settings.S3_BUCKET_NAME`, `settings.S3_TWEETS_MEDIA_FOLDER` */
    const s3Url: string
    const bucket: string
    const mediaFolder: string
    /** The bucket's lifecycle configuration, or None when it has none. */
    var lifecycle: Option<seq<Rule>>
    /** The keys of the objects in the bucket. */
    var objects: set<string>

    /** The store never holds an empty rule list: it is deleted instead. */
    ghost predicate Valid()
      reads this
    {
      lifecycle != Some([])
    }

    constructor(s3Url: string, bucket: string, mediaFolder: string)
      ensures this.s3Url == s3Url && this.bucket == bucket && this.mediaFolder == mediaFolder
      ensures lifecycle == None && objects == {}
      ensures Valid()
    {
      this.s3Url := s3Url;
      this.bucket := bucket;
      this.mediaFolder := mediaFolder;
      lifecycle := None;
      objects := {};
    }

    /** `get_lifecycle_rules`: the stored rules, or the error record. */
    method GetLifecycleRules(fault: Option<Exception>) returns (r: Response<seq<Rule>>)
      ensures r == FetchResponse(lifecycle, fault)
    {
      if fault.Some? {
        return HandleExceptions(Raised(fault.value));
      }
      if lifecycle.None? {
        return HandleExceptions(Raised(NoSuchLifecycle));
      }
      return Ok(lifecycle.value);
    }

    /** `send_rules`: replaces the configuration whole. Both callers pass a
        non-empty list. A failed write changes nothing and returns the error record. */
    method SendRules(rules: seq<Rule>, fault: Option<Exception>) returns (r: Response<()>)
      requires |rules| > 0
      modifies this
      ensures lifecycle == (if fault.None? then Some(rules) else old(lifecycle))
      ensures objects == old(objects)
      ensures r == (if fault.None? then Ok(()) else HandleExceptions(Raised(fault.value)))
    {
      if fault.Some? {
        return HandleExceptions(Raised(fault.value));
      }
      lifecycle := Some(rules);
      return Ok(());
    }

    /** `delete_bucket_lifecycle`, called without the wrapper: a failure is raised. */
    method DeleteLifecycle(fault: Option<Exception>) returns (raised: Option<Exception>)
      modifies this
      ensures lifecycle == (if fault.None? then None else old(lifecycle))
      ensures objects == old(objects)
      ensures raised == fault
    {
      if fault.None? {
        lifecycle := None;
      }
      return fault;
    }

    /** `set_lifecycle_rules`: fetch, append one rule with the freshly drawn
        id, write back. The wrapped `send_rules` swallows a failed write, so
        the call always reports success. */
    method SetLifecycleRules(folderPrefix: string, days: int, freshId: string,
                             fetchFault: Option<Exception>, writeFault: Option<Exception>) returns (r: Response<()>)
      requires Valid()
      modifies this
      ensures Valid()
      ensures lifecycle == RegisterEffect(old(lifecycle), NewRule(freshId, folderPrefix, days), fetchFault, writeFault)
      ensures objects == old(objects)
      ensures r == Ok(())
    {
      var response := GetLifecycleRules(fetchFault);
      var configuration := RegisteredRules(response, NewRule(freshId, folderPrefix, days));
      var _ := SendRules(configuration, writeFault);
      return Ok(());
    }

    /** The loop of `delete_completed_rule`: each rule whose expiry day plus
        one lies after today is appended to `correct`; the first rule that
        raises ends the loop. */
    method CorrectRules(rules: seq<Rule>, today: CivilDate) returns (f: Filtered)
      ensures f == FilterRules(rules, today)
    {
      var correct: seq<Rule> := [];
      var i := 0;
      while i < |rules|
        invariant 0 <= i <= |rules|
        invariant FilterRules(rules[..i], today) == Survivors(correct)
      {
        var verdict := RuleVerdict(rules[i], today);
        assert rules[..i + 1] == rules[..i] + [rules[i]];
        FilterSnoc(rules[..i], rules[i], today);
        if verdict.Abort? {
          FilterAbortedPrefix(rules, i + 1, today);
          return Aborted(verdict.exc);
        }
        if verdict == Keep {
          correct := correct + [rules[i]];
        }
        i := i + 1;
      }
      assert rules[..|rules|] == rules;
      return Survivors(correct);
    }

    /** `delete_completed_rule`: fetch, filter, then write the survivors or
        delete the configuration; nothing is written before the whole list
        has been filtered. */
    method DeleteCompletedRule(today: CivilDate, fetchFault: Option<Exception>, writeFault: Option<Exception>)
      returns (r: Response<()>)
      requires Valid()
      modifies this
      ensures Valid()
      ensures lifecycle == PruneEffect(old(lifecycle), today, fetchFault, writeFault).config
      ensures r == PruneEffect(old(lifecycle), today, fetchFault, writeFault).report
      ensures objects == old(objects)
    {
      var data := GetLifecycleRules(fetchFault);
      if data.Fail? {
        return PruneReport(NotSubscriptable);
      }
      var f := CorrectRules(data.value, today);
      if f.Aborted? {
        return PruneReport(f.exc);
      }
      var correct := f.kept;
      if |correct| > 0 {
        var _ := SendRules(correct, writeFault);
        return Ok(());
      }
      var raised := DeleteLifecycle(writeFault);
      if raised.Some? {
        return PruneReport(raised.value);
      }
      return Ok(());
    }

    /** `upload_file`: stores the object and returns its URL. */
    method UploadFile(objectName: string, fault: Option<Exception>) returns (r: Response<string>)
      modifies this
      ensures fault.None? ==> r == Ok(ObjectUrl(s3Url, bucket, objectName)) && objects == old(objects) + {objectName}
      ensures fault.Some? ==> r == HandleExceptions(Raised(fault.value)) && objects == old(objects)
      ensures lifecycle == old(lifecycle)
    {
      if fault.Some? {
        return HandleExceptions(Raised(fault.value));
      }
      objects := objects + {objectName};
      return Ok(ObjectUrl(s3Url, bucket, objectName));
    }

    /** `delete_file`: one delete per picture link, in order. `fault` is a
        failure of the delete at the given index, which ends the loop. */
    method DeleteFile(links: seq<string>, fault: Option<(nat, Exception)>) returns (r: Response<()>)
      modifies this
      ensures var fails := fault.Some? && fault.value.0 < |links|;
        objects == old(objects) - DeletedKeys(mediaFolder, links[..if fails then fault.value.0 else |links|]) &&
        r == (if fails then HandleExceptions(Raised(fault.value.1)) else Ok(()))
      ensures lifecycle == old(lifecycle)
    {
      var i := 0;
      while i < |links|
        invariant 0 <= i <= |links|
        invariant fault.Some? ==> i <= fault.value.0
        invariant objects == old(objects) - DeletedKeys(mediaFolder, links[..i])
        invariant lifecycle == old(lifecycle)
      {
        if fault.Some? && fault.value.0 == i {
          return HandleExceptions(Raised(fault.value.1));
        }
        assert links[..i + 1][..i] == links[..i];
        objects := objects - {MediaKey(mediaFolder, links[i])};
        i := i + 1;
      }
      assert links[..|links|] == links;
      return Ok(());
    }

    /** `upload_file_celery`: uploads a local file under `s3Path`. The client
        is opened first (`clientFault`), then the file, then the object is put
        (`putFault`). A missing file raises FileNotFoundError, which reaches
        the wrapper; a failure of the HTTP client is logged and swallowed; any
        other failure reaches the wrapper. */
    method UploadFileCelery(filePath: string, s3Path: string, fileExists: bool,
                            clientFault: Option<Exception>, putFault: Option<Exception>)
      returns (r: Response<()>)
      modifies this
      ensures objects == old(objects) + (if clientFault.None? && fileExists && putFault.None? then {CeleryKey(s3Path, filePath)} else {})
      ensures clientFault.Some? ==> r == CeleryFailure(clientFault.value)
      ensures clientFault.None? && !fileExists ==>
        r == HandleExceptions(Raised(Exception(FileNotFoundError, NoSuchFileMessage(filePath))))
      ensures clientFault.None? && fileExists ==> r == (if putFault.Some? then CeleryFailure(putFault.value) else Ok(()))
      ensures lifecycle == old(lifecycle)
    {
      var objectName := CeleryKey(s3Path, filePath);
      if clientFault.Some? {
        return CeleryFailure(clientFault.value);
      }
      if !fileExists {
        return HandleExceptions(Raised(Exception(FileNotFoundError, NoSuchFileMessage(filePath))));
      }
      if putFault.Some? {
        return CeleryFailure(putFault.value);
      }
      objects := objects + {objectName};
      return Ok(());
    }
  }
}
