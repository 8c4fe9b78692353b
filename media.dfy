/** `MediaService` (services/media_service/service.py): the extension
    check, the stored object's name, and the upload-then-insert sequence. */
module Media {
  import opened Outcomes
  import opened Text
  import opened Dates
  import opened Db
  import opened S3

  /** `ALLOWED_EXTENSIONS_FOR_FILE`, in the order of config.py. */
  const AllowedExtensions: seq<string> :=
    ["jpeg", "png", "ico", "gif", "tiff", "webp", "eps", "svg", "psd", "indd", "cdr", "ai", "raw", "jpg", "heic"]

  /** The last of the "/"-separated parts that is neither empty nor ".":
      how a POSIX `PurePath` parses a name, where repeated and trailing
      separators and "." parts vanish. */
  function LastName(parts: seq<string>): (r: string)
    ensures r == "" || exists i :: 0 <= i < |parts| && parts[i] == r
    ensures r != "."
    decreases |parts|
  {
    if |parts| == 0 then ""
    else
      var last := parts[|parts| - 1];
      if last == "" || last == "." then
        var r := LastName(parts[..|parts| - 1]);
        assert r != "" ==> exists i :: 0 <= i < |parts| && parts[i] == r by {
          if r != "" {
            var i :| 0 <= i < |parts| - 1 && parts[..|parts| - 1][i] == r;
            assert parts[i] == r;
          }
        }
        r
      else last
  }

  /** `Path(s).name` */
  function PathName(s: string): (name: string)
    ensures '/' !in name
  {
    var parts := Split(s, '/');
    var name := LastName(parts);
    assert name != "" ==> '/' !in name by {
      if name != "" {
        var i :| 0 <= i < |parts| && parts[i] == name;
      }
    }
    name
  }

  /** `s.rfind(c)`: the index of the last `c`, or -1 when there is none. */
  function RFind(s: string, c: char): (i: int)
    ensures -1 <= i < |s|
    ensures 0 <= i ==> s[i] == c
    ensures forall k :: i < k < |s| ==> s[k] != c
    decreases |s|
  {
    if |s| == 0 then -1
    else if s[|s| - 1] == c then |s| - 1
    else RFind(s[..|s| - 1], c)
  }

  /** `PurePath.suffix` of a name: from its last "." on, unless that dot
      is the first or the last character. */
  function Suffix(name: string): (suf: string)
    ensures suf == "" || (|suf| >= 2 && suf[0] == '.' && EndsWith(name, suf))
    ensures forall k :: 0 < k < |suf| ==> suf[k] != '.'
  {
    var i := RFind(name, '.');
    if 0 < i < |name| - 1 then name[i..] else ""
  }

  /** `Path(file_name).suffix[1:].lower()` */
  function FileExtension(fileName: string): (ext: string)
    ensures '.' !in ext && '/' !in ext
  {
    var name := PathName(fileName);
    var suf := Suffix(name);
    if |suf| == 0 then ""
    else
      var ext := Lower(suf[1..]);
      assert forall k :: 0 <= k < |ext| ==> ext[k] != '.' && ext[k] != '/' by {
        forall k | 0 <= k < |ext| ensures ext[k] != '.' && ext[k] != '/' {
          assert suf[k + 1] == name[|name| - |suf| + k + 1];
        }
      }
      ext
  }

  /** The extension `upload_picture` looks at: `_get_file_extension` returns
      None, through `logger.catch`, when the upload has no file name. */
  function UploadExtension(fileName: Option<string>): (ext: Option<string>)
    ensures ext.None? <==> fileName.None?
    ensures ext.Some? ==> '.' !in ext.value && '/' !in ext.value
  {
    if fileName.None? then None else Some(FileExtension(fileName.value))
  }

  predicate Allowed(ext: Option<string>)
    ensures Allowed(ext) ==> ext.Some? && 2 <= |ext.value| <= 4 && forall i :: 0 <= i < |ext.value| ==> 'a' <= ext.value[i] <= 'z'
  {
    ext.Some? && ext.value in AllowedExtensions
  }

  /** A name without a dot has no extension. */
  lemma NoDotNoExtension(fileName: string)
    requires '.' !in fileName
    ensures FileExtension(fileName) == ""
  {
    var name := PathName(fileName);
    assert '.' !in name by {
      if name != "" {
        var parts := Split(fileName, '/');
        var i :| 0 <= i < |parts| && parts[i] == name;
        SplitPiecesFromString(fileName, '/', i);
      }
    }
  }

  /** Every character of a piece of `Split(s, c)` is a character of `s`. */
  lemma {:induction false} SplitPiecesFromString(s: string, c: char, i: int)
    requires 0 <= i < |Split(s, c)|
    ensures forall ch :: ch in Split(s, c)[i] ==> ch in s
    decreases |s|
  {
    if |s| > 0 {
      if s[0] == c {
        if i > 0 {
          SplitPiecesFromString(s[1..], c, i - 1);
        }
      } else {
        var rest := Split(s[1..], c);
        if i == 0 {
          SplitPiecesFromString(s[1..], c, 0);
          assert Split(s, c)[0] == [s[0]] + rest[0];
        } else {
          SplitPiecesFromString(s[1..], c, i);
          assert Split(s, c)[i] == rest[i];
        }
      }
    }
  }

  /** `stem.ext` with a non-empty stem and a dot-free extension has that
      extension, folded to lower case. */
  lemma ExtensionOfPlainName(stem: string, ext: string)
    requires |stem| > 0 && |ext| > 0
    requires '/' !in stem && '/' !in ext && '.' !in ext
    ensures FileExtension(stem + "." + ext) == Lower(ext)
  {
    var name := stem + "." + ext;
    assert '/' !in name;
    SplitWithoutSeparator(name, '/');
    assert PathName(name) == name;
    assert RFind(name, '.') == |stem| by {
      RFindAfter(stem, ext);
    }
    assert Suffix(name)[1..] == ext;
  }

  lemma {:induction false} RFindAfter(stem: string, ext: string)
    requires '.' !in ext
    ensures RFind(stem + "." + ext, '.') == |stem|
    decreases |ext|
  {
    var s := stem + "." + ext;
    if |ext| > 0 {
      assert s[..|s| - 1] == stem + "." + ext[..|ext| - 1];
      RFindAfter(stem, ext[..|ext| - 1]);
    }
  }

  /** A directory part before the name does not change the extension. */
  lemma ExtensionIgnoresDirectory(dir: string, name: string)
    requires '/' !in name && name != "" && name != "."
    ensures FileExtension(dir + "/" + name) == FileExtension(name)
  {
    SplitLastPiece(dir, name);
    var parts := Split(dir + "/" + name, '/');
    assert LastName(parts) == name;
    assert PathName(dir + "/" + name) == name;
    SplitWithoutSeparator(name, '/');
    assert LastName([name]) == name;
    assert PathName(name) == name;
  }

  /** A name whose only dot leads it (".bashrc") has no extension, and
      neither has a name ending in a dot. */
  lemma DotAtEitherEndNoExtension(stem: string)
    requires '/' !in stem && '.' !in stem && stem != ""
    ensures FileExtension("." + stem) == ""
    ensures FileExtension(stem + ".") == ""
  {
    SplitWithoutSeparator("." + stem, '/');
    assert LastName(["." + stem]) == "." + stem;
    assert RFind("." + stem, '.') == 0 by {
      RFindAfter("", stem);
    }
    SplitWithoutSeparator(stem + ".", '/');
    assert LastName([stem + "."]) == stem + ".";
  }

  /** "photo.JPG" has the allowed extension "jpg". */
  lemma UpperCaseExtensionExample()
    ensures UploadExtension(Some("photo.JPG")) == Some("jpg")
  {
    ExtensionOfPlainName("photo", "JPG");
    assert "photo" + "." + "JPG" == "photo.JPG";
    LowerJpg();
  }

  lemma LowerJpg()
    ensures Lower("JPG") == "jpg"
  {
    var low := Lower("JPG");
    assert low[0] == 'j' && low[1] == 'p' && low[2] == 'g';
  }

  /** Only the last suffix counts: "archive.tar.gz" has extension "gz". */
  lemma DoubleSuffixExample()
    ensures UploadExtension(Some("archive.tar.gz")) == Some("gz")
  {
    ExtensionOfPlainName("archive.tar", "gz");
    assert "archive.tar" + "." + "gz" == "archive.tar.gz";
    assert Lower("gz") == "gz";
  }

  /** The object name `upload_picture` gives an accepted file. */
  function MediaName(mediaFolder: string, uuid: string, today: CivilDate, ext: string): (name: string)
    ensures StartsWith(name, mediaFolder + uuid + "-")
    ensures EndsWith(name, "." + ext)
  {
    mediaFolder + uuid + "-" + FormatIso(today) + "." + ext
  }

  lemma FormatIsoHasNoSlash(d: CivilDate)
    ensures '/' !in FormatIso(d)
  {
    NoDotInDigits(Pad4(d.year));
    NoDotInDigits(Pad2(d.month));
    NoDotInDigits(Pad2(d.day));
  }

  /** A stored picture can be deleted: the key `delete_file` derives from the
      link `upload_picture` stored is the uploaded object's name. */
  lemma UploadedPictureIsDeletable(s3Url: string, bucket: string, mediaFolder: string,
                                   uuid: string, today: CivilDate, ext: string)
    requires mediaFolder == "" || EndsWith(mediaFolder, "/")
    requires '/' !in uuid && '/' !in ext
    ensures var name := MediaName(mediaFolder, uuid, today, ext);
      MediaKey(mediaFolder, ObjectUrl(s3Url, bucket, name)) == name
  {
    var date := FormatIso(today);
    FormatIsoHasNoSlash(today);
    var file := uuid + "-" + date + "." + ext;
    assert '/' !in file by {
      assert file == uuid + ("-" + date + "." + ext);
    }
    assert MediaName(mediaFolder, uuid, today, ext) == mediaFolder + file;
    MediaKeyOfObjectUrl(s3Url, bucket, mediaFolder, file);
  }

  /** The error record of a rejected extension. */
  const RejectedExtension: Response<int> :=
    Fail("Authorization failed", "Authentication failed: invalid credentials. Status code: 415")

  /** `str(e)` of the ValidationError `DataBaseLoadSchema` raises when
      `upload_file` handed back an error record instead of a link; pydantic's
      full text is not modelled. */
  const LinkValidationMessage := "1 validation error for DataBaseLoadSchema"

  class MediaService {
    const db: Database
    const store: Store

    constructor(db: Database, store: Store)
      ensures this.db == db && this.store == store
    {
      this.db := db;
      this.store := store;
    }

    /** `upload_picture`: check the extension, rename, compress, upload,
        insert. `uuid` and `today` are the drawn `uuid4()` and the current
        date; `compressFault`, `uploadFault` and `dbFault` are failures of
        `compress_image`, of the store write and of the insert. A failed insert
        leaves the uploaded object in the store. The method's own `except`
        clauses, and those of `_write_file` and `_load_into_the_database`,
        build the record `handle_exceptions` would, so nothing reaches the
        decorator. */
    method UploadPicture(fileName: Option<string>, uuid: string, today: CivilDate,
                         compressFault: Option<Exception>, uploadFault: Option<Exception>,
                         dbFault: Option<Exception>, freshPicId: int)
      returns (r: Response<int>)
      requires db.Valid() && freshPicId !in db.pictures
      modifies db, store
      ensures db.Valid()
      ensures !Allowed(UploadExtension(fileName)) ==>
        r == RejectedExtension && db.pictures == old(db.pictures) && store.objects == old(store.objects)
      ensures Allowed(UploadExtension(fileName)) && compressFault.Some? ==>
        r == ErrorResult(compressFault.value) && db.pictures == old(db.pictures) && store.objects == old(store.objects)
      ensures Allowed(UploadExtension(fileName)) && compressFault.None? ==>
        var name := MediaName(store.mediaFolder, uuid, today, UploadExtension(fileName).value);
        if uploadFault.Some? then
          r == ErrorResult(Exception(ValidationError, LinkValidationMessage)) &&
          db.pictures == old(db.pictures) && store.objects == old(store.objects)
        else
          store.objects == old(store.objects) + {name} &&
          if dbFault.Some? then
            r == ErrorResult(dbFault.value) && db.pictures == old(db.pictures)
          else
            r == Ok(freshPicId) &&
            db.pictures == old(db.pictures)[freshPicId := ObjectUrl(store.s3Url, store.bucket, name)]
      ensures db.users == old(db.users) && db.tweets == old(db.tweets) && db.likes == old(db.likes)
      ensures db.media == old(db.media) && db.subscriptions == old(db.subscriptions)
      ensures store.lifecycle == old(store.lifecycle)
    {
      var ext := UploadExtension(fileName);
      if !Allowed(ext) {
        return RejectedExtension;
      }
      var name := MediaName(store.mediaFolder, uuid, today, ext.value);
      if compressFault.Some? {
        return ErrorResult(compressFault.value);
      }
      var link := store.UploadFile(name, uploadFault);
      if link.Fail? {
        return ErrorResult(Exception(ValidationError, LinkValidationMessage));
      }
      if dbFault.Some? {
        return ErrorResult(dbFault.value);
      }
      db.pictures := db.pictures[freshPicId := link.value];
      return Ok(freshPicId);
    }
  }
}
