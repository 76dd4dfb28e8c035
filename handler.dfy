/** The Lambda entry point: read the first record of the S3 notification,
    derive the thumbnail's location, check the key's image type, and hand
    the job to the stage pipeline. Every rejection is a bare `return`. */
module Handler {
  import opened ImageTypes
  import opened Pipeline

  /** The bucket name and object key of one notification record. */
  datatype S3Record = S3Record(bucket: string, key: string)

  /** The notification; only `Records[0]` is read. */
  datatype Event = Event(records: seq<S3Record>)

  const BucketSuffix: string := "-thumbnails"
  const KeyPrefix: string := "thumb-"

  /** Where the handler's checks leave an event. */
  datatype Decision =
    | NoRecord       // `event.Records[0]` is undefined: reading `.s3` throws
    | SameBucket     // source and destination bucket coincide
    | NoExtension    // the key does not match `/\.([^.]*)$/`
    | NotAnImage     // the extension is not on the allow-list
    | Proceed(job: Job)

  /** The handler's checks, in the order it makes them. */
  function Decide(event: Event): (d: Decision)
    ensures d == NoRecord <==> event.records == []
    // The same-bucket guard never fires: a suffixed name is longer.
    ensures d != SameBucket
    ensures d == NoExtension <==> event.records != [] && '.' !in event.records[0].key
    ensures d == NotAnImage <==>
      && event.records != []
      && Extension(event.records[0].key).Some?
      && !IsValidImageType(Extension(event.records[0].key).value)
    // The job always comes from the first record, with derived destinations
    // and the extension in its original case.
    ensures d.Proceed? ==>
      var r := event.records[0];
      && d.job.srcBucket == r.bucket && d.job.srcKey == r.key
      && d.job.dstBucket == r.bucket + BucketSuffix
      && d.job.dstKey == KeyPrefix + r.key
      && Extension(r.key) == Some(d.job.imageType)
      && IsValidImageType(d.job.imageType)
  {
    if event.records == [] then NoRecord
    else
      var srcBucket := event.records[0].bucket;
      var srcKey := event.records[0].key;
      var dstBucket := srcBucket + BucketSuffix;
      var dstKey := KeyPrefix + srcKey;
      if srcBucket == dstBucket then SameBucket
      else
        match Extension(srcKey)
        case None => NoExtension
        case Some(imageType) =>
          if !IsValidImageType(imageType) then NotAnImage
          else Proceed(Job(srcBucket, srcKey, dstBucket, dstKey, imageType))
  }

  /** `exports.handler`: decide, then run the pipeline on a job. Storage and
      the image library are touched exactly when the first record's key has
      an extension that is on the allow-list; a rejected event gets no
      context call at all. */
  method Handle(env: Collaborators, event: Event) returns (trace: seq<Call>, report: Report)
    ensures trace != [] <==>
      && event.records != []
      && Extension(event.records[0].key).Some?
      && IsValidImageType(Extension(event.records[0].key).value)
    ensures event.records == [] ==> trace == [] && report == Thrown
    ensures event.records != [] && trace == [] ==> report == SilentReturn
    ensures trace != [] ==>
      && trace[0] == GetObject(Location(event.records[0].bucket, event.records[0].key))
      && (report.Fail? || report.Succeed?)
    ensures forall i :: 0 <= i < |trace| ==> trace[i].Stage() == i
    ensures |trace| > 3 ==>
      trace[3].PutObject? && trace[3].target == Location(event.records[0].bucket + BucketSuffix, KeyPrefix + event.records[0].key)
    // The upload never overwrites the object it was made from.
    ensures |trace| > 3 ==> trace[3].target != trace[0].source
    ensures |trace| > 4 ==>
      trace[4].GetSignedUrl? && trace[4].target == Location(event.records[0].bucket + BucketSuffix, KeyPrefix + event.records[0].key)
    // A failure report carries the error of the call that failed, the last one made.
    ensures report.Fail? ==> Reply(env, trace[|trace| - 1]).Err? && report.error == Reply(env, trace[|trace| - 1]).error
    ensures report.Succeed? ==> |trace| == StageCount && Reply(env, trace[4]).Ok?
    ensures report.Succeed? ==>
      var r := event.records[0];
      report.record == SuccessRecord(r.bucket, r.key, r.bucket + BucketSuffix, KeyPrefix + r.key, Reply(env, trace[4]).value.url)
  {
    var d := Decide(event);
    match d
    case NoRecord =>
      trace, report := [], Thrown;
    case SameBucket =>
      trace, report := [], SilentReturn;
    case NoExtension =>
      trace, report := [], SilentReturn;
    case NotAnImage =>
      trace, report := [], SilentReturn;
    case Proceed(job) =>
      trace, report := Process(env, job);
  }

  /** `photos/a.jpg` is thumbnailed into `photos-thumbnails/thumb-a.jpg`. */
  lemma PhotosExample()
    ensures Decide(Event([S3Record("photos", "a.jpg")]))
         == Proceed(Job("photos", "a.jpg", "photos-thumbnails", "thumb-a.jpg", "jpg"))
  {
    assert Extension("a.jpg") == Some("jpg");
    assert ToLower("jpg") == "jpg";
    assert "photos" + BucketSuffix == "photos-thumbnails";
    assert KeyPrefix + "a.jpg" == "thumb-a.jpg";
  }

  /** An upper-case extension proceeds and reaches the encoder in its
      original case. */
  lemma UpperCaseExample()
    ensures Decide(Event([S3Record("b", "x.JPG")])) == Proceed(Job("b", "x.JPG", "b-thumbnails", "thumb-x.JPG", "JPG"))
  {
    assert Extension("x.JPG") == Some("JPG");
    assert ToLower("JPG") == "jpg";
  }

  /** An empty or unlisted extension is skipped; a key without a dot has no
      extension. */
  lemma SkippedExamples()
    ensures Decide(Event([S3Record("b", "x.")])) == NotAnImage
    ensures Decide(Event([S3Record("b", "x.tiff")])) == NotAnImage
    ensures Decide(Event([S3Record("b", "x")])) == NoExtension
  {
    assert Extension("x.") == Some("");
    assert ToLower("") == "";
    assert Extension("x.tiff") == Some("tiff");
    assert ToLower("tiff")[0] == 't';
    assert '.' !in "x";
  }
}
