/** The `process` stage pipeline: fetch the source object, measure it, resize
    and encode it, upload the thumbnail, sign a URL for it. Each collaborator
    call is an abstract outcome, every call is recorded in a trace, and the
    invocation ends in one report to the runtime's context. */
module Pipeline {
  import opened Geometry

  type Bytes = seq<bv8>

  /** Whatever error a collaborator raises; the pipeline only passes it on. */
  datatype Failure = Failure(cause: string)

  /** The settled result of one awaited collaborator call. */
  datatype Outcome<+T> = Ok(value: T) | Err(error: Failure)

  datatype Location = Location(bucket: string, key: string)

  /** The `getObject` response fields the pipeline reads. */
  datatype StoredObject = StoredObject(body: Bytes, contentType: string)

  /** What `image.size` reports. */
  datatype ImageSize = ImageSize(width: Positive, height: Positive)

  /** The object store and the image library, as the outcome each of their
      operations gives for its arguments. */
  datatype Collaborators = Collaborators(
    getObject: Location -> Outcome<StoredObject>,
    size: Bytes -> Outcome<ImageSize>,
    resizeToBuffer: (Bytes, real, real, string) -> Outcome<Bytes>,
    putObject: (Location, Bytes, string) -> Outcome<()>,
    getSignedUrl: (string, Location) -> Outcome<string>)

  /** One collaborator call with the arguments the pipeline passed. */
  datatype Call =
    | GetObject(source: Location)
    | Size(image: Bytes)
    | ResizeToBuffer(image: Bytes, width: real, height: real, format: string)
    | PutObject(target: Location, body: Bytes, contentType: string)
    | GetSignedUrl(operation: string, target: Location)
  {
    /** The position of this kind of call in the pipeline. */
    function Stage(): nat {
      match this
      case GetObject(_) => 0
      case Size(_) => 1
      case ResizeToBuffer(_, _, _, _) => 2
      case PutObject(_, _, _) => 3
      case GetSignedUrl(_, _) => 4
    }
  }

  const StageCount: nat := 5

  /** A successful call's value, whichever collaborator gave it. */
  datatype Value =
    | Fetched(stored: StoredObject)
    | Measured(size: ImageSize)
    | Encoded(buffer: Bytes)
    | Stored
    | Signed(url: string)

  /** The outcome the collaborators give for a call. */
  function Reply(env: Collaborators, c: Call): Outcome<Value> {
    match c
    case GetObject(l) =>
      (match env.getObject(l) case Ok(o) => Ok(Fetched(o)) case Err(e) => Err(e))
    case Size(b) =>
      (match env.size(b) case Ok(s) => Ok(Measured(s)) case Err(e) => Err(e))
    case ResizeToBuffer(b, w, h, f) =>
      (match env.resizeToBuffer(b, w, h, f) case Ok(o) => Ok(Encoded(o)) case Err(e) => Err(e))
    case PutObject(l, b, t) =>
      (match env.putObject(l, b, t) case Ok(_) => Ok(Stored) case Err(e) => Err(e))
    case GetSignedUrl(op, l) =>
      (match env.getSignedUrl(op, l) case Ok(u) => Ok(Signed(u)) case Err(e) => Err(e))
  }

  /** The arguments `process` receives from the handler. */
  datatype Job = Job(srcBucket: string, srcKey: string, dstBucket: string, dstKey: string, imageType: string) {
    function Source(): Location { Location(srcBucket, srcKey) }
    function Destination(): Location { Location(dstBucket, dstKey) }
  }

  /** The object passed to `context.succeed`. */
  datatype SuccessRecord = SuccessRecord(srcBucket: string, srcKey: string, dstBucket: string, dstKey: string, url: string)

  /** How an invocation ends, as the runtime sees it: a bare `return` with no
      context call, an exception out of the handler, one `context.fail`, or
      one `context.succeed`. */
  datatype Report = SilentReturn | Thrown | Fail(error: Failure) | Succeed(record: SuccessRecord)

  /** `process`: the stages in order inside one try/catch. The first call that
      fails ends the pipeline with `context.fail` of its error; when all five
      succeed the pipeline ends with `context.succeed`. */
  method Process(env: Collaborators, job: Job) returns (trace: seq<Call>, report: Report)
    // Stages run in order get, size, resize/encode, put, sign, each at most
    // once; a stage runs only after the one before it succeeded.
    ensures 1 <= |trace| <= StageCount
    ensures trace[0] == GetObject(job.Source())
    ensures |trace| > 1 ==>
      && Reply(env, trace[0]).Ok?
      && trace[1] == Size(Reply(env, trace[0]).value.stored.body)
    ensures |trace| > 2 ==>
      && Reply(env, trace[1]).Ok?
      && var size := Reply(env, trace[1]).value.size;
         var target := Thumbnail(size.width, size.height);
         trace[2] == ResizeToBuffer(Reply(env, trace[0]).value.stored.body, target.width, target.height, job.imageType)
    ensures |trace| > 3 ==>
      && Reply(env, trace[2]).Ok?
      && trace[3] == PutObject(job.Destination(), Reply(env, trace[2]).value.buffer, Reply(env, trace[0]).value.stored.contentType)
    ensures |trace| > 4 ==>
      && Reply(env, trace[3]).Ok?
      && trace[4] == GetSignedUrl("getObject", job.Destination())
    // The pipeline stops early only on a failure.
    ensures |trace| < StageCount ==> Reply(env, trace[|trace| - 1]).Err?
    // Exactly one report: fail with the failing call's error, otherwise succeed
    // with every location verbatim and the signed URL.
    ensures report.Fail? || report.Succeed?
    ensures report.Fail? <==> Reply(env, trace[|trace| - 1]).Err?
    ensures report.Fail? ==> report.error == Reply(env, trace[|trace| - 1]).error
    ensures report.Succeed? ==>
      && |trace| == StageCount
      && report.record == SuccessRecord(job.srcBucket, job.srcKey, job.dstBucket, job.dstKey, Reply(env, trace[4]).value.url)
  {
    trace := [GetObject(job.Source())];
    var response := env.getObject(job.Source());
    if response.Err? {
      return trace, Fail(response.error);
    }
    var body := response.value.body;
    var contentType := response.value.contentType;

    trace := trace + [Size(body)];
    var size := env.size(body);
    if size.Err? {
      return trace, Fail(size.error);
    }
    var target := Thumbnail(size.value.width, size.value.height);

    trace := trace + [ResizeToBuffer(body, target.width, target.height, job.imageType)];
    var buffer := env.resizeToBuffer(body, target.width, target.height, job.imageType);
    if buffer.Err? {
      return trace, Fail(buffer.error);
    }

    trace := trace + [PutObject(job.Destination(), buffer.value, contentType)];
    var stored := env.putObject(job.Destination(), buffer.value, contentType);
    if stored.Err? {
      return trace, Fail(stored.error);
    }

    trace := trace + [GetSignedUrl("getObject", job.Destination())];
    var previewUrl := env.getSignedUrl("getObject", job.Destination());
    if previewUrl.Err? {
      return trace, Fail(previewUrl.error);
    }

    report := Succeed(SuccessRecord(job.srcBucket, job.srcKey, job.dstBucket, job.dstKey, previewUrl.value));
  }
}
