# S3 image thumbnailer, modelled in Dafny

This project models the one AWS Lambda handler of `aws-lambda-image-resize`.
The handler runs when an object is created in an S3 bucket. It reads the
bucket and key of the notification's first record. It derives the thumbnail's
location: bucket `<bucket>-thumbnails`, key `thumb-<key>`. It takes the image
type from the key's extension and accepts it only if it is `png`, `jpg`,
`jpeg` or `gif`, in any case. It then runs a five-stage pipeline: fetch the
object, measure it, resize and encode it, upload the thumbnail, and sign a
URL for it. The thumbnail is scaled by one factor,
`min(100 / width, 100 / height)`, applied to both axes.

The model has four modules, one per part of `src/index.js`:

- `ImageTypes` (`image_types.dfy`): the capture of `/\.([^.]*)$/` and the
  case-insensitive allow-list.
- `Geometry` (`geometry.dfy`): the scaling factor and the thumbnail's size,
  over exact rationals.
- `Pipeline` (`pipeline.dfy`): `process`, written as a method.
  - Each S3 and ImageMagick call is an abstract outcome, `Ok(value)` or
    `Err(failure)`.
  - The collaborators are a value of `Collaborators`. It gives each
    operation's outcome as a total function of the call's arguments.
  - The method records every call, with its arguments, in a trace.
  - It ends in one `Report`: `Fail(error)` for `context.fail`, or
    `Succeed(record)` for `context.succeed`.
- `Handler` (`handler.dfy`): `exports.handler`.
  - `Decide` is the handler's checks, written as a function.
  - `Handle` composes `Decide` with `Process`.
  - A rejected event ends in `SilentReturn`: a bare `return` with no context
    call.
  - An event with no records ends in `Thrown`, because reading
    `event.Records[0].s3` throws.

The model follows the code as written:

- In the code, a key without a dot is a bare `return`, not a reported
  failure.
- In the code, the same-bucket guard is also a bare `return`, and it can
  never fire.
- In the code, an unsupported type is a bare `return`. It is not reported
  as a success.
- In the code, `getSignedUrl` gets no expiry argument, although the comment
  at src/index.js:96 says 15 minutes.

## Model

| member | source | states |
|---|---|---|
| `ImageTypes.Extension` | src/index.js:36-40 | The match fails exactly when the key has no dot. Otherwise the capture is the text after a dot that runs to the end of the key and contains no dot. It may be empty, as for `a.`. |
| `ImageTypes.ExtensionIsRegexCapture` | src/index.js:36 | `Extension(key) == Some(ext)` holds exactly when `/\.([^.]*)$/` captures `ext` in `key`, in both directions. |
| `ImageTypes.ValidImageTypeIsCaseInsensitive` | src/index.js:42-44 | An extension passes the `indexOf(toLowerCase())` test exactly when it spells one of `png`, `jpg`, `jpeg`, `gif` in any mix of cases. |
| `ImageTypes.IsValidImageType` | src/index.js:42-44 | The test lower-cases the extension (ASCII letters only) and looks it up in the four-element list `png`, `jpg`, `jpeg`, `gif`. Whatever passes has three or four characters and no dot. |
| `Geometry.ScalingFactor` | src/index.js:76-79 | The factor, with `MAX_WIDTH = MAX_HEIGHT = 100`, is positive. It keeps `factor*width <= 100` and `factor*height <= 100`, and one of the two equals 100. |
| `Geometry.Thumbnail` | src/index.js:76-81 | Both new dimensions are positive and at most 100. At least one equals 100. The aspect ratio is kept exactly: `newW * h == newH * w`. |
| `Geometry.SmallImagesAreEnlarged` | src/index.js:76-81 | An image smaller than 100 in both axes is enlarged in both axes. |
| `Geometry.LargeImagesAreShrunk` | src/index.js:76-81 | An image larger than 100 in some axis is shrunk in both axes. |
| `Geometry.WideExample` | src/index.js:76-81 | 200 by 50 gives factor 0.5 and a 100 by 25 thumbnail. |
| `Geometry.TallExample` | src/index.js:76-81 | 50 by 200 gives factor 0.5 and a 25 by 100 thumbnail. |
| `Pipeline.Process` | src/index.js:53-127 | The calls run in the order get, size, resize/toBuffer, put, sign, each at most once, and only the last may fail. The pipeline stops early only on a failure. That failure gives exactly one `context.fail`, with that call's error. Otherwise there is exactly one `context.succeed`. `size` and `resize` get the fetched body. `resize` gets the scaled size and the extension in its original case. `putObject` writes the resized buffer to the destination with the fetched `ContentType` unchanged. `getSignedUrl('getObject')` is asked for the destination. The success record holds both locations verbatim and the signed URL. |
| `Handler.Decide` | src/index.js:21-47 | There is no record exactly when the records are empty. The same-bucket outcome never occurs. A key is rejected as having no extension exactly when it has no dot. It is rejected as not an image exactly when it has an extension that is not on the allow-list. Otherwise the job comes from `Records[0]`, with `-thumbnails` and `thumb-` destinations and the extension in its original case. |
| `Handler.Handle` | src/index.js:21-51 | Storage is touched exactly when the first record's key has an extension on the allow-list. A rejection makes no call and no context call, and no records means an exception. A failure report carries the error of the last call made, which is the one that failed. When the pipeline runs, the first call fetches `Records[0]`, and every call runs in stage order. The upload and the signed URL target the derived destination, and the upload never targets the source object. The success record holds the derived locations and the signed URL. |
| `Handler.PhotosExample` | src/index.js:24-27 | `photos/a.jpg` proceeds to `photos-thumbnails/thumb-a.jpg` with type `jpg`. |
| `Handler.UpperCaseExample` | src/index.js:42-50 | `x.JPG` proceeds, and the encoder receives `JPG`, not `jpg`. |
| `Handler.SkippedExamples` | src/index.js:36-47 | `x.` and `x.tiff` are skipped as non-images. `x` has no extension. |

## Left out

- The S3 client and the module-level `s3` object are network I/O. Each of
  their calls is an abstract outcome given by `Collaborators`.
- The ImageMagick binding (`gm`) is a foreign library. It is not modelled:
  - `size` returns arbitrary positive dimensions;
  - `resize(...).toBuffer(...)` is one call that returns opaque bytes;
  - pixel rounding is not modelled.
- A zero-sized image is not modelled. `ImageSize` holds positive dimensions
  only, so the JavaScript `Infinity`/`NaN` arithmetic such an image would
  cause is not captured.
- Double-precision arithmetic is not modelled. The geometry is stated over
  exact rationals, so its equalities hold in the source only up to
  rounding.
- `Geometry.Thumbnail`: does not model double rounding, so `newW * h == newH * w`
  holds only approximately in the source.
- `toLowerCase` is modelled on ASCII letters only. For this allow-list the
  accepted extensions are still the same. No non-ASCII character lowers to
  a string made of the letters of `png`, `jpg`, `jpeg` or `gif`.
- Asynchrony is not modelled. The handler does not await `process`, and the
  promise and `bluebird` mechanics are left out. The model runs the
  pipeline to completion inside the handler, with the awaits as plain
  sequential calls.
- `console` logging and the imports of source maps and polyfills are left
  out. They have no effect on the outcome.
- The presigned URL's contents and expiry are not modelled. The code passes
  no expiry.
- The S3 key is used as it arrives in the notification. Any URL-decoding of
  the key is outside `src/index.js`.
- Cross-invocation behaviour is not modelled. This covers repeated runs that
  overwrite the same thumbnail, and S3's own state.
