# Face-cropping pipeline: a Dafny model

This project models two cloud functions that work as a pair.

The **detector** (`face_recognition/utils.py`) runs when a photo is uploaded to the photo
bucket. It:
- reads the bucket and object key from the trigger event;
- asks a vision service for face detection;
- pulls the vertex list of every face out of the answer;
- publishes one queue message per face (`{"object_key": key, "face": vertices}`), all with
  the object key as the deduplication id.

The **cropper** (`contrainer_utils/contrainer_utils.py`) receives batches of those queue
messages over HTTP. For each message it:
- decodes the body;
- fetches the photo;
- collects the distinct x and the distinct y coordinates of the face into sets, sorts them and
  takes the first two of each as (left, right) and (top, bottom);
- names the crop `face_<key without .jpg>_<random 0..100000>.jpg`;
- uploads the crop to the face bucket;
- inserts a row linking the two keys into `photo_table`.

A failing message is swallowed and the batch always answers 200.

Modules:
- `Wrappers`: `Option` and `Result`.
- `PyJson`: decoded JSON values, as Python sees them. It gives Python's subscript semantics
  (`KeyError`, `IndexError`, `TypeError`) and what `for item in v` yields.
- `DecimalText`: `str(n)` and its parse, and `int()` on a string.
- `CropGeometry`: the crop-rectangle rule. It holds a loop method over the two sets and the
  function that specifies it, and compares the rule with the true bounding box.
- `FaceKeys`: the crop's key, and a parser that inverts it.
- `CropperService`:
  - the per-message outcome of `process_message`;
  - the `Cropper` class, which holds the log of writes made to the outside world;
  - the batch loop of `start_function`.
- `Detector`: `get_request`, `find_faces`, `convert_to_message`, `send_faces_to_queue` (over a
  `MessageQueue` class holding the log of sends) and `handler`.
- `Pipeline`: one photo carried through both functions, end to end.

The outside world enters only as data. Per cropper message, a `Replies` value carries:
- what `json.loads` returned;
- whether the photo could be fetched and opened;
- the two random numbers;
- whether the encode, the upload and the insert succeed.

The vision service's decoded answer is a parameter of the detector.

`find_faces` treats a missing key on the path to the faces as "no faces", but it catches only
`KeyError`. An empty `results` list raises `IndexError`, and a value that cannot be
subscripted raises `TypeError`. Both escape `handler` instead of giving the empty list. The
model follows the code (`Detector.EmptyResultsRaises`).

## Model

| member | source | states |
|---|---|---|
| PyJson.Lookup | contrainer_utils/contrainer_utils.py:106 | a dict lookup finds a value exactly when the key is among the dict's keys |
| PyJson.LookupFindsLastEntry | contrainer_utils/contrainer_utils.py:106 | a found value is the value of the last entry with that key |
| PyJson.Subscript | face_recognition/utils.py:49 | `v[k]`: KeyError exactly for a dict without the key or a dict given an index; IndexError exactly for an index past the end of a list or string; TypeError exactly for a string key on a list or string and for any key on anything else; otherwise the dict's value, the list's element or the string's one-character string |
| PyJson.WalkMissingField | face_recognition/utils.py:49 | a chain of subscripts that reaches a dict without the next key raises KeyError |
| PyJson.WalkSplit | face_recognition/utils.py:49 | `Walk` (a chained subscript such as `v['a'][0]['b']`): a chain of subscripts is the first part, then the rest applied to its result; the first exception ends it |
| PyJson.Iterate | contrainer_utils/contrainer_utils.py:111 | `for item in v` works exactly on lists, strings and dicts, and a list yields its elements |
| PyJson.IterateItems | contrainer_utils/contrainer_utils.py:111 | a string yields its one-character strings and a dict yields its keys, in order |
| DecimalText.Decimal | contrainer_utils/contrainer_utils.py:120 | `str(n)` is a non-empty digit string with no leading zero |
| DecimalText.DecimalRoundTrip | contrainer_utils/contrainer_utils.py:120 | reading the digits of `str(n)` gives back n |
| DecimalText.DecimalInjective | contrainer_utils/contrainer_utils.py:120 | different numbers have different decimal texts |
| DecimalText.ParseInt | contrainer_utils/contrainer_utils.py:112-113 | `int(s)` of a string succeeds exactly for digits, or a `+` or `-` followed by digits; digits read as their value, `+` keeps it and `-` negates it (with no limit on the number of digits; see "## Left out") |
| DecimalText.IntTextRoundTrip | contrainer_utils/contrainer_utils.py:112-113 | `IntText` (`str(i)`) and `ParseInt`: `int(str(i)) == i` for every integer, negative ones included (Python promises this only up to its 4300-digit conversion limit; see "## Left out") |
| CropGeometry.Distinct | contrainer_utils/contrainer_utils.py:109-113 | the set filled by `.add` holds exactly the coordinates that occur |
| CropGeometry.Least | contrainer_utils/contrainer_utils.py:114-115 | the least element of a non-empty set |
| CropGeometry.SortedElements | contrainer_utils/contrainer_utils.py:114-115 | `sorted(s)` has one entry per element of the set |
| CropGeometry.SortedElementsMembers | contrainer_utils/contrainer_utils.py:114-115 | `sorted(s)` holds exactly the elements of s |
| CropGeometry.SortedElementsIncreasing | contrainer_utils/contrainer_utils.py:114-115 | `sorted(s)` is strictly increasing |
| CropGeometry.SortedElementsSpec | contrainer_utils/contrainer_utils.py:114-115 | both of the above at once |
| CropGeometry.SelectCorners | contrainer_utils/contrainer_utils.py:116-119 | indexing succeeds exactly when both sorted lists have two entries, and then gives (x[0], y[0], x[1], y[1]) |
| CropGeometry.ComputeCropRectangle | contrainer_utils/contrainer_utils.py:109-119 | `CropRectangle` and its loop: the loop that adds every coordinate to the two sets, then sorting and indexing, computes the crop-rectangle rule |
| CropGeometry.SortedFirstIsLeast | contrainer_utils/contrainer_utils.py:114-118 | `sorted(s)[0]` is the least element of s |
| CropGeometry.SortedSecondIsNext | contrainer_utils/contrainer_utils.py:114-119 | `sorted(s)[1]` is in s, above `sorted(s)[0]`, with no element strictly between them |
| CropGeometry.SortedSecondOfTwoIsGreatest | contrainer_utils/contrainer_utils.py:114-119 | for a two-element set, `sorted(s)[1]` is its greatest element |
| CropGeometry.SortedSecondOfMoreIsNotGreatest | contrainer_utils/contrainer_utils.py:114-119 | for three or more elements, some element lies above `sorted(s)[1]` |
| CropGeometry.CropSucceedsIff | contrainer_utils/contrainer_utils.py:114-119 | `CropRectangle`: the rectangle exists exactly when each axis has at least two distinct values; otherwise the failure is the index error |
| CropGeometry.SingleColumnFails | contrainer_utils/contrainer_utils.py:117 | a polygon whose vertices all share one x raises the index error |
| CropGeometry.LeftTopAreMinima | contrainer_utils/contrainer_utils.py:109-118 | left and top are the minimum x and minimum y, each reached by some vertex |
| CropGeometry.RightBottomAreSecondSmallest | contrainer_utils/contrainer_utils.py:109-119 | right and bottom are reached by vertices, left < right and top < bottom strictly, and no vertex lies strictly between left and right or between top and bottom |
| CropGeometry.MinOf | contrainer_utils/contrainer_utils.py:116 | a reference minimum: it occurs and is at most every entry |
| CropGeometry.MaxOf | contrainer_utils/contrainer_utils.py:117 | a reference maximum: it occurs and is at least every entry |
| CropGeometry.TwoValuesPerAxisGiveBoundingBox | contrainer_utils/contrainer_utils.py:109-119 | with exactly two distinct values per axis, the crop is (min x, min y, max x, max y) |
| CropGeometry.CropIsBoundingBoxOnlyForTwoValues | contrainer_utils/contrainer_utils.py:109-119 | once the crop exists, it equals the bounding box if and only if each axis has exactly two distinct values |
| CropGeometry.OrderAndRepetitionIrrelevant | contrainer_utils/contrainer_utils.py:109-115 | two polygons with the same vertices, in any order and with any repetition, give the same result |
| FaceKeys.StripJpg | contrainer_utils/contrainer_utils.py:120 | `removesuffix('.jpg')` drops exactly one trailing `.jpg` and leaves any other key whole |
| FaceKeys.StripJpgUndoesAppend | contrainer_utils/contrainer_utils.py:120 | removing the suffix undoes appending it |
| FaceKeys.StripJpgExamples | contrainer_utils/contrainer_utils.py:120 | a `.png` key is kept whole, `a.jpg.jpg` loses one suffix, `.jpg` becomes empty |
| FaceKeys.FaceKey | contrainer_utils/contrainer_utils.py:120 | the crop key starts with `face_`, ends with `.jpg` and has room for the middle |
| FaceKeys.LastIndexOf | contrainer_utils/contrainer_utils.py:120 | the position of the last occurrence of a character, or none when it does not occur |
| FaceKeys.NoUnderscoreInDecimal | contrainer_utils/contrainer_utils.py:120 | the random suffix never contains `_` |
| FaceKeys.LastIndexOfAfter | contrainer_utils/contrainer_utils.py:120 | the last `_` of a key is the one before the suffix |
| FaceKeys.ParseFaceKeyRoundTrip | contrainer_utils/contrainer_utils.py:120 | from a crop key one reads back the stripped object key and the random number |
| FaceKeys.FaceKeyInjective | contrainer_utils/contrainer_utils.py:120 | equal crop keys come from the same stripped object key and the same number |
| FaceKeys.Photo1Key | contrainer_utils/contrainer_utils.py:120 | `photo1.jpg` with number n gives `face_photo1_<n>.jpg` |
| CropperService.PyInt | contrainer_utils/contrainer_utils.py:112-113 | `int(v)` keeps a JSON integer, gives 1 for `true` and 0 for `false`, parses a string, and fails for anything but an integer, a bool or a string |
| CropperService.DecodeVertex | contrainer_utils/contrainer_utils.py:112-113 | a coordinate decodes exactly when `c['x']` and `c['y']` exist and convert with `int()`, and then to those two integers |
| CropperService.DecodeVerticesSpec | contrainer_utils/contrainer_utils.py:111-113 | `DecodeVertices`: a list of coordinates decodes exactly when every coordinate does, and vertex i is coordinate i decoded |
| CropperService.FaceOfDecodesEveryCoordinate | contrainer_utils/contrainer_utils.py:108-113 | `FaceOf`: the face exists exactly when `body['face']` exists, can be iterated and every coordinate decodes; then it has one vertex per coordinate, in order |
| CropperService.ObjectKeyOf | contrainer_utils/contrainer_utils.py:107 | `body['object_key']` exists and is a string exactly when a key is read, and the key is that string |
| CropperService.StoreWritesInOrder | contrainer_utils/contrainer_utils.py:120-125 | `Store`: nothing is written unless the crop encodes and uploads; the upload under the derived key comes before the row; success exactly when encode, upload and insert all succeed, and each failing step is reported as itself |
| CropperService.ProcessWrites | contrainer_utils/contrainer_utils.py:105-125 | `Process` (`process_message`): one message makes at most the upload then the insert. The upload holds the crop of the decoded face's rectangle under the face key. The row links the object key to that face key. It fails exactly when fewer than two writes were made, and it writes something only when it succeeds or only the insert fails |
| CropperService.NoRectangleNoWrites | contrainer_utils/contrainer_utils.py:114-124 | a face without a rectangle writes nothing and fails |
| CropperService.ProcessKeepsRowsBehindCrops | contrainer_utils/contrainer_utils.py:124-125 | after any message, every row in the log follows an upload of its face key to the face bucket |
| CropperService.MessageListSpec | contrainer_utils/contrainer_utils.py:40-41 | `MessageList` (`request.json['messages']`, iterated): KeyError without `messages`, TypeError for a request that is not a dict or a value that cannot be iterated, and a list of messages taken as it is |
| CropperService.Outcomes | contrainer_utils/contrainer_utils.py:41-45 | one outcome per message of the batch |
| CropperService.OutcomesOfConcat | contrainer_utils/contrainer_utils.py:41-45 | the outcomes of two batches run one after the other are those of the joined batch |
| CropperService.OutcomesOfUnique | contrainer_utils/contrainer_utils.py:41-45 | the outcomes of a batch are determined by its messages and replies |
| CropperService.AllWritesSnoc | contrainer_utils/contrainer_utils.py:41-45 | the writes of one more message come after those of the earlier ones |
| CropperService.AllWritesConcat | contrainer_utils/contrainer_utils.py:41-45 | the writes of a joined batch are those of its first part, then those of its second |
| CropperService.AllWritesSplit | contrainer_utils/contrainer_utils.py:41-45 | the writes of a batch are those before message i, then message i's, then those after it |
| CropperService.BatchIsolatesMessage | contrainer_utils/contrainer_utils.py:41-45 | whatever happens to message i changes only its own share of the batch's writes; the messages before and after it write the same |
| CropperService.Cropper.constructor | contrainer_utils/contrainer_utils.py:24-32 | a fresh service writing to the configured face bucket, with an empty log |
| CropperService.Cropper.PutImage | contrainer_utils/contrainer_utils.py:80-92 | an upload that succeeds adds exactly the one object to the log, and one that fails adds nothing |
| CropperService.Cropper.AddImageToDatabase | contrainer_utils/contrainer_utils.py:54-63 | an insert that commits adds exactly the one row, with a 64-bit id, and one that fails adds nothing |
| CropperService.Cropper.Attempt | contrainer_utils/contrainer_utils.py:105-125 | the steps of one message append exactly the writes of its outcome and report its failure |
| CropperService.Cropper.ProcessMessage | contrainer_utils/contrainer_utils.py:42-45 | one message inside the try: it is recorded as attempted, the log grows by its outcome's writes and keeps every row behind its crop |
| CropperService.Cropper.ProcessAll | contrainer_utils/contrainer_utils.py:41-45 | every message is attempted, in order, whatever the earlier ones did, and the log grows by their writes in order |
| CropperService.Cropper.StartFunction | contrainer_utils/contrainer_utils.py:38-46 | without a `messages` list the handler raises and changes nothing; otherwise it attempts every message and answers 200 |
| Detector.GetRequestHoldsContent | face_recognition/utils.py:15-23 | `GetRequest`: the request has only `analyze_specs`, which holds exactly one spec, with keys `content` and `features`, and whose content is the given text |
| Detector.GetRequestAsksForFaces | face_recognition/utils.py:19-21 | the spec has exactly one feature, with only a `type` key, equal to `FACE_DETECTION` |
| Detector.CollectVerticesOk | face_recognition/utils.py:50-51 | `CollectVertices`: the loop succeeds exactly when every face has `boundingBox.vertices`, and then gives one list per face in order |
| Detector.CollectVerticesFirstError | face_recognition/utils.py:50-53 | `CollectVertices`: when the loop raises, it raises what the first failing face raised |
| Detector.CollectVerticesSpec | face_recognition/utils.py:50-51 | `CollectVertices`, both of the above: the loop succeeds exactly when every face has `boundingBox.vertices`, and then gives one list per face in order; otherwise the first face's exception ends it |
| Detector.CollectVerticesErrorSticks | face_recognition/utils.py:50-53 | once a face raised, later faces do not change the result |
| Detector.FindFaces | face_recognition/utils.py:47-54 | the loop appending to `coordinates`, with the early return on KeyError, computes `ParseFaces`: the faces path, then one vertex list per face, `[]` on KeyError and any other exception propagated |
| Detector.FullPathGivesOneListPerFace | face_recognition/utils.py:49-51 | with the full path present, the result has one vertex list per face, in face order |
| Detector.MissingKeyGivesNoFaces | face_recognition/utils.py:49-53 | a missing `results`, `faceDetection` or `faces` gives the empty list |
| Detector.OneIncompleteFaceDropsAll | face_recognition/utils.py:50-53 | one face without `boundingBox` or `vertices` gives the empty list, not the faces seen before it |
| Detector.EmptyResultsRaises | face_recognition/utils.py:49-53 | an empty `results` list raises IndexError, which the handler does not catch |
| Detector.ConvertToMessage | face_recognition/utils.py:57-61 | the message has exactly the keys `object_key` and `face`, holding the two arguments unchanged |
| Detector.FaceSendsSpec | face_recognition/utils.py:74-81 | `FaceSends`: one send per face, in face order. Send i's body holds the object key and face i, and every deduplication id is the object key |
| Detector.FaceSendsStep | face_recognition/utils.py:75-81 | the sends for one more face are those for the faces before it, then that face's message with the object key as id |
| Detector.MessageQueue.constructor | face_recognition/utils.py:67-73 | a fresh queue client has sent nothing |
| Detector.MessageQueue.SendMessage | face_recognition/utils.py:77-81 | a send appends exactly one (body, deduplication id) pair |
| Detector.SendFacesToQueue | face_recognition/utils.py:64-81 | the loop appends exactly the sends of the faces, in order |
| Detector.OnlyFirstFaceSurvivesDeduplication | face_recognition/utils.py:80 | if the queue deduplicates by id (a FIFO queue), within one deduplication window it keeps only the first face's message, because every send shares the id. The queue URL at face_recognition/utils.py:9 has no `.fifo` suffix, so the source does not show that the queue deduplicates at all. On a FIFO queue the send as written would be refused, since it passes no `MessageGroupId`, so this lemma describes a hypothetical queue, not the function's live behaviour |
| Detector.OnlyFirstMessageRead | face_recognition/utils.py:85-86 | `UploadOf` (the two event reads): two events with the same first message name the same upload |
| Detector.Handler | face_recognition/utils.py:84-88 | a bad event or a raising parse sends nothing and the exception escapes; otherwise the faces found are sent under the object key |
| Pipeline.OneFaceAnswerHoldsFace | face_recognition/utils.py:49 | in an answer with one face, the faces path leads to the list holding it |
| Pipeline.OneFaceFound | face_recognition/utils.py:49-54 | for an answer with one face, the detector returns that face's vertex list unchanged |
| Pipeline.CatDetection | face_recognition/utils.py:49-81 | the detector finds the face in `cat.jpg` and sends one message with the photo key |
| Pipeline.VertexDecodes | contrainer_utils/contrainer_utils.py:111-113 | the cropper reads a vertex in the vision service's format back as the same coordinates |
| Pipeline.QueuedMessageDecodes | contrainer_utils/contrainer_utils.py:107-108 | the cropper reads back the object key and the face list that the detector put in the message |
| Pipeline.CornersDecode | contrainer_utils/contrainer_utils.py:111-113 | the four reported corners of a rectangle decode to the same corners |
| Pipeline.CatMessageDecodes | contrainer_utils/contrainer_utils.py:107-113 | the queued message for `cat.jpg` decodes to its key and the four corners |
| Pipeline.CornersGiveTheirRectangle | contrainer_utils/contrainer_utils.py:109-119 | the crop of a rectangle's four corners is that rectangle, and so is their bounding box |
| Pipeline.CatRectangle | contrainer_utils/contrainer_utils.py:109-119 | the crop of the cat's face is (10, 20, 50, 80) |
| Pipeline.DecodedMessageIsStored | contrainer_utils/contrainer_utils.py:105-125 | a message that decodes, with every step succeeding, makes exactly the upload of the crop and then the linking row |
| Pipeline.CatFaceKey | contrainer_utils/contrainer_utils.py:120 | the n-th crop of `cat.jpg` is stored as `face_cat_<n>.jpg` |
| Pipeline.CatCropped | contrainer_utils/contrainer_utils.py:105-125 | the cropper stores the cat's face crop as `face_cat_<n>.jpg` and links it to `cat.jpg` |

## Left out

- Network and storage I/O are not modelled: the S3 reads and writes, the SQS client, the HTTP call to the vision service and the YDB session. The cropper's calls and the vision call have their results as inputs (`Replies`, the vision answer). The writes and sends are kept as logs.
- Detector.MessageQueue.SendMessage: a send always succeeds. A `send_message` that raises after earlier sends went out, with the exception escaping `handler`, is not modelled.
- `get_object` in `handler` is not modelled; the photo bytes only feed base64 and the vision request, which are left out.
- Photo fetch failures are one case: `get_image` raising and `Image.open` raising are both `PhotoUnavailable`.
- The Sanic application is not modelled: the server start and stop hooks, the global `config` and `ydb_driver`, and the environment variables. The face bucket is a field of `Cropper`.
- The text of the INSERT statement is not modelled. A row is the triple (random id, original key, face key) it interpolates. An object key containing `'` breaks the interpolated statement, so the statement then fails or inserts other rows; the model does not capture that.
- PIL decoding, `crop` and JPEG encoding are not modelled. A crop is the pair (photo bytes, box). Whether encoding succeeds is an input.
- `json.loads`, `json.dumps`, `response.json()` and base64 are left out as opaque library functions. Their results are inputs, or values are kept undecoded.
- The random draws (`randint(0, 100000)`, `getrandbits(64)`) are inputs within their ranges (`ValidReplies`).
- CropperService.PyInt: floats are not modelled; `int()` of a float is out of scope. The model's coordinates are JSON integers, bools or strings read by `ParseInt`.
- DecimalText.ParseInt: surrounding whitespace, `_` digit separators and non-ASCII decimal digits (such as `int("１０") == 10`) are accepted by Python and rejected by the model. Python 3.9.14+, 3.10.7+ and 3.11+ raise `ValueError` for a string of more than 4300 digits (`sys.get_int_max_str_digits()`); the model parses strings of any length.
- DecimalText.IntTextRoundTrip: the round trip holds in Python only for integers of at most 4300 digits; beyond that `str(i)` raises `ValueError`. The model has no digit limit, so it states the round trip for every integer.
- Duplicate keys in a decoded dict cannot arise from `json.loads`. `Lookup` gives the last entry's value, as Python does.
- Sanic's 500 answer to an exception escaping `start_function` is not modelled. The model returns the Python exception (`StartFunction` gives `Err`).
- A `response.json()` decode error is not modelled. The answer is taken as already decoded.
- The deduplication window of a FIFO queue is modelled by `Deduplicated`, which keeps the first send of each id. The queue service's timing is not modelled, and the source does not show whether the queue is a FIFO queue. A FIFO queue also requires a `MessageGroupId`, which `send_message` (face_recognition/utils.py:77-81) does not pass, so on such a queue every send would be refused rather than deduplicated; that refusal is not modelled.
