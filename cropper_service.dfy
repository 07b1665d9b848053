/**
 * The cropper service (contrainer_utils/contrainer_utils.py): an HTTP handler that takes a
 * batch of queue messages and, for each, crops the face it names out of the original photo,
 * stores the crop in the face bucket and inserts a row linking the two keys into
 * `photo_table`. A failure in one message is swallowed and the batch goes on.
 *
 * Everything the service asks of the outside world for one message (decoding the body text,
 * fetching and opening the photo, the two random draws, encoding the crop, the upload and the
 * insert) is given as that message's `Replies`; what the service does to the outside world is
 * recorded as a log of writes.
 */
module CropperService {
  import opened Wrappers
  import opened PyJson
  import opened CropGeometry
  import opened FaceKeys
  import opened DecimalText

  /** What the outside world answers while one message is processed. */
  datatype Replies = Replies(
    loaded: Option<Json>,     // json.loads of the message body text; None when it raises
    photo: Option<seq<bv8>>,  // get_image from the photo bucket, then Image.open; None when either raises
    n: int,                   // random.randint(0, 100000)
    rowId: int,               // getrandbits(64)
    encodes: bool,            // the crop saves as JPEG
    putSucceeds: bool,        // put_image to the face bucket returns
    insertSucceeds: bool)     // the INSERT into photo_table commits

  /** The ranges the two random draws come from. */
  predicate ValidReplies(r: Replies) {
    0 <= r.n <= MaxSuffix && 0 <= r.rowId < 0x1_0000_0000_0000_0000
  }

  /** Why processing one message stopped. */
  datatype Failure =
    | MalformedMessage           // a missing key, a value of the wrong type, or an undecodable body
    | PhotoUnavailable
    | RectangleFailed(e: CropError)
    | EncodeFailed
    | PutFailed
    | InsertFailed

  /** The JPEG of a photo cropped to a box; image decoding and encoding are not modelled. */
  datatype Crop = Crop(photo: seq<bv8>, box: Rect)

  /** A row of `photo_table`. */
  datatype PhotoRow = PhotoRow(id: int, originalId: string, faceId: string)

  /** A change the service makes to the outside world. */
  datatype Write =
    | PutObject(bucket: string, key: string, content: Crop)
    | InsertRow(row: PhotoRow)

  /** The writes one message caused, and the failure that ended it, if any. */
  datatype Outcome = Outcome(writes: seq<Write>, failure: Option<Failure>)

  const BodyPath: seq<Key> := [Field("details"), Field("message"), Field("body")]

  /**
   * Python's `int(v)` for a decoded JSON value: an integer is kept, a bool is 0 or 1, a
   * string is parsed; anything else raises.
   */
  function PyInt(v: Json): (r: Option<int>)
    ensures v.JNum? ==> r == Some(v.n)
    ensures v.JStr? ==> r == ParseInt(v.s)
    ensures v.JBool? ==> r == Some(if v.b then 1 else 0)
    ensures r.Some? ==> v.JNum? || v.JBool? || v.JStr?
  {
    match v
    case JNum(n) => Some(n)
    case JBool(b) => Some(if b then 1 else 0)
    case JStr(s) => ParseInt(s)
    case _ => None
  }

  /** `int(c['x'])`, `int(c['y'])` for one coordinate of the face. */
  function DecodeVertex(c: Json): (r: Option<Vertex>)
    ensures r.Some? <==> (Subscript(c, Field("x")).Ok? && PyInt(Subscript(c, Field("x")).value).Some? &&
                          Subscript(c, Field("y")).Ok? && PyInt(Subscript(c, Field("y")).value).Some?)
    ensures r.Some? ==> r.value == Vertex(PyInt(Subscript(c, Field("x")).value).value,
                                          PyInt(Subscript(c, Field("y")).value).value)
  {
    match (Subscript(c, Field("x")), Subscript(c, Field("y")))
    case (Ok(x), Ok(y)) =>
      (match (PyInt(x), PyInt(y))
       case (Some(vx), Some(vy)) => Some(Vertex(vx, vy))
       case _ => None)
    case _ => None
  }

  /** Every coordinate of the face decoded, in order; None as soon as one does not decode. */
  function DecodeVertices(items: seq<Json>): Option<seq<Vertex>>
    decreases |items|
  {
    if items == [] then Some([])
    else
      match (DecodeVertex(items[0]), DecodeVertices(items[1..]))
      case (Some(v), Some(vs)) => Some([v] + vs)
      case _ => None
  }

  /**
   * The face decodes exactly when every coordinate does, and then vertex `i` is coordinate
   * `i` decoded.
   */
  lemma {:induction false} DecodeVerticesSpec(items: seq<Json>)
    ensures DecodeVertices(items).Some? <==> forall i :: 0 <= i < |items| ==> DecodeVertex(items[i]).Some?
    ensures DecodeVertices(items).Some? ==>
              (|DecodeVertices(items).value| == |items| &&
               forall i :: 0 <= i < |items| ==> DecodeVertex(items[i]) == Some(DecodeVertices(items).value[i]))
    decreases |items|
  {
    if items != [] {
      DecodeVerticesSpec(items[1..]);
      assert forall i :: 1 <= i < |items| ==> items[i] == items[1..][i - 1];
    }
  }

  /** The object key of a decoded body, which must be a string. */
  function ObjectKeyOf(body: Json): (r: Option<string>)
    ensures r.Some? <==> Subscript(body, Field("object_key")).Ok? && Subscript(body, Field("object_key")).value.JStr?
    ensures r.Some? ==> Subscript(body, Field("object_key")) == Ok(JStr(r.value))
  {
    match Subscript(body, Field("object_key"))
    case Ok(JStr(k)) => Some(k)
    case _ => None
  }

  /** The face polygon of a decoded body: `for coordinate in body['face']`. */
  function FaceOf(body: Json): Option<seq<Vertex>>
  {
    match Subscript(body, Field("face"))
    case Err(_) => None
    case Ok(f) =>
      match Iterate(f)
      case Err(_) => None
      case Ok(items) => DecodeVertices(items)
  }

  /**
   * `process_message` for one message with the given replies: the body, the object key,
   * the photo, the face, the rectangle, then the stores. Nothing is written before the
   * upload.
   */
  function Process(faceBucket: string, message: Json, r: Replies): Outcome
    requires ValidReplies(r)
  {
    if !(Walk(message, BodyPath).Ok? && Walk(message, BodyPath).value.JStr?) || r.loaded.None? then
      Outcome([], Some(MalformedMessage))
    else
      match ObjectKeyOf(r.loaded.value)
      case None => Outcome([], Some(MalformedMessage))
      case Some(objectKey) =>
        if r.photo.None? then Outcome([], Some(PhotoUnavailable))
        else
          match FaceOf(r.loaded.value)
          case None => Outcome([], Some(MalformedMessage))
          case Some(face) =>
            match CropRectangle(face)
            case Err(e) => Outcome([], Some(RectangleFailed(e)))
            case Ok(box) => Store(faceBucket, objectKey, Crop(r.photo.value, box), r)
  }

  /**
   * The last steps of `process_message` once the crop box is known: derive the face key,
   * encode, upload the crop, then insert the row that links the original key to it.
   */
  function Store(faceBucket: string, objectKey: string, crop: Crop, r: Replies): Outcome
    requires ValidReplies(r)
  {
    var faceId := FaceKey(objectKey, r.n);
    var put := PutObject(faceBucket, faceId, crop);
    if !r.encodes then Outcome([], Some(EncodeFailed))
    else if !r.putSucceeds then Outcome([], Some(PutFailed))
    else if !r.insertSucceeds then Outcome([put], Some(InsertFailed))
    else Outcome([put, InsertRow(PhotoRow(r.rowId, objectKey, faceId))], None)
  }

  /** Every row in the log refers to a crop already stored in the face bucket under its face id. */
  ghost predicate RowsFollowTheirCrops(log: seq<Write>, faceBucket: string) {
    forall i :: 0 <= i < |log| && log[i].InsertRow? ==> CropStoredBefore(log, i, faceBucket)
  }

  /** Some write before position `i` stored a crop in the face bucket under the face id of row `i`. */
  ghost predicate CropStoredBefore(log: seq<Write>, i: nat, faceBucket: string)
    requires i < |log| && log[i].InsertRow?
  {
    exists j :: 0 <= j < i && log[j].PutObject? && log[j].bucket == faceBucket && log[j].key == log[i].row.faceId
  }

  /**
   * The face of a decoded body: it exists exactly when `body['face']` exists, can be iterated
   * and every coordinate decodes; then it has one vertex per coordinate, in order.
   */
  lemma FaceOfDecodesEveryCoordinate(body: Json)
    ensures var f := Subscript(body, Field("face"));
      FaceOf(body).Some? <==>
        f.Ok? && Iterate(f.value).Ok? &&
        forall i :: 0 <= i < |Iterate(f.value).value| ==> DecodeVertex(Iterate(f.value).value[i]).Some?
    ensures FaceOf(body).Some? ==>
      var items := Iterate(Subscript(body, Field("face")).value).value;
      |FaceOf(body).value| == |items| &&
      forall i :: 0 <= i < |items| ==> DecodeVertex(items[i]) == Some(FaceOf(body).value[i])
  {
    var f := Subscript(body, Field("face"));
    if f.Ok? && Iterate(f.value).Ok? {
      DecodeVerticesSpec(Iterate(f.value).value);
    }
  }

  /**
   * The last steps of `process_message` write in order: nothing unless the crop encodes and
   * uploads, the upload under the derived key before the row, and success exactly when all
   * three steps do; each failing step is reported as itself.
   */
  lemma StoreWritesInOrder(faceBucket: string, objectKey: string, crop: Crop, r: Replies)
    requires ValidReplies(r)
    ensures var o := Store(faceBucket, objectKey, crop, r);
      && (o.failure.None? <==> r.encodes && r.putSucceeds && r.insertSucceeds)
      && (!r.encodes ==> o.failure == Some(EncodeFailed))
      && (r.encodes && !r.putSucceeds ==> o.failure == Some(PutFailed))
      && (r.encodes && r.putSucceeds && !r.insertSucceeds ==> o.failure == Some(InsertFailed))
      && (o.writes != [] <==> r.encodes && r.putSucceeds)
      && |o.writes| <= 2
      && (o.writes != [] ==> o.writes[0] == PutObject(faceBucket, FaceKey(objectKey, r.n), crop))
      && (|o.writes| == 2 ==> o.writes[1] == InsertRow(PhotoRow(r.rowId, objectKey, o.writes[0].key)))
  {
  }

  /**
   * What one message writes: nothing when it fails before the upload; otherwise the crop
   * under its derived key, then (unless the insert fails) a row linking the original key to
   * that same key. Success means exactly both writes.
   */
  lemma ProcessWrites(faceBucket: string, message: Json, r: Replies)
    requires ValidReplies(r)
    ensures var o := Process(faceBucket, message, r);
      && |o.writes| <= 2
      && (o.failure.None? <==> |o.writes| == 2)
      && (o.writes != [] ==> o.failure.None? || o.failure == Some(InsertFailed))
      && (o.writes != [] ==>
            && r.loaded.Some? && ObjectKeyOf(r.loaded.value).Some?
            && FaceOf(r.loaded.value).Some? && CropRectangle(FaceOf(r.loaded.value).value).Ok?
            && o.writes[0] == PutObject(faceBucket, FaceKey(ObjectKeyOf(r.loaded.value).value, r.n),
                                        Crop(r.photo.value, CropRectangle(FaceOf(r.loaded.value).value).value)))
      && (|o.writes| == 2 ==>
            o.writes[1] == InsertRow(PhotoRow(r.rowId, ObjectKeyOf(r.loaded.value).value, o.writes[0].key)))
  {
  }

  /** A message whose face yields no rectangle writes nothing. */
  lemma NoRectangleNoWrites(faceBucket: string, message: Json, r: Replies)
    requires ValidReplies(r)
    requires r.loaded.Some? && FaceOf(r.loaded.value).Some? && CropRectangle(FaceOf(r.loaded.value).value).Err?
    ensures Process(faceBucket, message, r).writes == []
    ensures Process(faceBucket, message, r).failure.Some?
  {
  }

  /** Appending one message's writes keeps every row behind its crop. */
  lemma ProcessKeepsRowsBehindCrops(log: seq<Write>, faceBucket: string, message: Json, r: Replies)
    requires ValidReplies(r)
    requires RowsFollowTheirCrops(log, faceBucket)
    ensures RowsFollowTheirCrops(log + Process(faceBucket, message, r).writes, faceBucket)
  {
    var w := Process(faceBucket, message, r).writes;
    ProcessWrites(faceBucket, message, r);
    var all := log + w;
    forall i | 0 <= i < |all| && all[i].InsertRow?
      ensures CropStoredBefore(all, i, faceBucket)
    {
      if i < |log| {
        assert CropStoredBefore(log, i, faceBucket);
        var j :| 0 <= j < i && log[j].PutObject? && log[j].bucket == faceBucket && log[j].key == log[i].row.faceId;
        assert all[j] == log[j];
      } else {
        assert i == |log| + 1 && all[|log|] == w[0];
      }
    }
  }

  /** The message list of a request: `request.json['messages']`, iterated. */
  function MessageList(request: Json): Result<seq<Json>, PyError>
  {
    match Subscript(request, Field("messages"))
    case Err(e) => Err(e)
    case Ok(ms) => Iterate(ms)
  }

  /**
   * Reading the batch: a request without `messages` raises KeyError (TypeError when it is
   * not a dict), a list of messages is taken as it is, and a value that cannot be iterated
   * raises TypeError.
   */
  lemma MessageListSpec(request: Json)
    ensures request.JObj? && "messages" !in Keys(request.fields) ==> MessageList(request) == Err(KeyError)
    ensures !request.JObj? ==> MessageList(request) == Err(TypeError)
    ensures Subscript(request, Field("messages")).Ok? && Subscript(request, Field("messages")).value.JArr? ==>
              MessageList(request) == Ok(Subscript(request, Field("messages")).value.items)
    ensures Subscript(request, Field("messages")).Ok? ==>
              (MessageList(request).Err? <==>
                 !(Subscript(request, Field("messages")).value.JArr? ||
                   Subscript(request, Field("messages")).value.JStr? ||
                   Subscript(request, Field("messages")).value.JObj?))
  {
  }

  /** The outcome of each message of a batch, in message order. */
  function Outcomes(faceBucket: string, messages: seq<Json>, replies: seq<Replies>): (os: seq<Outcome>)
    requires |replies| == |messages|
    requires forall i :: 0 <= i < |replies| ==> ValidReplies(replies[i])
    ensures |os| == |messages|
  {
    seq(|messages|, i requires 0 <= i < |messages| => Process(faceBucket, messages[i], replies[i]))
  }

  /** The outcomes of a batch are the ones `Outcomes` lists. */
  lemma OutcomesOfUnique(faceBucket: string, messages: seq<Json>, replies: seq<Replies>, os: seq<Outcome>)
    requires OutcomesOf(faceBucket, messages, replies, os)
    ensures os == Outcomes(faceBucket, messages, replies)
  {
    var expected := Outcomes(faceBucket, messages, replies);
    forall i | 0 <= i < |os| ensures os[i] == expected[i] {
      assert expected[i] == Process(faceBucket, messages[i], replies[i]);
    }
  }

  /** The writes of a sequence of outcomes, one outcome after the other. */
  function AllWrites(os: seq<Outcome>): seq<Write>
    decreases |os|
  {
    if os == [] then [] else os[0].writes + AllWrites(os[1..])
  }

  /** `os` holds, in order, the outcome of each message of the batch with its replies. */
  ghost predicate OutcomesOf(faceBucket: string, messages: seq<Json>, replies: seq<Replies>, os: seq<Outcome>) {
    && |messages| == |replies| == |os|
    && (forall i :: 0 <= i < |replies| ==> ValidReplies(replies[i]))
    && forall i {:trigger Process(faceBucket, messages[i], replies[i])} ::
         0 <= i < |os| ==> os[i] == Process(faceBucket, messages[i], replies[i])
  }

  /** The outcomes of two batches, one after the other, are those of the joined batch. */
  lemma OutcomesOfConcat(faceBucket: string, ms1: seq<Json>, rs1: seq<Replies>, os1: seq<Outcome>,
                         ms2: seq<Json>, rs2: seq<Replies>, os2: seq<Outcome>)
    requires OutcomesOf(faceBucket, ms1, rs1, os1) && OutcomesOf(faceBucket, ms2, rs2, os2)
    ensures OutcomesOf(faceBucket, ms1 + ms2, rs1 + rs2, os1 + os2)
  {
    var ms, rs, os := ms1 + ms2, rs1 + rs2, os1 + os2;
    forall i | 0 <= i < |rs| ensures ValidReplies(rs[i]) {
      if i >= |rs1| {
        assert rs[i] == rs2[i - |rs1|];
      }
    }
    forall i | 0 <= i < |os|
      ensures os[i] == Process(faceBucket, ms[i], rs[i])
    {
      if i < |os1| {
        assert ms[i] == ms1[i] && rs[i] == rs1[i] && os[i] == os1[i];
      } else {
        var j := i - |os1|;
        assert ms[i] == ms2[j] && rs[i] == rs2[j] && os[i] == os2[j];
      }
    }
  }

  /** The writes of some outcomes followed by one more. */
  lemma AllWritesSnoc(os: seq<Outcome>, o: Outcome)
    ensures AllWrites(os + [o]) == AllWrites(os) + o.writes
  {
    AllWritesConcat(os, [o]);
    assert AllWrites([o]) == o.writes;
  }

  /** The writes of two runs one after the other are those of the joined run. */
  lemma {:induction false} AllWritesConcat(a: seq<Outcome>, b: seq<Outcome>)
    ensures AllWrites(a + b) == AllWrites(a) + AllWrites(b)
    decreases |a|
  {
    if a == [] {
      assert a + b == b;
    } else {
      assert (a + b)[0] == a[0];
      assert (a + b)[1..] == a[1..] + b;
      AllWritesConcat(a[1..], b);
    }
  }

  /** Replacing one outcome changes the writes of a run only in that outcome's place. */
  lemma AllWritesSplit(os: seq<Outcome>, i: nat, o: Outcome)
    requires i < |os|
    ensures AllWrites(os[i := o]) == AllWrites(os[..i]) + o.writes + AllWrites(os[i + 1..])
  {
    assert os[i := o] == os[..i] + ([o] + os[i + 1..]);
    AllWritesConcat(os[..i], [o] + os[i + 1..]);
    AllWritesConcat([o], os[i + 1..]);
    assert AllWrites([o]) == o.writes;
  }

  /**
   * Failure isolation: whatever the outside world answers for message `i`, the batch writes
   * what the messages before it write, then what message `i` writes, then what the messages
   * after it write. How message `i` fares cannot change what the others write.
   */
  lemma BatchIsolatesMessage(faceBucket: string, messages: seq<Json>, replies: seq<Replies>, i: nat, r: Replies)
    requires |replies| == |messages| && i < |messages|
    requires forall k :: 0 <= k < |replies| ==> ValidReplies(replies[k])
    requires ValidReplies(r)
    ensures AllWrites(Outcomes(faceBucket, messages, replies[i := r]))
         == AllWrites(Outcomes(faceBucket, messages[..i], replies[..i]))
            + Process(faceBucket, messages[i], r).writes
            + AllWrites(Outcomes(faceBucket, messages[i + 1..], replies[i + 1..]))
  {
    var os := Outcomes(faceBucket, messages, replies);
    var changed := Outcomes(faceBucket, messages, replies[i := r]);
    assert changed == os[i := Process(faceBucket, messages[i], r)];
    assert os[..i] == Outcomes(faceBucket, messages[..i], replies[..i]);
    assert os[i + 1..] == Outcomes(faceBucket, messages[i + 1..], replies[i + 1..]);
    AllWritesSplit(os, i, Process(faceBucket, messages[i], r));
  }

  /** The service: the face bucket it writes to and the log of its writes. */
  class Cropper {
    const faceBucket: string
    var writes: seq<Write>
    ghost var attempted: seq<Json>  // the messages handed to process_message, in order

    ghost predicate Valid()
      reads this
    {
      RowsFollowTheirCrops(writes, faceBucket)
    }

    constructor (faceBucket: string)
      ensures Valid()
      ensures this.faceBucket == faceBucket && writes == [] && attempted == []
    {
      this.faceBucket := faceBucket;
      writes := [];
      attempted := [];
    }

    /** `process_message`: raises (returns a failure) or completes both writes. */
    method ProcessMessage(message: Json, r: Replies) returns (failure: Option<Failure>, ghost outcome: Outcome)
      requires Valid() && ValidReplies(r)
      modifies this
      ensures Valid()
      ensures OutcomesOf(faceBucket, [message], [r], [outcome])
      ensures writes == old(writes) + outcome.writes
      ensures failure == outcome.failure
      ensures attempted == old(attempted) + [message]
    {
      attempted := attempted + [message];
      outcome := Process(faceBucket, message, r);
      ghost var before := writes;
      failure := Attempt(message, r);
      ProcessKeepsRowsBehindCrops(before, faceBucket, message, r);
    }

    /** The steps of `process_message`; the first one that raises ends it. */
    method Attempt(message: Json, r: Replies) returns (failure: Option<Failure>)
      requires ValidReplies(r)
      modifies this`writes
      ensures writes == old(writes) + Process(faceBucket, message, r).writes
      ensures failure == Process(faceBucket, message, r).failure
    {
      ghost var expected := Process(faceBucket, message, r);
      var text := Walk(message, BodyPath);
      if !(text.Ok? && text.value.JStr?) || r.loaded.None? {
        assert expected == Outcome([], Some(MalformedMessage));
        return Some(MalformedMessage);
      }
      var body := r.loaded.value;
      var objectKey := ObjectKeyOf(body);
      if objectKey.None? {
        assert expected == Outcome([], Some(MalformedMessage));
        return Some(MalformedMessage);
      }
      if r.photo.None? {
        assert expected == Outcome([], Some(PhotoUnavailable));
        return Some(PhotoUnavailable);
      }
      var face := FaceOf(body);
      if face.None? {
        assert expected == Outcome([], Some(MalformedMessage));
        return Some(MalformedMessage);
      }
      var box := ComputeCropRectangle(face.value);
      if box.Err? {
        assert expected == Outcome([], Some(RectangleFailed(box.error)));
        return Some(RectangleFailed(box.error));
      }
      assert expected == Store(faceBucket, objectKey.value, Crop(r.photo.value, box.value), r);
      var faceId := FaceKey(objectKey.value, r.n);
      if !r.encodes {
        assert expected == Outcome([], Some(EncodeFailed));
        return Some(EncodeFailed);
      }
      var crop := Crop(r.photo.value, box.value);
      var stored := PutImage(faceBucket, faceId, crop, r.putSucceeds);
      if !stored {
        assert expected == Outcome([], Some(PutFailed));
        return Some(PutFailed);
      }
      var inserted := AddImageToDatabase(r.rowId, objectKey.value, faceId, r.insertSucceeds);
      if !inserted {
        assert expected == Outcome([PutObject(faceBucket, faceId, crop)], Some(InsertFailed));
        return Some(InsertFailed);
      }
      assert expected.writes == [PutObject(faceBucket, faceId, crop), InsertRow(PhotoRow(r.rowId, objectKey.value, faceId))];
      return None;
    }

    /** `put_image`: uploads `content` under `name`, or raises and stores nothing. */
    method PutImage(bucket: string, name: string, content: Crop, succeeds: bool) returns (ok: bool)
      modifies this`writes
      ensures ok == succeeds
      ensures writes == old(writes) + (if succeeds then [PutObject(bucket, name, content)] else [])
    {
      if succeeds {
        writes := writes + [PutObject(bucket, name, content)];
      }
      return succeeds;
    }

    /**
     * `add_image_to_database`: inserts the row (id, original_id, face_id) into `photo_table`
     * with a random 64-bit id, or raises and inserts nothing.
     */
    method AddImageToDatabase(rowId: int, originalId: string, faceId: string, succeeds: bool) returns (ok: bool)
      requires 0 <= rowId < 0x1_0000_0000_0000_0000
      modifies this`writes
      ensures ok == succeeds
      ensures writes == old(writes) + (if succeeds then [InsertRow(PhotoRow(rowId, originalId, faceId))] else [])
    {
      if succeeds {
        writes := writes + [InsertRow(PhotoRow(rowId, originalId, faceId))];
      }
      return succeeds;
    }

    /**
     * `start_function`: reads the message list (an exception there escapes the handler),
     * attempts every message in order whatever became of the previous ones, and answers 200.
     */
    method StartFunction(request: Json, replies: seq<Replies>) returns (status: Result<int, PyError>)
      requires Valid()
      requires MessageList(request).Ok? ==> |replies| == |MessageList(request).value|
      requires forall i :: 0 <= i < |replies| ==> ValidReplies(replies[i])
      modifies this
      ensures Valid()
      ensures MessageList(request).Err? ==>
                status == Err(MessageList(request).error) && writes == old(writes) && attempted == old(attempted)
      ensures MessageList(request).Ok? ==>
                && status == Ok(200)
                && attempted == old(attempted) + MessageList(request).value
                && writes == old(writes) + AllWrites(Outcomes(faceBucket, MessageList(request).value, replies))
    {
      var list := MessageList(request);
      if list.Err? {
        return Err(list.error);
      }
      ghost var outcomes := ProcessAll(list.value, replies);
      OutcomesOfUnique(faceBucket, list.value, replies, outcomes);
      return Ok(200);
    }

    /** The loop of `start_function`: every message in turn, its failure swallowed. */
    method ProcessAll(messages: seq<Json>, replies: seq<Replies>) returns (ghost outcomes: seq<Outcome>)
      requires Valid()
      requires |replies| == |messages|
      requires forall i :: 0 <= i < |replies| ==> ValidReplies(replies[i])
      modifies this
      ensures Valid()
      ensures attempted == old(attempted) + messages
      ensures OutcomesOf(faceBucket, messages, replies, outcomes)
      ensures writes == old(writes) + AllWrites(outcomes)
    {
      outcomes := [];
      for k := 0 to |messages|
        invariant Valid()
        invariant attempted == old(attempted) + messages[..k]
        invariant OutcomesOf(faceBucket, messages[..k], replies[..k], outcomes)
        invariant writes == old(writes) + AllWrites(outcomes)
      {
        ghost var o;
        var failure;
        failure, o := ProcessMessage(messages[k], replies[k]);
        // the failure is swallowed: the next message is attempted regardless
        OutcomesOfConcat(faceBucket, messages[..k], replies[..k], outcomes, [messages[k]], [replies[k]], [o]);
        AllWritesSnoc(outcomes, o);
        outcomes := outcomes + [o];
        assert messages[..k + 1] == messages[..k] + [messages[k]];
        assert replies[..k + 1] == replies[..k] + [replies[k]];
      }
      assert messages[..|messages|] == messages && replies[..|messages|] == replies;
    }
  }
}
