/**
 * The face detector (face_recognition/utils.py): triggered by an upload to the photo
 * bucket, it asks the vision service for the faces in the photo, extracts each face's
 * bounding polygon from the answer and sends one queue message per face, all carrying the
 * photo's object key as their deduplication id.
 *
 * The photo download, the base64 encoding, the HTTP call to the vision service and the
 * queue client are outside the model: the vision service's decoded answer is a parameter,
 * and the queue is a log of the sends made to it.
 */
module Detector {
  import opened Wrappers
  import opened PyJson

  const FaceDetection: string := "FACE_DETECTION"

  /** `get_request(content)`: the body of the analyze call for one image. */
  function GetRequest(content: string): Json
  {
    JObj([("analyze_specs", JArr([AnalyzeSpec(content)]))])
  }

  /** The one analyze spec of the request: the image content and the one feature asked for. */
  function AnalyzeSpec(content: string): Json
  {
    JObj([("content", JStr(content)), ("features", JArr([JObj([("type", JStr(FaceDetection))])]))])
  }

  /**
   * The request holds exactly one analyze spec; the spec has exactly the entries `content`,
   * holding the image content, and `features`.
   */
  lemma GetRequestHoldsContent(content: string)
    ensures GetRequest(content).JObj? && Keys(GetRequest(content).fields) == ["analyze_specs"]
    ensures Walk(GetRequest(content), [Field("analyze_specs"), Index(0)]) == Ok(AnalyzeSpec(content))
    ensures Walk(GetRequest(content), [Field("analyze_specs"), Index(1)]) == Err(IndexError)
    ensures Keys(AnalyzeSpec(content).fields) == ["content", "features"]
    ensures Walk(GetRequest(content), [Field("analyze_specs"), Index(0), Field("content")]) == Ok(JStr(content))
  {
    var r, spec := GetRequest(content), AnalyzeSpec(content);
    assert Subscript(r, Field("analyze_specs")) == Ok(JArr([spec]));
    assert Walk(r, [Field("analyze_specs"), Index(0)]) == Ok(spec) by {
      WalkSplit(r, [Field("analyze_specs")], [Index(0)]);
    }
    WalkSplit(r, [Field("analyze_specs")], [Index(1)]);
    assert Subscript(spec, Field("content")) == Ok(JStr(content)) by {
      assert spec.fields[..1] == [("content", JStr(content))];
      assert Lookup(spec.fields[..1], "content") == Some(JStr(content));
      assert "features" != "content";
    }
    WalkSplit(r, [Field("analyze_specs"), Index(0)], [Field("content")]);
  }

  /** The spec asks for exactly one feature, face detection, and the feature has no other entry. */
  lemma GetRequestAsksForFaces(content: string)
    ensures Walk(AnalyzeSpec(content), [Field("features"), Index(0), Field("type")]) == Ok(JStr(FaceDetection))
    ensures Walk(AnalyzeSpec(content), [Field("features"), Index(1)]) == Err(IndexError)
    ensures var feature := Walk(AnalyzeSpec(content), [Field("features"), Index(0)]);
      feature.Ok? && feature.value.JObj? && Keys(feature.value.fields) == ["type"]
  {
    var spec := AnalyzeSpec(content);
    var feature := JObj([("type", JStr(FaceDetection))]);
    assert Subscript(spec, Field("features")) == Ok(JArr([feature]));
    assert Walk(spec, [Field("features"), Index(0)]) == Ok(feature) by {
      WalkSplit(spec, [Field("features")], [Index(0)]);
    }
    WalkSplit(spec, [Field("features")], [Index(1)]);
    WalkSplit(spec, [Field("features"), Index(0)], [Field("type")]);
  }

  /** `response.json()['results'][0]['results'][0]['faceDetection']['faces']` */
  const FacesPath: seq<Key> :=
    [Field("results"), Index(0), Field("results"), Index(0), Field("faceDetection"), Field("faces")]

  /** `face['boundingBox']['vertices']` */
  const VerticesPath: seq<Key> := [Field("boundingBox"), Field("vertices")]

  /**
   * The loop of `find_faces` over the faces: each face's vertex list appended in turn; the
   * first face whose lookup raises ends the loop with that exception.
   */
  function CollectVertices(faces: seq<Json>): Result<seq<Json>, PyError>
    decreases |faces|
  {
    if faces == [] then Ok([])
    else
      match CollectVertices(faces[..|faces| - 1])
      case Err(e) => Err(e)
      case Ok(vs) =>
        match Walk(faces[|faces| - 1], VerticesPath)
        case Err(e) => Err(e)
        case Ok(v) => Ok(vs + [v])
  }

  /**
   * The loop succeeds exactly when every face has a vertex list, and then it holds one list
   * per face, in face order.
   */
  lemma {:induction false} CollectVerticesOk(faces: seq<Json>)
    ensures CollectVertices(faces).Ok? <==> forall i :: 0 <= i < |faces| ==> Walk(faces[i], VerticesPath).Ok?
    ensures CollectVertices(faces).Ok? ==>
              |CollectVertices(faces).value| == |faces| &&
              forall i :: 0 <= i < |faces| ==> Walk(faces[i], VerticesPath) == Ok(CollectVertices(faces).value[i])
    decreases |faces|
  {
    if faces != [] {
      var n := |faces| - 1;
      var init := faces[..n];
      CollectVerticesOk(init);
      assert forall i :: 0 <= i < |init| ==> init[i] == faces[i];
      if CollectVertices(init).Ok? && Walk(faces[n], VerticesPath).Ok? {
        var vs := CollectVertices(faces).value;
        assert vs == CollectVertices(init).value + [Walk(faces[n], VerticesPath).value];
        assert forall i :: 0 <= i < n ==> vs[i] == CollectVertices(init).value[i];
      }
    }
  }

  /** When the loop raises, it raises what the first failing face raised. */
  lemma {:induction false} CollectVerticesFirstError(faces: seq<Json>)
    ensures CollectVertices(faces).Err? ==>
              exists i :: 0 <= i < |faces| && Walk(faces[i], VerticesPath) == Err(CollectVertices(faces).error) &&
                          forall j :: 0 <= j < i ==> Walk(faces[j], VerticesPath).Ok?
    decreases |faces|
  {
    if faces != [] {
      var init := faces[..|faces| - 1];
      CollectVerticesFirstError(init);
      CollectVerticesOk(init);
      assert forall i :: 0 <= i < |init| ==> init[i] == faces[i];
    }
  }

  /**
   * Both of the above: success exactly when every face has a vertex list, one list per face
   * in order, and otherwise the first failing face's exception.
   */
  lemma CollectVerticesSpec(faces: seq<Json>)
    ensures CollectVertices(faces).Ok? <==> forall i :: 0 <= i < |faces| ==> Walk(faces[i], VerticesPath).Ok?
    ensures CollectVertices(faces).Ok? ==>
              |CollectVertices(faces).value| == |faces| &&
              forall i :: 0 <= i < |faces| ==> Walk(faces[i], VerticesPath) == Ok(CollectVertices(faces).value[i])
    ensures CollectVertices(faces).Err? ==>
              exists i :: 0 <= i < |faces| && Walk(faces[i], VerticesPath) == Err(CollectVertices(faces).error) &&
                          forall j :: 0 <= j < i ==> Walk(faces[j], VerticesPath).Ok?
  {
    CollectVerticesOk(faces);
    CollectVerticesFirstError(faces);
  }

  /** Once the faces seen so far make the loop raise, later faces change nothing. */
  lemma {:induction false} CollectVerticesErrorSticks(faces: seq<Json>, k: nat)
    requires k <= |faces| && CollectVertices(faces[..k]).Err?
    ensures CollectVertices(faces) == CollectVertices(faces[..k])
    decreases |faces| - k
  {
    if k < |faces| {
      assert faces[..k + 1][..k] == faces[..k];
      CollectVerticesErrorSticks(faces, k + 1);
    } else {
      assert faces[..k] == faces;
    }
  }

  /**
   * What `find_faces` returns for the vision service's answer: the vertex lists, or `[]`
   * when a KeyError is raised anywhere on the way; any other exception escapes.
   */
  function ParseFaces(response: Json): Result<seq<Json>, PyError>
  {
    match Walk(response, FacesPath)
    case Err(e) => if e == KeyError then Ok([]) else Err(e)
    case Ok(faces) =>
      match Iterate(faces)
      case Err(e) => Err(e)
      case Ok(items) =>
        match CollectVertices(items)
        case Err(e) => if e == KeyError then Ok([]) else Err(e)
        case Ok(vs) => Ok(vs)
  }

  /** `find_faces` once the answer is in: the path walk, then the loop appending to `coordinates`. */
  method FindFaces(response: Json) returns (r: Result<seq<Json>, PyError>)
    ensures r == ParseFaces(response)
  {
    var found := Walk(response, FacesPath);
    if found.Err? {
      if found.error == KeyError {
        return Ok([]);
      }
      return Err(found.error);
    }
    var faces := Iterate(found.value);
    if faces.Err? {
      return Err(faces.error);
    }
    var items := faces.value;
    var coordinates: seq<Json> := [];
    for k := 0 to |items|
      invariant CollectVertices(items[..k]) == Ok(coordinates)
    {
      assert items[..k + 1][..k] == items[..k];
      var vertices := Walk(items[k], VerticesPath);
      if vertices.Err? {
        CollectVerticesErrorSticks(items, k + 1);
        if vertices.error == KeyError {
          return Ok([]);
        }
        return Err(vertices.error);
      }
      coordinates := coordinates + [vertices.value];
    }
    assert items[..|items|] == items;
    return Ok(coordinates);
  }

  /** With the whole path present and every face complete: one vertex list per face, in order. */
  lemma FullPathGivesOneListPerFace(response: Json, faces: seq<Json>)
    requires Walk(response, FacesPath) == Ok(JArr(faces))
    requires forall i :: 0 <= i < |faces| ==> Walk(faces[i], VerticesPath).Ok?
    ensures ParseFaces(response).Ok?
    ensures |ParseFaces(response).value| == |faces|
    ensures forall i :: 0 <= i < |faces| ==> ParseFaces(response).value[i] == Walk(faces[i], VerticesPath).value
  {
    CollectVerticesSpec(faces);
  }

  /**
   * A dict on the path to the faces that lacks the next key (`results`, `faceDetection` or
   * `faces`) makes `find_faces` return the empty list.
   */
  lemma MissingKeyGivesNoFaces(response: Json, i: nat, m: seq<(string, Json)>)
    requires i < |FacesPath| && FacesPath[i].Field? && FacesPath[i].name !in Keys(m)
    requires Walk(response, FacesPath[..i]) == Ok(JObj(m))
    ensures ParseFaces(response) == Ok([])
  {
    WalkMissingField(response, FacesPath, i, m);
  }

  /**
   * A single face without `boundingBox` or `vertices` empties the whole result, even when the
   * faces before it were complete: nothing of what was collected is returned.
   */
  lemma OneIncompleteFaceDropsAll(response: Json, faces: seq<Json>, i: nat)
    requires Walk(response, FacesPath) == Ok(JArr(faces))
    requires i < |faces| && Walk(faces[i], VerticesPath) == Err(KeyError)
    requires forall j :: 0 <= j < i ==> Walk(faces[j], VerticesPath).Ok?
    ensures ParseFaces(response) == Ok([])
  {
    CollectVerticesSpec(faces[..i]);
    assert forall j :: 0 <= j < i ==> faces[..i][j] == faces[j];
    assert faces[..i + 1][..i] == faces[..i];
    CollectVerticesErrorSticks(faces, i + 1);
  }

  /**
   * An empty outer `results` list is not a KeyError: `results[0]` raises IndexError, which
   * `find_faces` does not catch.
   */
  lemma EmptyResultsRaises(response: Json)
    requires Walk(response, [Field("results")]) == Ok(JArr([]))
    ensures ParseFaces(response) == Err(IndexError)
  {
    WalkSplit(response, [Field("results")], FacesPath[1..]);
    assert [Field("results")] + FacesPath[1..] == FacesPath;
  }

  /** `convert_to_message(object_key, face)`: a two-entry dict. */
  function ConvertToMessage(objectKey: Json, face: Json): (m: Json)
    ensures m.JObj? && Keys(m.fields) == ["object_key", "face"]
    ensures Subscript(m, Field("object_key")) == Ok(objectKey)
    ensures Subscript(m, Field("face")) == Ok(face)
  {
    var fields := [("object_key", objectKey), ("face", face)];
    assert fields[..1] == [("object_key", objectKey)];
    assert Lookup(fields[..1], "object_key") == Some(objectKey);
    assert "face" != "object_key";
    JObj(fields)
  }

  /** One `send_message` call: the message (its JSON text is `json.dumps` of it) and its deduplication id. */
  datatype Send = Send(body: Json, dedupId: Json)

  /** The sends `send_faces_to_queue` makes, in order. */
  function FaceSends(objectKey: Json, faces: seq<Json>): seq<Send>
    decreases |faces|
  {
    if faces == [] then []
    else
      FaceSends(objectKey, faces[..|faces| - 1])
      + [Send(ConvertToMessage(objectKey, faces[|faces| - 1]), objectKey)]
  }

  /**
   * One send per face, in face order; send `i` carries the object key and face `i`, and
   * every send uses the object key as its deduplication id.
   */
  lemma {:induction false} FaceSendsSpec(objectKey: Json, faces: seq<Json>)
    ensures |FaceSends(objectKey, faces)| == |faces|
    ensures forall i :: 0 <= i < |faces| ==>
              && Subscript(FaceSends(objectKey, faces)[i].body, Field("object_key")) == Ok(objectKey)
              && Subscript(FaceSends(objectKey, faces)[i].body, Field("face")) == Ok(faces[i])
              && FaceSends(objectKey, faces)[i].dedupId == objectKey
    decreases |faces|
  {
    if faces != [] {
      var init := faces[..|faces| - 1];
      FaceSendsSpec(objectKey, init);
      assert forall i :: 0 <= i < |init| ==> init[i] == faces[i];
    }
  }

  /** The message queue, seen through the sends made to it. */
  class MessageQueue {
    ghost var sent: seq<Send>

    constructor ()
      ensures sent == []
    {
      sent := [];
    }

    /** `sqs.send_message(QueueUrl=..., MessageBody=json.dumps(body), MessageDeduplicationId=dedupId)` */
    method SendMessage(body: Json, dedupId: Json)
      modifies this
      ensures sent == old(sent) + [Send(body, dedupId)]
    {
      sent := sent + [Send(body, dedupId)];
    }
  }

  /** The sends for one more face are those for the faces before it, then that face's. */
  lemma FaceSendsStep(objectKey: Json, faces: seq<Json>, k: nat)
    requires k < |faces|
    ensures FaceSends(objectKey, faces[..k + 1])
         == FaceSends(objectKey, faces[..k]) + [Send(ConvertToMessage(objectKey, faces[k]), objectKey)]
  {
    assert faces[..k + 1][..k] == faces[..k];
  }

  /** `send_faces_to_queue`: builds one message per face, then sends them in order. */
  method SendFacesToQueue(queue: MessageQueue, objectKey: Json, faces: seq<Json>)
    modifies queue
    ensures queue.sent == old(queue.sent) + FaceSends(objectKey, faces)
  {
    var messages := seq(|faces|, i requires 0 <= i < |faces| => ConvertToMessage(objectKey, faces[i]));
    for k := 0 to |messages|
      invariant queue.sent == old(queue.sent) + FaceSends(objectKey, faces[..k])
    {
      assert messages[k] == ConvertToMessage(objectKey, faces[k]);
      FaceSendsStep(objectKey, faces, k);
      queue.SendMessage(messages[k], objectKey);
    }
    assert faces[..|faces|] == faces;
  }

  /**
   * The sends a FIFO queue keeps within one deduplication window: a send whose
   * deduplication id was already used earlier in the window is accepted but dropped.
   */
  function Deduplicated(sends: seq<Send>): seq<Send>
    decreases |sends|
  {
    if sends == [] then []
    else
      var last := sends[|sends| - 1];
      var kept := Deduplicated(sends[..|sends| - 1]);
      if exists i :: 0 <= i < |sends| - 1 && sends[i].dedupId == last.dedupId then kept else kept + [last]
  }

  /**
   * Because every face of a photo reuses the photo's object key as deduplication id, a
   * deduplicating queue that saw nothing else in the window keeps only the first face.
   */
  lemma {:induction false} OnlyFirstFaceSurvivesDeduplication(objectKey: Json, faces: seq<Json>)
    requires |faces| >= 1
    ensures Deduplicated(FaceSends(objectKey, faces)) == [Send(ConvertToMessage(objectKey, faces[0]), objectKey)]
    decreases |faces|
  {
    var sends := FaceSends(objectKey, faces);
    if |faces| > 1 {
      var init := faces[..|faces| - 1];
      OnlyFirstFaceSurvivesDeduplication(objectKey, init);
      assert init[0] == faces[0];
      FaceSendsSpec(objectKey, init);
      assert sends[..|sends| - 1] == FaceSends(objectKey, init);
      assert sends[0].dedupId == objectKey;
    }
  }

  /** `event['messages'][0]['details']['bucket_id']` */
  const BucketPath: seq<Key> := [Field("messages"), Index(0), Field("details"), Field("bucket_id")]

  /** `event['messages'][0]['details']['object_id']` */
  const ObjectPath: seq<Key> := [Field("messages"), Index(0), Field("details"), Field("object_id")]

  /** The bucket and object key of the uploaded photo. */
  datatype Upload = Upload(bucket: Json, name: Json)

  /** The two reads at the top of `handler`; the first exception escapes. */
  function UploadOf(event: Json): Result<Upload, PyError>
  {
    match Walk(event, BucketPath)
    case Err(e) => Err(e)
    case Ok(bucket) =>
      match Walk(event, ObjectPath)
      case Err(e) => Err(e)
      case Ok(name) => Ok(Upload(bucket, name))
  }

  /**
   * `handler` reads only the first trigger message: two events whose first messages agree
   * name the same upload, whatever else they hold.
   */
  lemma OnlyFirstMessageRead(e1: Json, e2: Json)
    requires Walk(e1, [Field("messages"), Index(0)]) == Walk(e2, [Field("messages"), Index(0)])
    ensures UploadOf(e1) == UploadOf(e2)
  {
    var first := [Field("messages"), Index(0)];
    var bucketTail := [Field("details"), Field("bucket_id")];
    var objectTail := [Field("details"), Field("object_id")];
    assert BucketPath == first + bucketTail && ObjectPath == first + objectTail;
    WalkSplit(e1, first, bucketTail);
    WalkSplit(e2, first, bucketTail);
    WalkSplit(e1, first, objectTail);
    WalkSplit(e2, first, objectTail);
  }

  /**
   * `handler`: the upload named by the event, the faces the vision service finds in it,
   * then one send per face. An exception before the sends leaves the queue untouched.
   */
  method Handler(event: Json, response: Json, queue: MessageQueue) returns (r: Result<(), PyError>)
    modifies queue
    ensures UploadOf(event).Err? ==> r == Err(UploadOf(event).error) && queue.sent == old(queue.sent)
    ensures UploadOf(event).Ok? && ParseFaces(response).Err? ==>
              r == Err(ParseFaces(response).error) && queue.sent == old(queue.sent)
    ensures UploadOf(event).Ok? && ParseFaces(response).Ok? ==>
              r == Ok(()) &&
              queue.sent == old(queue.sent) + FaceSends(UploadOf(event).value.name, ParseFaces(response).value)
  {
    var bucket := Walk(event, BucketPath);
    if bucket.Err? {
      return Err(bucket.error);
    }
    var name := Walk(event, ObjectPath);
    if name.Err? {
      return Err(name.error);
    }
    var faces := FindFaces(response);
    if faces.Err? {
      return Err(faces.error);
    }
    SendFacesToQueue(queue, name.value, faces.value);
    return Ok(());
  }
}
