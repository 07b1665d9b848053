/**
 * The two functions together on one photo: the detector finds one face in `cat.jpg` and
 * queues it, and the cropper stores the crop of that face and links it to the photo.
 */
module Pipeline {
  import opened Wrappers
  import opened PyJson
  import opened DecimalText
  import opened CropGeometry
  import opened FaceKeys
  import opened CropperService
  import opened Detector

  /** A vertex as the vision service reports it. */
  function VertexJson(x: int, y: int): Json {
    JObj([("x", JNum(x)), ("y", JNum(y))])
  }

  /** The four corners of an axis-aligned rectangle, listed clockwise from the top left. */
  function Corners(left: int, top: int, right: int, bottom: int): seq<Vertex> {
    [Vertex(left, top), Vertex(right, top), Vertex(right, bottom), Vertex(left, bottom)]
  }

  /** The same corners as the vision service reports them. */
  function CornerItems(left: int, top: int, right: int, bottom: int): seq<Json> {
    [VertexJson(left, top), VertexJson(right, top), VertexJson(right, bottom), VertexJson(left, bottom)]
  }

  /** The vision service's answer when it finds exactly one face, with the given vertex list. */
  function OneFaceAnswer(vertices: Json): Json {
    var face := JObj([("boundingBox", JObj([("vertices", vertices)]))]);
    var detection := JObj([("faceDetection", JObj([("faces", JArr([face]))]))]);
    JObj([("results", JArr([JObj([("results", JArr([detection]))])]))])
  }

  /** The bounding polygon of the face in `cat.jpg`, an axis-aligned rectangle, as reported and as decoded. */
  const CatItems: seq<Json> := CornerItems(10, 20, 50, 80)
  const CatFace: seq<Vertex> := Corners(10, 20, 50, 80)

  /** The queue message the detector publishes for the face. */
  const CatMessage: Json := ConvertToMessage(JStr("cat.jpg"), JArr(CatItems))

  /** A one-entry dict holds its entry. */
  lemma SingleEntry(name: string, v: Json)
    ensures Subscript(JObj([(name, v)]), Field(name)) == Ok(v)
  {
  }

  /** The path to the faces leads, in an answer with one face, to the list holding that face. */
  lemma OneFaceAnswerHoldsFace(vertices: Json)
    ensures Walk(OneFaceAnswer(vertices), FacesPath)
      == Ok(JArr([JObj([("boundingBox", JObj([("vertices", vertices)]))])]))
  {
    var face := JObj([("boundingBox", JObj([("vertices", vertices)]))]);
    var faces := JArr([face]);
    var detection := JObj([("faceDetection", JObj([("faces", faces)]))]);
    var inner := JObj([("results", JArr([detection]))]);
    var answer := OneFaceAnswer(vertices);
    SingleEntry("results", JArr([inner]));
    SingleEntry("results", JArr([detection]));
    SingleEntry("faceDetection", JObj([("faces", faces)]));
    SingleEntry("faces", faces);
    var p1, p2, p3 := [Field("results"), Index(0)], [Field("results"), Index(0)], [Field("faceDetection"), Field("faces")];
    assert FacesPath == p1 + (p2 + p3);
    WalkSplit(answer, [Field("results")], [Index(0)]);
    WalkSplit(inner, [Field("results")], [Index(0)]);
    WalkSplit(detection, [Field("faceDetection")], [Field("faces")]);
    WalkSplit(inner, p2, p3);
    WalkSplit(answer, p1, p2 + p3);
  }

  /** For an answer with one face, the detector returns that face's vertex list, unchanged. */
  lemma OneFaceFound(vertices: Json)
    ensures ParseFaces(OneFaceAnswer(vertices)) == Ok([vertices])
  {
    var face := JObj([("boundingBox", JObj([("vertices", vertices)]))]);
    OneFaceAnswerHoldsFace(vertices);
    SingleEntry("boundingBox", JObj([("vertices", vertices)]));
    SingleEntry("vertices", vertices);
    assert Walk(face, VerticesPath) == Ok(vertices) by {
      WalkSplit(face, [Field("boundingBox")], [Field("vertices")]);
    }
    FullPathGivesOneListPerFace(OneFaceAnswer(vertices), [face]);
    assert ParseFaces(OneFaceAnswer(vertices)).value == [vertices];
  }

  /** The detector finds the cat's face and publishes its vertex list unchanged, under the photo's key. */
  lemma CatDetection()
    ensures ParseFaces(OneFaceAnswer(JArr(CatItems))) == Ok([JArr(CatItems)])
    ensures FaceSends(JStr("cat.jpg"), [JArr(CatItems)]) == [Send(CatMessage, JStr("cat.jpg"))]
  {
    OneFaceFound(JArr(CatItems));
    assert [JArr(CatItems)][..0] == [];
  }

  /** The cropper reads back a reported vertex as the same coordinates. */
  lemma VertexDecodes(x: int, y: int)
    ensures DecodeVertex(VertexJson(x, y)) == Some(Vertex(x, y))
  {
    var fields := [("x", JNum(x)), ("y", JNum(y))];
    assert fields[..1] == [("x", JNum(x))];
    assert Lookup(fields[..1], "x") == Some(JNum(x));
    assert "y" != "x";
  }

  /**
   * The cropper reads back what the detector queued: the object key, and the face decoded
   * vertex by vertex from the list the detector passed on.
   */
  lemma QueuedMessageDecodes(key: string, items: seq<Json>)
    ensures ObjectKeyOf(ConvertToMessage(JStr(key), JArr(items))) == Some(key)
    ensures FaceOf(ConvertToMessage(JStr(key), JArr(items))) == DecodeVertices(items)
  {
  }

  /** The cropper decodes the reported corners of a rectangle back into the same corners. */
  lemma CornersDecode(left: int, top: int, right: int, bottom: int)
    ensures DecodeVertices(CornerItems(left, top, right, bottom)) == Some(Corners(left, top, right, bottom))
  {
    var items := CornerItems(left, top, right, bottom);
    VertexDecodes(left, top);
    VertexDecodes(right, top);
    VertexDecodes(right, bottom);
    VertexDecodes(left, bottom);
    DecodeVerticesSpec(items);
    assert DecodeVertices(items).value == Corners(left, top, right, bottom);
  }

  /** The cropper decodes the queued message back into the object key and the four vertices. */
  lemma CatMessageDecodes()
    ensures ObjectKeyOf(CatMessage) == Some("cat.jpg")
    ensures FaceOf(CatMessage) == Some(CatFace)
  {
    QueuedMessageDecodes("cat.jpg", CatItems);
    CornersDecode(10, 20, 50, 80);
  }

  /** The crop of an axis-aligned rectangle's corners is that rectangle, which is also their bounding box. */
  lemma CornersGiveTheirRectangle(left: int, top: int, right: int, bottom: int)
    requires left < right && top < bottom
    ensures CropRectangle(Corners(left, top, right, bottom)) == Ok(Rect(left, top, right, bottom))
    ensures BoundingBox(Corners(left, top, right, bottom)) == Rect(left, top, right, bottom)
  {
    var face := Corners(left, top, right, bottom);
    var xs, ys := Xs(face), Ys(face);
    assert xs == [left, right, right, left] && ys == [top, top, bottom, bottom];
    assert Distinct(xs) == {left, right};
    assert Distinct(ys) == {top, bottom};
    TwoValuesPerAxisGiveBoundingBox(face);
  }

  /** The rectangle of the cat's face is its bounding box (10, 20, 50, 80). */
  lemma CatRectangle()
    ensures CropRectangle(CatFace) == Ok(Rect(10, 20, 50, 80))
  {
    CornersGiveTheirRectangle(10, 20, 50, 80);
  }

  /**
   * A message whose key, face and rectangle all decode, with every later step succeeding,
   * produces exactly the upload of the crop followed by the row linking the photo to it.
   */
  lemma DecodedMessageIsStored(faceBucket: string, envelope: Json, r: Replies, key: string, face: seq<Vertex>, box: Rect)
    requires Walk(envelope, BodyPath).Ok? && Walk(envelope, BodyPath).value.JStr?
    requires ValidReplies(r) && r.loaded.Some? && r.photo.Some? && r.encodes && r.putSucceeds && r.insertSucceeds
    requires ObjectKeyOf(r.loaded.value) == Some(key) && FaceOf(r.loaded.value) == Some(face)
    requires CropRectangle(face) == Ok(box)
    ensures Process(faceBucket, envelope, r)
      == Outcome([PutObject(faceBucket, FaceKey(key, r.n), Crop(r.photo.value, box)),
                  InsertRow(PhotoRow(r.rowId, key, FaceKey(key, r.n)))], None)
  {
  }

  /** The face key of the n-th crop of `cat.jpg`. */
  lemma CatFaceKey(n: int)
    requires 0 <= n <= MaxSuffix
    ensures FaceKey("cat.jpg", n) == "face_cat_" + Decimal(n) + ".jpg"
  {
    assert StripJpg("cat.jpg") == "cat" by {
      StripJpgUndoesAppend("cat");
      assert "cat" + Jpg == "cat.jpg";
    }
  }

  /**
   * When every step of the cropper succeeds on the queued message, it uploads the crop of
   * (10, 20, 50, 80) under `face_cat_<n>.jpg` and inserts the row linking `cat.jpg` to it.
   */
  lemma CatCropped(faceBucket: string, envelope: Json, r: Replies)
    requires Walk(envelope, BodyPath).Ok? && Walk(envelope, BodyPath).value.JStr?
    requires r.loaded == Some(CatMessage)
    requires ValidReplies(r) && r.photo.Some? && r.encodes && r.putSucceeds && r.insertSucceeds
    ensures var key := "face_cat_" + Decimal(r.n) + ".jpg";
      Process(faceBucket, envelope, r)
        == Outcome([PutObject(faceBucket, key, Crop(r.photo.value, Rect(10, 20, 50, 80))),
                    InsertRow(PhotoRow(r.rowId, "cat.jpg", key))], None)
  {
    CatMessageDecodes();
    CatRectangle();
    DecodedMessageIsStored(faceBucket, envelope, r, "cat.jpg", CatFace, Rect(10, 20, 50, 80));
    CatFaceKey(r.n);
  }
}
