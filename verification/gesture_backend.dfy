/** The gesture backend (backend/app.py): `decode_base64_image` and the
    `/process_frame` handler. base64 decoding, `cv2.imdecode` and the gesture
    recognizer are foreign calls passed in as functions; the request's JSON
    parsing is passed in as its outcome. */
module GestureBackend {
  import opened Common

  const DataUrlMarker: string := "base64,"

  // --------------------------------------------------- decode_base64_image

  /** Lines 39-40: the text after the first `base64,` up to the next one, or
      the whole string when there is none. */
  function StripDataUrl(s: string): (r: string)
    ensures !Contains(s, DataUrlMarker) ==> r == s
    ensures !Contains(r, DataUrlMarker)
    ensures Contains(s, DataUrlMarker) ==>
      exists i :: OccursAt(s, DataUrlMarker, i) && (forall k :: 0 <= k < i ==> !OccursAt(s, DataUrlMarker, k))
                  && IsPrefix(r, s[i + |DataUrlMarker|..])
                  && NoneIn(s, DataUrlMarker, i + |DataUrlMarker|, i + |DataUrlMarker| + |r|)
                  && (i + |DataUrlMarker| + |r| == |s| || OccursAt(s, DataUrlMarker, i + |DataUrlMarker| + |r|))
  {
    match SplitField1(s, DataUrlMarker)
    case Some(field) => field
    case None => s
  }

  /** Stripping twice is stripping once. */
  lemma StripDataUrlIdempotent(s: string)
    ensures StripDataUrl(StripDataUrl(s)) == StripDataUrl(s)
  {
  }

  /** A data URL whose header and payload do not themselves contain `base64,`
      is stripped to exactly its payload. */
  lemma StripDataUrlPayload(header: string, payload: string)
    requires !Contains(header, DataUrlMarker) && !Contains(payload, DataUrlMarker)
    ensures StripDataUrl(header + DataUrlMarker + payload) == payload
  {
    var pat := DataUrlMarker;
    var s := header + pat + payload;
    var m := |header|;
    assert s[m..m + 7] == pat;
    // no occurrence before the marker: inside the header, or straddling it
    forall k | 0 <= k < m
      ensures !OccursAt(s, pat, k)
    {
      if k + 7 <= m {
        assert s[k..k + 7] == header[k..k + 7];
        assert !OccursAt(header, pat, k);
      } else {
        assert s[k + 6] == pat[k + 6 - m] != ',';
        assert pat[6] == ',';
        if k + 7 <= |s| {
          assert s[k..k + 7][6] == s[k + 6];
        }
      }
    }
    // none inside the marker after its start, nor in the payload
    forall k | m < k
      ensures !OccursAt(s, pat, k)
    {
      if k < m + 7 {
        assert s[k] == pat[k - m] != 'b';
        if k + 7 <= |s| {
          assert s[k..k + 7][0] == s[k];
        }
      } else if k + 7 <= |s| {
        assert s[k..k + 7] == payload[k - m - 7..k - m];
        assert !OccursAt(payload, pat, k - m - 7);
      }
    }
    var r := StripDataUrl(s);
    assert OccursAt(s, pat, m);
    ContainsIff(s, pat);
    assert IsPrefix(r, s[m + 7..]);
    assert s[m + 7..] == payload;
  }

  /** `decode_base64_image`'s membership test on a value that is not a string:
      containers are searched, anything else raises. */
  function DecodeInput(frame: Json): (r: Result<Json, string>)
    ensures frame.Str? ==> r == Ok(Str(StripDataUrl(frame.s)))
    ensures frame.Null? || frame.Bool? || frame.Int? || frame.Float? ==>
              r == Err("argument of type '" + PyTypeName(frame) + "' is not iterable")
    ensures frame.List? ==> (r.Err? <==> Str(DataUrlMarker) in frame.items)
    ensures frame.Object? ==> (r.Err? <==> DataUrlMarker in frame.fields)
    ensures r.Ok? && !frame.Str? ==> r.value == frame
  {
    match frame
    case Str(s) => Ok(Str(StripDataUrl(s)))
    case List(items) =>
      if Str(DataUrlMarker) in items then Err("'list' object has no attribute 'split'") else Ok(frame)
    case Object(fields) =>
      if DataUrlMarker in fields then Err("'dict' object has no attribute 'split'") else Ok(frame)
    case _ => Err("argument of type '" + PyTypeName(frame) + "' is not iterable")
  }

  /** `decode_base64_image`: the decoded image, or the message of the
      exception it raises. `b64decode` is `base64.b64decode`; `imdecode` is
      `cv2.imdecode`, which answers None for bytes that are no image and
      raises on some inputs (an empty buffer). */
  function DecodeBase64Image<Img>(
    frame: Json,
    b64decode: Json -> Result<seq<bv8>, string>,
    imdecode: seq<bv8> -> Result<Option<Img>, string>): (r: Result<Img, string>)
    ensures DecodeInput(frame).Err? ==> r == Err(DecodeInput(frame).error)
    ensures DecodeInput(frame).Ok? && b64decode(DecodeInput(frame).value).Err? ==>
              r == Err(b64decode(DecodeInput(frame).value).error)
    ensures DecodeInput(frame).Ok? && b64decode(DecodeInput(frame).value).Ok? ==>
              var decoded := imdecode(b64decode(DecodeInput(frame).value).value);
              && (decoded.Err? ==> r == Err(decoded.error))
              && (decoded == Ok(None) ==> r == Err("Failed to decode image"))
              && (decoded.Ok? && decoded.value.Some? ==> r == Ok(decoded.value.value))
  {
    match DecodeInput(frame)
    case Err(e) => Err(e)
    case Ok(text) =>
      match b64decode(text)
      case Err(e) => Err(e)
      case Ok(bytes) =>
        match imdecode(bytes)
        case Err(e) => Err(e)
        case Ok(None) => Err("Failed to decode image")
        case Ok(Some(img)) => Ok(img)
  }

  // -------------------------------------------------------- /process_frame

  /** Lines 96-101: a string is one gesture, a list is kept, anything else is none. */
  function NormaliseGestures(detected: Json): (g: seq<Json>)
    ensures detected.Str? ==> g == [detected]
    ensures detected.List? ==> g == detected.items
    ensures !detected.Str? && !detected.List? ==> g == []
  {
    match detected
    case Str(_) => [detected]
    case List(items) => items
    case _ => []
  }

  /** Normalising an already normalised list changes nothing. */
  lemma NormaliseGesturesIdempotent(detected: Json)
    ensures NormaliseGestures(List(NormaliseGestures(detected))) == NormaliseGestures(detected)
  {
  }

  datatype HttpMethod = Options | Post

  /** A reply body: empty, or `{'success': ..., 'results': {...}}` where
      `results` holds `gestures` when present and always `error` (null when None). */
  datatype Body =
    | NoContent
    | Payload(success: bool, gestures: Option<seq<Json>>, error: Option<string>)

  datatype Reply = Reply(status: nat, body: Body)

  function Rejected(status: nat, message: string): Reply {
    Reply(status, Payload(false, None, Some(message)))
  }

  /** `data['frame']`, after `'frame' in data` held. */
  function FrameOf(data: Json): (r: Result<Json, string>)
    ensures data.Object? && "frame" in data.fields ==> r == Ok(data.fields["frame"])
    ensures !data.Object? ==> r.Err?
  {
    match data
    case Object(fields) => if "frame" in fields then Ok(fields["frame"]) else Err("'frame'")
    case List(_) => Err("list indices must be integers or slices, not str")
    case Str(_) => Err("string indices must be integers, not 'str'")
    case _ => Err("'" + PyTypeName(data) + "' object is not subscriptable")
  }

  /** Python's `'frame' in data` for a decoded JSON body: a key, a list element
      or a substring; other types raise. */
  function HasFrame(data: Json): (r: Result<bool, string>)
    ensures data.Object? ==> r == Ok("frame" in data.fields)
    ensures data.List? ==> r == Ok(Str("frame") in data.items)
    ensures data.Str? ==> r == Ok(Contains(data.s, "frame"))
    ensures data.Null? || data.Bool? || data.Int? || data.Float? ==>
              r == Err("argument of type '" + PyTypeName(data) + "' is not iterable")
  {
    match data
    case Object(fields) => Ok("frame" in fields)
    case List(items) => Ok(Str("frame") in items)
    case Str(s) => Ok(Contains(s, "frame"))
    case _ => Err("argument of type '" + PyTypeName(data) + "' is not iterable")
  }

  /** The reply to a frame that passed the checks: 400 when it does not decode
      to an image, 200 once the recognizer ran on it, whatever it returned. */
  function ReplyToFrame<Img>(
    frame: Json,
    b64decode: Json -> Result<seq<bv8>, string>,
    imdecode: seq<bv8> -> Result<Option<Img>, string>,
    detect: Img -> Result<Json, string>): (r: Reply)
    ensures DecodeBase64Image(frame, b64decode, imdecode).Err? ==>
              r == Rejected(400, "Invalid image data: " + DecodeBase64Image(frame, b64decode, imdecode).error)
    ensures r.status == 200 <==> DecodeBase64Image(frame, b64decode, imdecode).Ok?
    ensures r.status == 200 ==>
              var detected := detect(DecodeBase64Image(frame, b64decode, imdecode).value);
              && (detected.Ok? ==> r.body == Payload(true, Some(NormaliseGestures(detected.value)), None))
              && (detected.Err? ==> r.body == Payload(false, Some([]), Some("Gesture detection error: " + detected.error)))
  {
    match DecodeBase64Image(frame, b64decode, imdecode)
    case Err(e) => Rejected(400, "Invalid image data: " + e)
    case Ok(img) =>
      match detect(img)
      case Ok(detected) => Reply(200, Payload(true, Some(NormaliseGestures(detected)), None))
      case Err(e) => Reply(200, Payload(false, Some([]), Some("Gesture detection error: " + e)))
  }

  /** `process_frame`. `request` is `request.get_json()`: the decoded body, or
      the text of the exception it raised; `detect` is the recognizer's
      `detect_gestures`. */
  function ProcessFrame<Img>(
    httpMethod: HttpMethod,
    request: Result<Json, string>,
    b64decode: Json -> Result<seq<bv8>, string>,
    imdecode: seq<bv8> -> Result<Option<Img>, string>,
    detect: Img -> Result<Json, string>): (r: Reply)
    // preflight first, before the body is looked at
    ensures httpMethod == Options ==> r == Reply(204, NoContent)
    ensures httpMethod == Post ==> r.body.Payload?
    ensures httpMethod == Post && request.Err? ==> r == Rejected(500, "Server error: " + request.error)
    ensures httpMethod == Post && request.Ok? && !PyTruthy(request.value) ==>
              r == Rejected(400, "No JSON data provided")
    // `'frame' in data` raises on a scalar body and is false without a frame
    ensures httpMethod == Post && request.Ok? && PyTruthy(request.value) && HasFrame(request.value).Err? ==>
              r == Rejected(500, "Server error: " + HasFrame(request.value).error)
    ensures httpMethod == Post && request.Ok? && PyTruthy(request.value) && HasFrame(request.value) == Ok(false) ==>
              r == Rejected(400, "No frame data provided")
    // `data['frame']` raises on a list or string that passed the test
    ensures httpMethod == Post && request.Ok? && PyTruthy(request.value) && HasFrame(request.value) == Ok(true)
            && FrameOf(request.value).Err? ==>
              r == Rejected(500, "Server error: " + FrameOf(request.value).error)
    ensures httpMethod == Post && request.Ok? && PyTruthy(request.value) && HasFrame(request.value) == Ok(true)
            && FrameOf(request.value).Ok?
            && DecodeBase64Image(FrameOf(request.value).value, b64decode, imdecode).Err? ==>
              r == Rejected(400, "Invalid image data: "
                                 + DecodeBase64Image(FrameOf(request.value).value, b64decode, imdecode).error)
    // 200 exactly when the recognizer ran on a decoded image
    // a frame past the checks gets the reply its decoding and recognition give
    ensures httpMethod == Post && request.Ok? && PyTruthy(request.value) && HasFrame(request.value) == Ok(true)
            && FrameOf(request.value).Ok? ==>
              r == ReplyToFrame(FrameOf(request.value).value, b64decode, imdecode, detect)
    ensures r.status in {200, 204, 400, 500}
    ensures r.status == 200 ==>
              && httpMethod == Post && request.Ok? && PyTruthy(request.value) && HasFrame(request.value) == Ok(true)
              && FrameOf(request.value).Ok?
              && DecodeBase64Image(FrameOf(request.value).value, b64decode, imdecode).Ok?
    ensures r.status == 200 ==>
              var detected := detect(DecodeBase64Image(FrameOf(request.value).value, b64decode, imdecode).value);
              && (detected.Ok? ==> r.body == Payload(true, Some(NormaliseGestures(detected.value)), None))
              && (detected.Err? ==> r.body == Payload(false, Some([]), Some("Gesture detection error: " + detected.error)))
    ensures r.body.Payload? && r.body.success ==> r.status == 200 && r.body.error.None?
  {
    if httpMethod == Options then Reply(204, NoContent)
    else match request
      case Err(e) => Rejected(500, "Server error: " + e)
      case Ok(data) =>
        if !PyTruthy(data) then Rejected(400, "No JSON data provided")
        else match HasFrame(data)
          case Err(e) => Rejected(500, "Server error: " + e)
          case Ok(present) =>
            if !present then Rejected(400, "No frame data provided")
            else match FrameOf(data)
              case Err(e) => Rejected(500, "Server error: " + e)
              case Ok(frame) => assert httpMethod == Post; ReplyToFrame(frame, b64decode, imdecode, detect)
  }
}
