/** The emotion inference server (server/server.py): the `/process_frame`
    handler's validation chain and the labels it reads off the classifier's
    scores, `preprocess_image`'s data-URL handling, and `/health`. The model,
    base64 decoding and the OpenCV steps are foreign calls, passed in as
    functions; the request's JSON parsing is passed in as its outcome. */
module EmotionServer {
  import opened Common
  import opened Scores

  const ModelPath: string := "../model/emotion_model.h5"
  const TargetSize: (nat, nat) := (256, 256)
  const Emotions: seq<string> := ["Angry", "Disgust", "Fear", "Happy", "Sad", "Surprise", "Neutral"]

  const ModelMissing: string := "Model not loaded. Please run the training script first."
  const NoFrame: string := "No frame data provided"
  const PreprocessingFailed: string := "Image preprocessing failed: "
  /** CPython's messages for `np.argmax` of nothing and a list index past the end. */
  const EmptyArgMax: string := "attempt to get argmax of an empty sequence"
  const IndexOutOfRange: string := "list index out of range"

  lemma EmotionsDistinct()
    ensures forall i, j :: 0 <= i < j < |Emotions| ==> Emotions[i] != Emotions[j]
  {
  }

  // ------------------------------------------------------ preprocess_image

  /** What `preprocess_image` hands to the decoding steps: the base64 text of a
      data URL, or the frame value itself. */
  datatype ImageSource = Encoded(data: string) | Raw(value: Json)

  /** Lines 55-60: a string starting with `data:image` keeps only the field
      after its first comma (`split(',')[1]`); anything else passes untouched. */
  function ImageSourceOf(frame: Json): (r: Result<ImageSource, string>)
    ensures !(frame.Str? && IsPrefix("data:image", frame.s)) ==> r == Ok(Raw(frame))
    ensures frame.Str? && IsPrefix("data:image", frame.s) && !Contains(frame.s, ",") ==> r == Err(IndexOutOfRange)
    ensures frame.Str? && IsPrefix("data:image", frame.s) && Contains(frame.s, ",") ==>
      && r.Ok? && r.value.Encoded? && !Contains(r.value.data, ",")
      && exists i :: OccursAt(frame.s, ",", i) && (forall k :: 0 <= k < i ==> !OccursAt(frame.s, ",", k))
                     && IsPrefix(r.value.data, frame.s[i + 1..])
                     && NoneIn(frame.s, ",", i + 1, i + 1 + |r.value.data|)
                     && (i + 1 + |r.value.data| == |frame.s| || OccursAt(frame.s, ",", i + 1 + |r.value.data|))
  {
    if frame.Str? && IsPrefix("data:image", frame.s) then
      match SplitField1(frame.s, ",")
      case Some(encoded) => Ok(Encoded(encoded))
      case None => Err(IndexOutOfRange)
    else Ok(Raw(frame))
  }

  /** `preprocess_image`: the processed tensor and no error, or no tensor and the
      text of the exception. `prepare` stands for decoding, resizing, colour
      conversion and scaling. */
  function Preprocess<T>(frame: Json, prepare: ImageSource -> Result<T, string>): (r: (Option<T>, Option<string>))
    ensures r.0.Some? <==> r.1.None?
    ensures r.1.Some? <==> ImageSourceOf(frame).Err? || prepare(ImageSourceOf(frame).value).Err?
    ensures ImageSourceOf(frame).Err? ==> r.1 == Some(ImageSourceOf(frame).error)
    // the tensor is the one prepared from the source, the message that of its exception
    ensures ImageSourceOf(frame).Ok? && prepare(ImageSourceOf(frame).value).Ok? ==>
              r == (Some(prepare(ImageSourceOf(frame).value).value), None)
    ensures ImageSourceOf(frame).Ok? && prepare(ImageSourceOf(frame).value).Err? ==>
              r == (None, Some(prepare(ImageSourceOf(frame).value).error))
  {
    match ImageSourceOf(frame)
    case Err(e) => (None, Some(e))
    case Ok(source) =>
      match prepare(source)
      case Ok(t) => (Some(t), None)
      case Err(e) => (None, Some(e))
  }

  // --------------------------------------------------------- the results

  datatype EmotionResults = EmotionResults(
    emotion: string,
    confidence: real,
    allPredictions: map<string, real>,
    top3: seq<(string, real)>)

  /** Lines 125-147 on the score row: the exception the indexing raises, or the results. */
  function Results(scores: seq<real>): (r: Result<EmotionResults, string>)
    ensures |scores| == 0 ==> r == Err(EmptyArgMax)
    ensures r.Ok? <==> |scores| > 0 && ArgMax(scores) < |Emotions| && IndicesBelow(TopK(scores, 3), |Emotions|)
    ensures r.Err? && |scores| > 0 ==> r.error == IndexOutOfRange
    ensures r.Ok? ==> r.value.emotion == Emotions[ArgMax(scores)] && r.value.confidence == scores[ArgMax(scores)]
    ensures r.Ok? ==> r.value.top3 == Labelled(Emotions, scores, TopK(scores, 3))
    ensures r.Ok? ==> r.value.allPredictions == DictFromPairs(Zip(Emotions, scores))
  {
    if |scores| == 0 then Err(EmptyArgMax)
    else
      var best := ArgMax(scores);
      var top := TopK(scores, 3);
      if best >= |Emotions| || !IndicesBelow(top, |Emotions|) then Err(IndexOutOfRange)
      else
        Ok(EmotionResults(Emotions[best], scores[best], DictFromPairs(Zip(Emotions, scores)), Labelled(Emotions, scores, top)))
  }

  /** The top three are distinct labels with non-increasing scores, no other
      label scores above any of them, and the first is the reported emotion
      when the maximum is attained once. */
  lemma Top3Properties(scores: seq<real>, r: EmotionResults)
    requires Results(scores) == Ok(r)
    ensures var t := r.top3;
      && |t| == (if |scores| < 3 then |scores| else 3)
      && (forall a, b :: 0 <= a < b < |t| ==> t[a].0 != t[b].0 && t[b].1 <= t[a].1)
      && (forall i, a :: (0 <= i < |scores| && i < |Emotions| && 0 <= a < |t|
                          && forall b :: 0 <= b < |t| ==> t[b].0 != Emotions[i]) ==> scores[i] <= t[a].1)
      && (UniqueMaximum(scores) ==> t[0].0 == r.emotion)
  {
    EmotionsDistinct();
    LabelledTopK(Emotions, scores, 3);
    TopKHead(scores, 3);
  }

  /** `all_predictions` pairs each label with the score at its own index: all
      seven when the model gives seven scores or more. */
  lemma AllPredictionsExact(scores: seq<real>, r: EmotionResults)
    requires Results(scores) == Ok(r)
    ensures var m := r.allPredictions;
      && (forall i :: 0 <= i < |scores| && i < |Emotions| ==> Emotions[i] in m)
      && |m| == (if |scores| < |Emotions| then |scores| else |Emotions|)
      && forall i :: 0 <= i < |scores| && i < |Emotions| ==> m[Emotions[i]] == scores[i]
  {
    EmotionsDistinct();
    ZippedDict(Emotions, scores);
  }

  // ------------------------------------------------------ /process_frame

  datatype Body = Success(results: EmotionResults) | Failure(error: string)

  datatype Reply = Reply(status: nat, body: Body)

  /** `process_frame`. `request` is `request.get_json()`: the decoded body, or
      the text of the exception it raised; `predict` is `model.predict(...)[0]`. */
  function ProcessFrame<T>(
    modelLoaded: bool,
    request: Result<Json, string>,
    prepare: ImageSource -> Result<T, string>,
    predict: Option<T> -> Result<seq<real>, string>): (r: Reply)
    // the model is checked before the body is looked at
    ensures !modelLoaded ==> r == Reply(500, Failure(ModelMissing))
    ensures modelLoaded && request.Err? ==> r == Reply(500, Failure(request.error))
    // `data.get` on a body that is not a JSON object
    ensures modelLoaded && request.Ok? && !request.value.Object? ==>
              r == Reply(500, Failure("'" + PyTypeName(request.value) + "' object has no attribute 'get'"))
    ensures modelLoaded && request.Ok? && request.value.Object? && !PyTruthy(Member(request.value, "frame")) ==>
              r == Reply(400, Failure(NoFrame))
    ensures modelLoaded && request.Ok? && request.value.Object? && PyTruthy(Member(request.value, "frame")) ==>
              var (_, error) := Preprocess(Member(request.value, "frame"), prepare);
              error.Some? && error.value != [] ==> r == Reply(500, Failure(PreprocessingFailed + error.value))
    // past the checks: the model's exception, the exception of reading its
    // scores, or 200 with the results of those scores
    ensures modelLoaded && request.Ok? && request.value.Object? && PyTruthy(Member(request.value, "frame")) ==>
              var (tensor, error) := Preprocess(Member(request.value, "frame"), prepare);
              error.None? || error.value == [] ==>
                && (predict(tensor).Err? ==> r == Reply(500, Failure(predict(tensor).error)))
                && (predict(tensor).Ok? && Results(predict(tensor).value).Err? ==>
                      r == Reply(500, Failure(Results(predict(tensor).value).error)))
                && (predict(tensor).Ok? && Results(predict(tensor).value).Ok? ==>
                      r == Reply(200, Success(Results(predict(tensor).value).value)))
    // 200 exactly for results, which are those of the model's scores
    ensures r.status == 200 <==> r.body.Success?
    ensures r.status in {200, 400, 500}
    ensures r.body.Success? ==>
              && modelLoaded && request.Ok? && request.value.Object?
              && var (tensor, error) := Preprocess(Member(request.value, "frame"), prepare);
                 && PyTruthy(Member(request.value, "frame")) && (error.None? || error.value == [])
                 && predict(tensor).Ok? && Results(predict(tensor).value) == Ok(r.body.results)
  {
    if !modelLoaded then Reply(500, Failure(ModelMissing))
    else match request
      case Err(e) => Reply(500, Failure(e))
      case Ok(data) =>
        if !data.Object? then Reply(500, Failure("'" + PyTypeName(data) + "' object has no attribute 'get'"))
        else
          var frame := Member(data, "frame");
          if !PyTruthy(frame) then Reply(400, Failure(NoFrame))
          else
            var (tensor, error) := Preprocess(frame, prepare);
            if error.Some? && error.value != [] then Reply(500, Failure(PreprocessingFailed + error.value))
            else match predict(tensor)
              case Err(e) => Reply(500, Failure(e))
              case Ok(scores) =>
                match Results(scores)
                case Err(e) => Reply(500, Failure(e))
                case Ok(results) => Reply(200, Success(results))
  }

  // -------------------------------------------------------------- /health

  datatype Health = Health(
    status: string,
    modelLoaded: bool,
    modelPath: string,
    emotions: seq<string>,
    inputShape: (nat, nat, nat))

  /** `health_check`: always 200 and healthy; reports whether a model is loaded. */
  function HealthCheck(modelLoaded: bool): (r: (nat, Health))
    ensures r.0 == 200 && r.1.status == "healthy"
    ensures r.1.modelLoaded <==> modelLoaded
    ensures r.1.inputShape == (TargetSize.0, TargetSize.1, 3) == (256, 256, 3)
    ensures r.1.emotions == Emotions && r.1.modelPath == ModelPath
  {
    (200, Health("healthy", modelLoaded, ModelPath, Emotions, (TargetSize.0, TargetSize.1, 3)))
  }
}
