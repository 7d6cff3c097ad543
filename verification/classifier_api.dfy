/** The eleven-class face classifier API (server/app.py): the `/predict`
    handler's checks and the labels it reads off the model's scores. Loading
    and preprocessing the uploaded image and running the model are one
    foreign call, passed in as a function. */
module ClassifierApi {
  import opened Common
  import opened Scores

  const ModelPath: string := "model/yale_vgg19_model.h5"
  const EmotionClasses: seq<string> := [
    "centerlight", "glasses", "happy", "leftlight", "noglasses",
    "normal", "rightlight", "sad", "sleepy", "surprised", "wink"
  ]

  const ModelMissing: string := "Model not loaded"
  const NoImage: string := "No image file provided"
  /** CPython's messages for `np.argmax` of nothing and a list index past the end. */
  const EmptyArgMax: string := "attempt to get argmax of an empty sequence"
  const IndexOutOfRange: string := "list index out of range"

  lemma EmotionClassesDistinct()
    ensures forall i, j :: 0 <= i < j < |EmotionClasses| ==> EmotionClasses[i] != EmotionClasses[j]
  {
  }

  datatype Prediction = Prediction(emotion: string, confidence: real, topPredictions: map<string, real>)

  /** Lines 45-56 on the score row: the exception the indexing raises, or the prediction. */
  function Classify(scores: seq<real>): (r: Result<Prediction, string>)
    ensures |scores| == 0 ==> r == Err(EmptyArgMax)
    ensures r.Ok? <==> |scores| > 0 && ArgMax(scores) < |EmotionClasses| && IndicesBelow(TopK(scores, 3), |EmotionClasses|)
    ensures r.Err? && |scores| > 0 ==> r.error == IndexOutOfRange
    ensures r.Ok? ==> r.value.emotion == EmotionClasses[ArgMax(scores)] && r.value.confidence == scores[ArgMax(scores)]
    ensures r.Ok? ==> r.value.topPredictions == DictFromPairs(Labelled(EmotionClasses, scores, TopK(scores, 3)))
  {
    if |scores| == 0 then Err(EmptyArgMax)
    else
      var best := ArgMax(scores);
      var top := TopK(scores, 3);
      if best >= |EmotionClasses| || !IndicesBelow(top, |EmotionClasses|) then Err(IndexOutOfRange)
      else Ok(Prediction(EmotionClasses[best], scores[best], DictFromPairs(Labelled(EmotionClasses, scores, top))))
  }

  /** `top_predictions` holds at most three labels, those of the three highest
      scores, each mapped to its own score; no label left out scores higher;
      and it holds the reported emotion when the maximum is attained once. */
  lemma TopPredictions(scores: seq<real>, p: Prediction)
    requires Classify(scores) == Ok(p)
    ensures var top := TopK(scores, 3);
      && |p.topPredictions| == |top| == (if |scores| < 3 then |scores| else 3)
      && IndicesBelow(top, |EmotionClasses|)
      && (forall a :: 0 <= a < |top| ==>
            EmotionClasses[top[a]] in p.topPredictions && p.topPredictions[EmotionClasses[top[a]]] == scores[top[a]])
      && (forall l :: l in p.topPredictions ==> exists a :: 0 <= a < |top| && l == EmotionClasses[top[a]])
      && (forall i, l ::
            0 <= i < |scores| && i < |EmotionClasses| && EmotionClasses[i] !in p.topPredictions && l in p.topPredictions
            ==> scores[i] <= p.topPredictions[l])
      && (UniqueMaximum(scores) ==> p.emotion in p.topPredictions)
  {
    EmotionClassesDistinct();
    LabelledTopKDict(EmotionClasses, scores, 3);
    TopKHead(scores, 3);
  }

  datatype Body = Predicted(prediction: Prediction) | Failure(error: string)

  datatype Reply = Reply(status: nat, body: Body)

  /** `predict`. `files` is `request.files`; `classify` loads and preprocesses
      an uploaded file and returns `model.predict(...)[0]`, or the message of
      the exception it raised. */
  function Predict<F>(modelLoaded: bool, files: map<string, F>, classify: F -> Result<seq<real>, string>): (r: Reply)
    // the model is checked before the upload
    ensures !modelLoaded ==> r == Reply(500, Failure(ModelMissing))
    ensures modelLoaded && "image" !in files ==> r == Reply(400, Failure(NoImage))
    ensures modelLoaded && "image" in files && classify(files["image"]).Err? ==>
              r == Reply(500, Failure(classify(files["image"]).error))
    // 200 exactly for a prediction, which is that of the uploaded image's scores
    ensures r.status in {200, 400, 500}
    ensures r.status == 200 <==> r.body.Predicted?
    ensures r.body.Predicted? ==>
              && modelLoaded && "image" in files && classify(files["image"]).Ok?
              && Classify(classify(files["image"]).value) == Ok(r.body.prediction)
    ensures modelLoaded && "image" in files && classify(files["image"]).Ok?
            && Classify(classify(files["image"]).value).Err? ==>
              r == Reply(500, Failure(Classify(classify(files["image"]).value).error))
    ensures modelLoaded && "image" in files && classify(files["image"]).Ok?
            && Classify(classify(files["image"]).value).Ok? ==>
              r == Reply(200, Predicted(Classify(classify(files["image"]).value).value))
  {
    if !modelLoaded then Reply(500, Failure(ModelMissing))
    else if "image" !in files then Reply(400, Failure(NoImage))
    else match classify(files["image"])
      case Err(e) => Reply(500, Failure(e))
      case Ok(scores) =>
        match Classify(scores)
        case Err(e) => Reply(500, Failure(e))
        case Ok(p) => Reply(200, Predicted(p))
  }
}
