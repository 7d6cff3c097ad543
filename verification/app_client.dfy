/** The browser client's state (frontend/src/App.js): the connection status
    record and the reconnect timer that health checks update, the selected
    mode, the displayed detection result and the frame-processing counters.
    Network calls, timers and rendering are outside the model: each handler
    receives the outcome of its request as a parameter. */
module AppClient {
  import opened Common
  import opened ConnectionPolicy

  datatype Mode = Emotion | Gesture | Sign | Combined

  /** The mode string the client sends with each frame. */
  function ModeName(m: Mode): string {
    match m
    case Emotion => "emotion"
    case Gesture => "gesture"
    case Sign => "sign"
    case Combined => "combined"
  }

  // ------------------------------------------------------ detection result

  /** The `result` state shown in the detection panel. The label fields and
      `confidence` hold whatever the backend sent (Null for null or undefined). */
  datatype DetectionResult = DetectionResult(
    emotion: Json,
    gesture: Json,
    sign: Json,
    confidence: Json,
    processingTime: int)

  /** The initial result, and the one a mode switch restores. */
  const EmptyResult := DetectionResult(Null, Null, Null, Int(0), 0)

  /** `Array.isArray(results) && results[0]`, when truthy. */
  function FirstHit(results: Json): (hit: Option<Json>)
    ensures hit.Some? <==> results.List? && |results.items| > 0 && JsTruthy(results.items[0])
    ensures hit.Some? ==> hit.value == results.items[0]
  {
    if results.List? && |results.items| > 0 && JsTruthy(results.items[0]) then Some(results.items[0]) else None
  }

  /** The update `processFrame` applies to the displayed result once a reply
      with `success` arrives, `elapsed` milliseconds after the frame was taken. */
  function MergeResult(prev: DetectionResult, mode: Mode, results: Json, elapsed: int): (next: DetectionResult)
    // the processing time is always refreshed
    ensures next.processingTime == elapsed
    // a reply without results changes nothing else
    ensures !JsTruthy(results) ==> next == prev.(processingTime := elapsed)
    // each mode touches only its own fields
    ensures mode != Emotion && mode != Combined ==> next.emotion == prev.emotion
    ensures mode != Gesture && mode != Combined ==> next.gesture == prev.gesture
    ensures mode != Sign && mode != Combined ==> next.sign == prev.sign
    ensures mode == Combined ==> next.confidence == prev.confidence
    // what each mode reads from the results
    ensures JsTruthy(results) && mode == Emotion ==>
      next.emotion == Member(results, "emotion") && next.confidence == Member(results, "confidence")
    ensures JsTruthy(results) && mode == Sign ==>
      next.sign == Member(results, "sign") && next.confidence == Member(results, "confidence")
    ensures JsTruthy(results) && mode == Gesture && FirstHit(results).Some? ==>
      next.gesture == Member(results.items[0], "gesture") && next.confidence == Member(results.items[0], "confidence")
    ensures JsTruthy(results) && mode == Gesture && FirstHit(results).None? ==>
      next.gesture == Null && next.confidence == Int(0)
    // combined mode copies only the truthy labels
    ensures JsTruthy(results) && mode == Combined ==>
      && next.emotion == (if JsTruthy(Member(results, "emotion")) then Member(results, "emotion") else prev.emotion)
      && next.gesture == (if JsTruthy(Member(results, "gesture")) then Member(results, "gesture") else prev.gesture)
      && next.sign == (if JsTruthy(Member(results, "sign")) then Member(results, "sign") else prev.sign)
  {
    var base := prev.(processingTime := elapsed);
    if !JsTruthy(results) then base
    else
      match mode
      case Emotion => base.(emotion := Member(results, "emotion"), confidence := Member(results, "confidence"))
      case Gesture =>
        (match FirstHit(results)
         case Some(best) => base.(gesture := Member(best, "gesture"), confidence := Member(best, "confidence"))
         case None => base.(gesture := Null, confidence := Int(0)))
      case Sign => base.(sign := Member(results, "sign"), confidence := Member(results, "confidence"))
      case Combined =>
        var e := if JsTruthy(Member(results, "emotion")) then Member(results, "emotion") else base.emotion;
        var g := if JsTruthy(Member(results, "gesture")) then Member(results, "gesture") else base.gesture;
        var s := if JsTruthy(Member(results, "sign")) then Member(results, "sign") else base.sign;
        base.(emotion := e, gesture := g, sign := s)
  }

  /** Merging the same reply twice shows the same as merging it once. */
  lemma MergeResultIdempotent(prev: DetectionResult, mode: Mode, results: Json, elapsed: int)
    ensures MergeResult(MergeResult(prev, mode, results, elapsed), mode, results, elapsed)
         == MergeResult(prev, mode, results, elapsed)
  {
  }

  // ---------------------------------------------------- connection status

  /** The `connectionStatus` state. `quality` is the field the header shows;
      `connectionQuality` is the field the health checks write. */
  datatype ConnectionStatus = ConnectionStatus(
    connected: bool,
    quality: Quality,
    connectionQuality: Option<Quality>,
    lastError: Option<string>,
    reconnectAttempts: nat,
    lastSuccessfulConnection: Option<int>,
    nextReconnectDelay: Option<nat>)

  /** The initial status. The source leaves `reconnectAttempts` undefined; it is 0 here. */
  const InitialConnection := ConnectionStatus(true, Good, None, None, 0, None, None)

  /** What the `/health` request gave: an ok response, a response with another
      status, or a rejected fetch (network error or the 5 s abort). */
  datatype HealthOutcome = Healthy | Unhealthy(status: nat) | Unreachable(message: string)

  function FailureMessage(outcome: HealthOutcome): string
    requires !outcome.Healthy?
  {
    match outcome
    case Unhealthy(_) => "Backend health check failed"
    case Unreachable(m) => m
  }

  /** The error banner after a failed check: `Math.round(delay / 1000)` seconds. */
  function RetryMessage(delay: nat): string {
    "Cannot connect to server. Retrying in " + NatToDecimal((delay + 500) / 1000) + "s..."
  }

  /** The banner names the exact delay in seconds, starting at 3. */
  lemma RetryMessageSeconds(attempts: nat)
    ensures RetryMessage(ReconnectDelay(attempts))
         == "Cannot connect to server. Retrying in " + NatToDecimal(ReconnectDelay(attempts) / 1000) + "s..."
    ensures RetryMessage(ReconnectDelay(0)) == "Cannot connect to server. Retrying in 3s..."
  {
    ReconnectDelayWholeSeconds(attempts);
    assert ReconnectDelay(0) == 3000;
    assert NatToDecimal(3) == "3";
  }

  /** The status update of a successful check, as the source writes it: the
      quality goes to `connectionQuality`, computed from `lastProcessingTime`,
      which no code ever sets (so from 0). */
  function HealthyCheckAsWritten(prev: ConnectionStatus, now: int): (next: ConnectionStatus)
    ensures next.connected && next.lastError == None && next.reconnectAttempts == 0
    ensures next.lastSuccessfulConnection == Some(now) && next.connectionQuality == Some(Good)
    ensures next.quality == prev.quality && next.nextReconnectDelay == prev.nextReconnectDelay
  {
    prev.(connected := true, lastError := None, reconnectAttempts := 0,
          lastSuccessfulConnection := Some(now), connectionQuality := Some(ConnectionQuality(0)))
  }

  /** The status update of a failed check, as the source writes it. */
  function FailedCheckAsWritten(prev: ConnectionStatus, message: string): (next: ConnectionStatus)
    ensures !next.connected && next.lastError == Some(message)
    ensures next.reconnectAttempts == prev.reconnectAttempts + 1
    ensures next.nextReconnectDelay == Some(ReconnectDelay(prev.reconnectAttempts))
    ensures next.connectionQuality == Some(Poor)
    ensures next.quality == prev.quality && next.lastSuccessfulConnection == prev.lastSuccessfulConnection
  {
    prev.(connected := false, lastError := Some(message), reconnectAttempts := prev.reconnectAttempts + 1,
          connectionQuality := Some(Poor), nextReconnectDelay := Some(ReconnectDelay(prev.reconnectAttempts)))
  }

  /** As written, no health check ever changes the quality the header shows: a
      client that has lost its backend still shows "Quality: good". */
  lemma DisplayedQualityNeverChangesAsWritten(prev: ConnectionStatus, now: int, message: string)
    ensures HealthyCheckAsWritten(prev, now).quality == prev.quality
    ensures FailedCheckAsWritten(prev, message).quality == prev.quality
    ensures var down := FailedCheckAsWritten(InitialConnection, message);
            !down.connected && down.quality == Good
  {
  }

  /** A successful check with the quality written to the field the header shows. */
  function HealthyCheck(prev: ConnectionStatus, now: int): (next: ConnectionStatus)
    ensures next.connected && next.lastError == None && next.reconnectAttempts == 0
    ensures next.lastSuccessfulConnection == Some(now) && next.quality == Good
    ensures next.connectionQuality == prev.connectionQuality && next.nextReconnectDelay == prev.nextReconnectDelay
  {
    prev.(connected := true, lastError := None, reconnectAttempts := 0,
          lastSuccessfulConnection := Some(now), quality := ConnectionQuality(0))
  }

  /** A failed check with the quality written to the field the header shows. The
      scheduled delay comes from the count before the increment. */
  function FailedCheck(prev: ConnectionStatus, message: string): (next: ConnectionStatus)
    ensures !next.connected && next.quality == Poor && next.lastError == Some(message)
    ensures next.reconnectAttempts == prev.reconnectAttempts + 1
    ensures next.nextReconnectDelay == Some(ReconnectDelay(prev.reconnectAttempts))
    ensures next.connectionQuality == prev.connectionQuality
    ensures next.lastSuccessfulConnection == prev.lastSuccessfulConnection
  {
    prev.(connected := false, lastError := Some(message), reconnectAttempts := prev.reconnectAttempts + 1,
          quality := Poor, nextReconnectDelay := Some(ReconnectDelay(prev.reconnectAttempts)))
  }

  /** The corrected updates agree with the source on every field but the
      quality fields, and the header then shows what the check measured. */
  lemma CorrectedChecksDifferOnlyInQuality(prev: ConnectionStatus, now: int, message: string)
    ensures HealthyCheck(prev, now).(quality := prev.quality, connectionQuality := Some(Good))
         == HealthyCheckAsWritten(prev, now)
    ensures FailedCheck(prev, message).(quality := prev.quality, connectionQuality := Some(Poor))
         == FailedCheckAsWritten(prev, message)
    ensures FailedCheck(prev, message).quality == Poor && HealthyCheck(prev, now).quality == Good
  {
  }

  /** Failures in a row count up one by one. */
  lemma {:induction false} FailuresCountUp(prev: ConnectionStatus, messages: seq<string>)
    ensures FailSeries(prev, messages).reconnectAttempts == prev.reconnectAttempts + |messages|
    ensures messages != [] ==>
              FailSeries(prev, messages).nextReconnectDelay == Some(ReconnectDelay(prev.reconnectAttempts + |messages| - 1))
    decreases |messages|
  {
    if messages != [] {
      FailuresCountUp(prev, messages[..|messages| - 1]);
    }
  }

  /** A success resets the count: the failures after it count from zero. */
  lemma SuccessResetsFailures(prev: ConnectionStatus, now: int, messages: seq<string>)
    ensures FailSeries(HealthyCheck(prev, now), messages).reconnectAttempts == |messages|
  {
    FailuresCountUp(HealthyCheck(prev, now), messages);
  }

  /** The status after a series of failed checks. */
  function FailSeries(prev: ConnectionStatus, messages: seq<string>): ConnectionStatus
    decreases |messages|
  {
    if messages == [] then prev
    else FailedCheck(FailSeries(prev, messages[..|messages| - 1]), messages[|messages| - 1])
  }

  // ----------------------------------------------------------- frame reply

  /** The JSON body `processFrame` posts: the base64 part of the data URL and
      the mode. `JSON.stringify` drops the frame key when the URL has no comma. */
  function FramePayload(dataUrl: string, mode: Mode): (body: Json)
    ensures body.Object? && Member(body, "mode") == Str(ModeName(mode))
    ensures body.fields.Keys <= {"frame", "mode"}
    // `split(',')[1]`: the text after the first comma, up to the next one
    ensures Contains(dataUrl, ",") ==> SplitField1(dataUrl, ",").Some? && "frame" in body.fields
                                       && body.fields["frame"] == Str(SplitField1(dataUrl, ",").value)
                                       && !Contains(body.fields["frame"].s, ",")
    ensures !Contains(dataUrl, ",") ==> "frame" !in body.fields
  {
    match SplitField1(dataUrl, ",")
    case Some(b64) => Object(map["frame" := Str(b64), "mode" := Str(ModeName(mode))])
    case None => Object(map["mode" := Str(ModeName(mode))])
  }

  /** How the `/process_frame` request ended: a rejected fetch, a non-ok
      status, the 5 s timeout winning the race, or a parsed reply. */
  datatype FrameReply =
    | NetworkError(message: string)
    | HttpError(status: nat)
    | TimedOut
    | Replied(success: bool, error: Option<string>, results: Json)

  /** The message of the error `processFrame` catches, or None when the reply is used. */
  function FrameFailure(reply: FrameReply): (failure: Option<string>)
    ensures failure.None? <==> reply.Replied? && reply.success
    ensures reply.Replied? && !reply.success && (reply.error.None? || reply.error.value == "") ==>
              failure == Some("Processing failed")
  {
    match reply
    case NetworkError(m) => Some(m)
    case HttpError(status) => Some("HTTP error! status: " + NatToDecimal(status))
    case TimedOut => Some("Processing timeout")
    case Replied(success, error, _) =>
      if success then None
      else if error.Some? && error.value != "" then Some(error.value)
      else Some("Processing failed")
  }

  // ------------------------------------------------------------ the client

  /** The component's state and refs. */
  class App {
    var mode: Mode
    var result: DetectionResult
    var error: Option<string>
    var isProcessing: bool
    var backendReady: bool
    var connection: ConnectionStatus
    /** `errorCountRef` */
    var errorCount: nat
    /** `processingAttemptsRef` */
    var processingAttempts: nat
    /** The delay of the reconnect timer `retryTimeoutRef` holds, if any. */
    var retryDelay: Option<nat>

    constructor ()
      ensures mode == Gesture && result == EmptyResult && error == None
      ensures !isProcessing && !backendReady && connection == InitialConnection
      ensures errorCount == 0 && processingAttempts == 0 && retryDelay == None
    {
      mode := Gesture;
      result := EmptyResult;
      error := None;
      isProcessing := false;
      backendReady := false;
      connection := InitialConnection;
      errorCount := 0;
      processingAttempts := 0;
      retryDelay := None;
    }

    /** `checkBackendConnection`, given how the health request ended. */
    method CheckBackendConnection(outcome: HealthOutcome, now: int) returns (ok: bool)
      modifies this
      ensures ok <==> outcome.Healthy?
      ensures outcome.Healthy? ==>
        && connection == HealthyCheck(old(connection), now)
        && backendReady && error == None && errorCount == 0
        && retryDelay == old(retryDelay)
      ensures !outcome.Healthy? ==>
        var delay := ReconnectDelay(old(connection.reconnectAttempts));
        && connection == FailedCheck(old(connection), FailureMessage(outcome))
        && !backendReady && error == Some(RetryMessage(delay))
        && retryDelay == Some(delay) && errorCount == old(errorCount)
      ensures mode == old(mode) && result == old(result) && isProcessing == old(isProcessing)
      ensures processingAttempts == old(processingAttempts)
    {
      if outcome.Healthy? {
        connection := HealthyCheck(connection, now);
        backendReady := true;
        error := None;
        errorCount := 0;
        ok := true;
      } else {
        var delay := ReconnectDelay(connection.reconnectAttempts);
        connection := FailedCheck(connection, FailureMessage(outcome));
        backendReady := false;
        error := Some(RetryMessage(delay));
        retryDelay := Some(delay);
        ok := false;
      }
    }

    /** `handleModeChange`: a new mode starts from an empty result and no error. */
    method HandleModeChange(newMode: Mode)
      modifies this
      ensures mode == newMode && result == EmptyResult && error == None
      ensures isProcessing == old(isProcessing) && backendReady == old(backendReady)
      ensures connection == old(connection) && errorCount == old(errorCount)
      ensures processingAttempts == old(processingAttempts) && retryDelay == old(retryDelay)
    {
      mode := newMode;
      result := EmptyResult;
      error := None;
    }

    /** `processFrame`: skipped without a video stream or while a frame is in
        flight; otherwise sends the frame and folds the reply into the state. */
    method ProcessFrame(hasStream: bool, dataUrl: string, reply: FrameReply, elapsed: int)
      returns (sent: Option<Json>)
      modifies this
      ensures !hasStream || old(isProcessing) ==> sent == None && unchanged(this)
      ensures hasStream && !old(isProcessing) ==>
        && sent == Some(FramePayload(dataUrl, old(mode)))
        && !isProcessing
        && mode == old(mode) && connection == old(connection) && backendReady == old(backendReady)
        && errorCount == old(errorCount) && retryDelay == old(retryDelay)
      ensures hasStream && !old(isProcessing) && FrameFailure(reply).None? ==>
        && result == MergeResult(old(result), old(mode), reply.results, elapsed)
        && error == None && processingAttempts == 0
      ensures hasStream && !old(isProcessing) && FrameFailure(reply).Some? ==>
        && result == old(result) && error == FrameFailure(reply)
        && processingAttempts == old(processingAttempts) + 1
    {
      if !hasStream || isProcessing {
        return None;
      }
      isProcessing := true;
      sent := Some(FramePayload(dataUrl, mode));
      var failure := FrameFailure(reply);
      if failure.None? {
        result := MergeResult(result, mode, reply.results, elapsed);
        error := None;
        processingAttempts := 0;
      } else {
        error := failure;
        processingAttempts := processingAttempts + 1;
      }
      isProcessing := false;
    }
  }
}
