/** The camera component's capture loop (`CameraFeed`): starting and
    stopping the stream, the guarded frame capture with its sequence
    counter, the capture interval, and the mapping of server replies.

    The DOM, the media device, the canvas and the clock are inputs: a
    `CaptureEnv` says what the refs hold, whether the socket is connected,
    whether `getContext('2d')` succeeded, what `toDataURL` produced and the
    time. Sent frames are recorded in `sent`, messages given to `onError` in
    `reported`. */
module CameraFeed {
  import opened Wrappers

  /** The payload of an outbound FRAME message. */
  datatype FramePayload = FramePayload(frame: string, timestamp: int, sequenceNumber: nat)

  /** The outcome of `canvas.toDataURL(...).split(',')[1]`: the base64
      text, or an exception, with its message when it is an `Error`. */
  datatype Encoding = Encoded(base64: string) | EncodeFailed(message: Option<string>)

  /** What a tick of the capture timer sees. */
  datatype CaptureEnv = CaptureEnv(
    hasVideo: bool, hasCanvas: bool,
    videoWidth: int, videoHeight: int,
    connected: bool, hasContext: bool,
    encoding: Encoding, now: int)

  /** The outcome of `getUserMedia`: a stream, or a rejection (with its
      message when it is an `Error`). */
  datatype MediaResult = Granted | Denied(message: Option<string>)

  /** A DETECTION_RESULT payload as the server sends it. */
  datatype ResultPayload = ResultPayload(
    isDrowsy: bool, drowsinessScore: real, alertLevel: string,
    inferenceTime: real, timestamp: int, sequenceNumber: int)

  /** The component's `DetectionResult`. */
  datatype DetectionResult = DetectionResult(
    isDrowsy: bool, drowsinessScore: real, alertLevel: string,
    inferenceTimeMs: real, timestamp: int, sequenceNumber: int)

  const DefaultCaptureIntervalMs: int := 1000
  const CameraDeniedMessage: string := "Не удалось получить доступ к камере"
  const DetectionFailedMessage: string := "Detection failed"
  const ProcessingFailedMessage: string := "Processing failed"

  /** `handleDetectionResult`'s mapping: every field copied, the server's
      `inference_time` renamed to `inference_time_ms`. */
  function ToDetectionResult(p: ResultPayload): (r: DetectionResult)
    ensures r.inferenceTimeMs == p.inferenceTime && r.sequenceNumber == p.sequenceNumber
    ensures r.isDrowsy == p.isDrowsy && r.drowsinessScore == p.drowsinessScore
    ensures r.alertLevel == p.alertLevel && r.timestamp == p.timestamp
  {
    DetectionResult(p.isDrowsy, p.drowsinessScore, p.alertLevel,
                    p.inferenceTime, p.timestamp, p.sequenceNumber)
  }

  /** `handleError`'s message: `payload.message || 'Processing failed'`; an
      absent or empty message is falsy and gives the default. */
  function ErrorText(message: Option<string>): (r: string)
    ensures r != []
    ensures message.Some? && message.value != [] ==> r == message.value
    ensures message.None? || message.value == [] ==> r == ProcessingFailedMessage
  {
    if message.Some? && message.value != [] then message.value else ProcessingFailedMessage
  }

  /** The text reported for a thrown value: its message when it is an
      `Error`, otherwise the fallback. */
  function ThrownText(message: Option<string>, fallback: string): string {
    message.GetOr(fallback)
  }

  /** The capture interval runs only while streaming with a positive period. */
  predicate IntervalActive(isStreaming: bool, captureInterval: int) {
    isStreaming && captureInterval > 0
  }

  /** `captureFrame` gets past all six guards: video and canvas present,
      not already detecting, streaming, a video with both sides non-zero,
      a connected socket and a 2d context. */
  predicate CaptureProceeds(env: CaptureEnv, isDetecting: bool, isStreaming: bool) {
    env.hasVideo && env.hasCanvas && !isDetecting && isStreaming
    && env.videoWidth != 0 && env.videoHeight != 0 && env.connected && env.hasContext
  }

  class Camera {
    var isStreaming: bool
    var isDetecting: bool
    var hasDetected: bool
    /** `streamRef.current` is set. */
    var hasStream: bool
    /** `sequenceNumberRef.current`. */
    var sequenceNumber: nat
    /** The `error` shown by the component. */
    var error: Option<string>
    /** Every FRAME payload handed to the socket, in order. */
    var sent: seq<FramePayload>
    /** Every message passed to `onError`, in order. */
    var reported: seq<string>

    /** The counter always equals the number of frames sent, and the frames
        carry the numbers 0, 1, 2, ... in order. */
    ghost predicate Valid()
      reads this
    {
      sequenceNumber == |sent|
      && forall j :: 0 <= j < |sent| ==> sent[j].sequenceNumber == j
    }

    constructor ()
      ensures Valid()
      ensures !isStreaming && !isDetecting && !hasDetected && !hasStream
      ensures sequenceNumber == 0 && error == None && sent == [] && reported == []
    {
      isStreaming := false;
      isDetecting := false;
      hasDetected := false;
      hasStream := false;
      sequenceNumber := 0;
      error := None;
      sent := [];
      reported := [];
    }

    /** `startCamera`: nothing without an active session. With one, a
        granted stream attached to the video element starts streaming and
        clears the error; a denied request reports its message. The
        counter is not reset. */
    method StartCamera(hasActiveSession: bool, media: MediaResult, hasVideo: bool)
      requires Valid()
      modifies this
      ensures Valid()
      ensures !hasActiveSession ==>
        isStreaming == old(isStreaming) && hasStream == old(hasStream)
        && hasDetected == old(hasDetected) && error == old(error) && reported == old(reported)
      ensures hasActiveSession && media.Granted? && hasVideo ==>
        isStreaming && hasStream && !hasDetected && error == None && reported == old(reported)
      ensures hasActiveSession && media.Granted? && !hasVideo ==>
        isStreaming == old(isStreaming) && hasStream == old(hasStream)
        && hasDetected == old(hasDetected) && error == old(error) && reported == old(reported)
      ensures hasActiveSession && media.Denied? ==>
        var m := ThrownText(media.message, CameraDeniedMessage);
        isStreaming == old(isStreaming) && hasStream == old(hasStream)
        && hasDetected == old(hasDetected) && error == Some(m) && reported == old(reported) + [m]
      ensures sequenceNumber == old(sequenceNumber) && sent == old(sent)
      ensures isDetecting == old(isDetecting)
    {
      if !hasActiveSession {
        return;
      }
      match media
      case Granted =>
        if hasVideo {
          hasStream := true;
          isStreaming := true;
          hasDetected := false;
          error := None;
        }
      case Denied(message) =>
        var errorMessage := ThrownText(message, CameraDeniedMessage);
        error := Some(errorMessage);
        reported := reported + [errorMessage];
    }

    /** `stopCamera`: releases the stream and stops streaming. The new
        state does not depend on the old one, so stopping twice is stopping
        once; the counter is kept. */
    method StopCamera()
      requires Valid()
      modifies this
      ensures Valid()
      ensures !hasStream && !isStreaming && !hasDetected
      ensures sequenceNumber == old(sequenceNumber) && sent == old(sent)
      ensures isDetecting == old(isDetecting) && error == old(error) && reported == old(reported)
    {
      if hasStream {
        hasStream := false;
      }
      isStreaming := false;
      hasDetected := false;
    }

    /** `captureFrame`: skipped without video or canvas, while detecting,
        when not streaming, for a zero-sized video, when the socket is not
        connected, and without a 2d context. Otherwise it encodes the frame
        first; on success it sends the old counter value and increments the
        counter, on failure it reports the error and leaves the counter.
        Either way `isDetecting` is false afterwards. */
    method CaptureFrame(env: CaptureEnv) returns (frameSent: bool)
      requires Valid()
      modifies this
      ensures Valid()
      ensures var entered := CaptureProceeds(env, old(isDetecting), old(isStreaming));
        && (frameSent <==> entered && env.encoding.Encoded?)
        && (!entered ==> isDetecting == old(isDetecting) && error == old(error) && reported == old(reported))
        && (entered ==> !isDetecting)
        && (entered && env.encoding.EncodeFailed? ==>
              var m := ThrownText(env.encoding.message, DetectionFailedMessage);
              error == Some(m) && reported == old(reported) + [m])
        && (entered && env.encoding.Encoded? ==> error == old(error) && reported == old(reported))
      ensures frameSent ==>
        sent == old(sent) + [FramePayload(env.encoding.base64, env.now, old(sequenceNumber))]
        && sequenceNumber == old(sequenceNumber) + 1
      ensures !frameSent ==> sent == old(sent) && sequenceNumber == old(sequenceNumber)
      ensures isStreaming == old(isStreaming) && hasStream == old(hasStream)
      ensures hasDetected == old(hasDetected)
    {
      frameSent := false;
      if !env.hasVideo || !env.hasCanvas || isDetecting || !isStreaming {
        return;
      }
      if env.videoWidth == 0 || env.videoHeight == 0 {
        return;
      }
      if !env.connected {
        return;
      }
      if !env.hasContext {
        return;
      }
      isDetecting := true;
      match env.encoding {
        case Encoded(base64) =>
          var timestamp := env.now;
          var seqNo := sequenceNumber;
          sequenceNumber := sequenceNumber + 1;
          sent := sent + [FramePayload(base64, timestamp, seqNo)];
          frameSent := true;
        case EncodeFailed(message) =>
          var errorMessage := ThrownText(message, DetectionFailedMessage);
          error := Some(errorMessage);
          reported := reported + [errorMessage];
      }
      isDetecting := false;
    }

    /** One firing of the capture interval: there is no interval unless
        streaming with a positive period, and then it runs `captureFrame`,
        with all of that method's effects. */
    method IntervalTick(captureInterval: int, env: CaptureEnv) returns (frameSent: bool)
      requires Valid()
      modifies this
      ensures Valid()
      ensures !IntervalActive(old(isStreaming), captureInterval) ==>
        !frameSent && sent == old(sent) && sequenceNumber == old(sequenceNumber)
        && isDetecting == old(isDetecting) && error == old(error) && reported == old(reported)
      ensures var entered := IntervalActive(old(isStreaming), captureInterval)
                && CaptureProceeds(env, old(isDetecting), old(isStreaming));
        && (frameSent <==> entered && env.encoding.Encoded?)
        && (!entered ==> isDetecting == old(isDetecting) && error == old(error) && reported == old(reported))
        && (entered ==> !isDetecting)
        && (entered && env.encoding.EncodeFailed? ==>
              var m := ThrownText(env.encoding.message, DetectionFailedMessage);
              error == Some(m) && reported == old(reported) + [m])
        && (entered && env.encoding.Encoded? ==> error == old(error) && reported == old(reported))
      ensures frameSent ==>
        sent == old(sent) + [FramePayload(env.encoding.base64, env.now, old(sequenceNumber))]
        && sequenceNumber == old(sequenceNumber) + 1
      ensures !frameSent ==> sent == old(sent) && sequenceNumber == old(sequenceNumber)
      ensures isStreaming == old(isStreaming) && hasStream == old(hasStream)
      ensures hasDetected == old(hasDetected)
    {
      frameSent := false;
      if IntervalActive(isStreaming, captureInterval) {
        frameSent := CaptureFrame(env);
      }
    }

    /** `handleDetectionResult`: marks that a result arrived and hands the
        mapped result on. */
    method OnDetectionResult(p: ResultPayload) returns (r: DetectionResult)
      requires Valid()
      modifies this
      ensures Valid()
      ensures hasDetected && r == ToDetectionResult(p)
      ensures isStreaming == old(isStreaming) && hasStream == old(hasStream)
      ensures isDetecting == old(isDetecting) && sequenceNumber == old(sequenceNumber)
      ensures sent == old(sent) && error == old(error) && reported == old(reported)
    {
      r := ToDetectionResult(p);
      hasDetected := true;
    }

    /** `handleError`: shows and reports the server's message. */
    method OnServerError(message: Option<string>)
      requires Valid()
      modifies this
      ensures Valid()
      ensures error == Some(ErrorText(message)) && reported == old(reported) + [ErrorText(message)]
      ensures isStreaming == old(isStreaming) && hasStream == old(hasStream)
      ensures hasDetected == old(hasDetected) && isDetecting == old(isDetecting)
      ensures sequenceNumber == old(sequenceNumber) && sent == old(sent)
    {
      var m := ErrorText(message);
      error := Some(m);
      reported := reported + [m];
    }
  }

  /** Sequence numbers survive a restart: frames sent before and after a
      stop/start carry consecutive numbers. */
  method RestartKeepsNumbering(env: CaptureEnv) returns (numbers: seq<nat>)
    requires env.hasVideo && env.hasCanvas && env.videoWidth > 0 && env.videoHeight > 0
    requires env.connected && env.hasContext && env.encoding.Encoded?
    ensures numbers == [0, 1]
  {
    var camera := new Camera();
    camera.StartCamera(true, Granted, true);
    var first := camera.CaptureFrame(env);
    camera.StopCamera();
    camera.StartCamera(true, Granted, true);
    var second := camera.CaptureFrame(env);
    assert first && second;
    numbers := [camera.sent[0].sequenceNumber, camera.sent[1].sequenceNumber];
  }
}
