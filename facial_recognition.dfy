/**
  The camera panel of the employee dashboard: starting and stopping the
  webcam, the "camera ready" flag set by the video's metadata event, the
  error shown, and the gate in front of the clock-in and clock-out
  callbacks.
*/
module FacialRecognition {

  /** The error banner's text; `NoError` is the empty string. */
  datatype PanelError =
    | NoError
    | PermissionDenied
    | NoCamera
    | CameraInUse
    | CameraError
    | VideoPlaybackError
    | StartCameraFirst
    | RecognitionError

  /** The outcome of asking the browser for the camera: a stream, or an error with its name. */
  datatype MediaResult = Granted | Failed(name: string)

  /** The error shown for a failed camera request, chosen by the error's name. */
  function ErrorFor(name: string): (e: PanelError)
    ensures e == PermissionDenied <==> name == "NotAllowedError"
    ensures e == NoCamera <==> name == "NotFoundError"
    ensures e == CameraInUse <==> name == "NotReadableError"
    ensures e == CameraError <==> name !in {"NotAllowedError", "NotFoundError", "NotReadableError"}
  {
    if name == "NotAllowedError" then PermissionDenied
    else if name == "NotFoundError" then NoCamera
    else if name == "NotReadableError" then CameraInUse
    else CameraError
  }

  /** The clock-in button is enabled with a ready camera, nothing loading, and not clocked in. */
  predicate ClockInEnabled(active: bool, ready: bool, loading: bool, clocked: bool)
  {
    active && ready && !loading && !clocked
  }

  /** The clock-out button is enabled with a ready camera, nothing loading, and clocked in. */
  predicate ClockOutEnabled(active: bool, ready: bool, loading: bool, clocked: bool)
  {
    active && ready && !loading && clocked
  }

  /** The two buttons are never enabled together, and an enabled one passes the panel's own gate. */
  lemma ClockButtonsExclusive(active: bool, ready: bool, loading: bool, clocked: bool)
    ensures !(ClockInEnabled(active, ready, loading, clocked) && ClockOutEnabled(active, ready, loading, clocked))
    ensures ClockInEnabled(active, ready, loading, clocked) || ClockOutEnabled(active, ready, loading, clocked) ==> active && ready
    ensures active && ready && !loading ==> ClockInEnabled(active, ready, loading, clocked) != ClockOutEnabled(active, ready, loading, clocked)
  {
  }

  /** Which parent callback a clock action called. */
  datatype ClockCall = NoCall | CalledClockIn | CalledClockOut

  /** The panel's state. */
  class CameraPanel {
    var hasStream: bool
    var isWebcamActive: bool
    var cameraReady: bool
    var error: PanelError

    /** A ready camera is an active one, and an active camera has a stream. */
    predicate Valid()
      reads this
    {
      (cameraReady ==> isWebcamActive) && (isWebcamActive ==> hasStream)
    }

    constructor ()
      ensures Valid()
      ensures !hasStream && !isWebcamActive && !cameraReady && error == NoError
    {
      hasStream := false;
      isWebcamActive := false;
      cameraReady := false;
      error := NoError;
    }

    /** The green "ready" indicator. */
    function ReadyShown(): (shown: bool)
      reads this
      requires Valid()
      ensures shown <==> isWebcamActive && cameraReady
      ensures shown <==> cameraReady
    {
      isWebcamActive && cameraReady
    }

    /**
      `startWebcam`: the error and the ready flag are cleared first; a
      granted stream makes the camera active (not yet ready); a refusal
      shows the error for its name and leaves the camera off.
    */
    method StartWebcam(result: MediaResult)
      requires Valid()
      modifies this
      ensures Valid() && !cameraReady
      ensures result == Granted ==> hasStream && isWebcamActive && error == NoError
      ensures result.Failed? ==> !isWebcamActive && error == ErrorFor(result.name) && hasStream == old(hasStream)
    {
      error := NoError;
      cameraReady := false;
      match result {
        case Granted =>
          hasStream := true;
          isWebcamActive := true;
        case Failed(name) =>
          error := ErrorFor(name);
          isWebcamActive := false;
          cameraReady := false;
      }
    }

    /** The video's `loadedmetadata` event, which only an attached stream raises. */
    method MetadataLoaded()
      requires Valid() && isWebcamActive
      modifies this`cameraReady
      ensures Valid() && cameraReady
    {
      cameraReady := true;
    }

    /** The video's `error` event. */
    method VideoFailed()
      requires Valid()
      modifies this`error
      ensures Valid() && error == VideoPlaybackError
    {
      error := VideoPlaybackError;
    }

    /**
      `stopWebcam`: no stream, inactive, not ready, no error, whatever the
      state before, so stopping twice is the same as stopping once.
    */
    method StopWebcam()
      modifies this
      ensures Valid()
      ensures !hasStream && !isWebcamActive && !cameraReady && error == NoError
    {
      if hasStream {
        hasStream := false;
      }
      isWebcamActive := false;
      cameraReady := false;
      error := NoError;
    }

    /**
      `handleClockAction(action)`: without an active, ready camera only the
      "start the camera first" error is set; otherwise 'in' calls the
      clock-in callback and anything else the clock-out one, and a
      callback that throws sets the recognition error.
    */
    method ClockAction(action: string, callbackThrows: bool) returns (called: ClockCall)
      requires Valid()
      modifies this`error
      ensures Valid()
      ensures !(isWebcamActive && cameraReady) ==> called == NoCall && error == StartCameraFirst
      ensures isWebcamActive && cameraReady ==>
        called == (if action == "in" then CalledClockIn else CalledClockOut)
        && error == (if callbackThrows then RecognitionError else old(error))
    {
      if !isWebcamActive || !cameraReady {
        error := StartCameraFirst;
        return NoCall;
      }
      called := if action == "in" then CalledClockIn else CalledClockOut;
      if callbackThrows {
        error := RecognitionError;
      }
    }
  }

  /** Starting, then the metadata event, then a clock-in: the callback is reached. */
  method StartThenClockIn() returns (called: ClockCall)
    ensures called == CalledClockIn
  {
    var panel := new CameraPanel();
    panel.StartWebcam(Granted);
    panel.MetadataLoaded();
    called := panel.ClockAction("in", false);
  }

  /** Without the metadata event the camera is not ready and the callback is never reached. */
  method StartWithoutMetadataIsGated() returns (called: ClockCall, shown: PanelError)
    ensures called == NoCall && shown == StartCameraFirst
  {
    var panel := new CameraPanel();
    panel.StartWebcam(Granted);
    called := panel.ClockAction("in", false);
    shown := panel.error;
  }
}
