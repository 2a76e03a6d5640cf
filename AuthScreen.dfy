/** The lock screen (components/AuthScreen.tsx): a four-digit PIN keypad
    and a simulated face scan through the camera. Each handler and effect
    is one method; each `setTimeout` continuation is queued as a `Timer`
    and runs, leaving the queue, when the method for its kind is called;
    the `getUserMedia` promise is split into the request
    (`FaceAuthStart`) and its outcome (`CameraResult`). */
module AuthScreen {
  import opened Types

  /** The demo PIN the validation effect accepts. */
  const CorrectPin := "1234"
  const CameraRequired := "Camera access required"

  /** A pending `setTimeout` callback: `onAuthenticated()` after a correct
      PIN (300 ms), `setPin('')` after a wrong one (500 ms), the end of the
      face scan (2500 ms) and the clearing of the camera error (3000 ms). */
  datatype Timer = AuthAfterPin | ClearPin | FaceScanDone | ClearCameraError

  /** A camera stream, identified by the handle `getUserMedia` gave. */
  type Stream = nat

  predicate IsDigits(s: string)
  {
    forall i :: 0 <= i < |s| ==> '0' <= s[i] <= '9'
  }

  function StreamSeq(s: Option<Stream>): seq<Stream>
  {
    if s.Some? then [s.value] else []
  }

  /** The pending timers without the one at index `i`. */
  function RemoveAt(ts: seq<Timer>, i: nat): (r: seq<Timer>)
    requires i < |ts|
    ensures |r| == |ts| - 1
    ensures multiset(r) == multiset(ts) - multiset{ts[i]}
  {
    assert ts == ts[..i] + [ts[i]] + ts[i + 1..];
    ts[..i] + ts[i + 1..]
  }

  /** Removing one pending timer leaves every other kind as pending as it
      was, and leaves no scan end behind when at most one was pending. */
  lemma RemoveKeeps(ts: seq<Timer>, i: nat)
    requires i < |ts|
    ensures forall x :: x != ts[i] ==> (x in RemoveAt(ts, i) <==> x in ts)
    ensures multiset(RemoveAt(ts, i))[FaceScanDone] <= multiset(ts)[FaceScanDone]
    ensures ts[i] == FaceScanDone && multiset(ts)[FaceScanDone] <= 1 ==> FaceScanDone !in RemoveAt(ts, i)
  {
    var r := RemoveAt(ts, i);
    forall x | x != ts[i]
      ensures x in r <==> x in ts
    {
      assert multiset(r)[x] == multiset(ts)[x];
    }
  }

  class AuthScreen {
    var pin: string
    var error: bool
    var isFaceScanning: bool
    var cameraError: Option<string>
    /** `streamRef.current`. */
    var stream: Option<Stream>
    /** A `getUserMedia` request has been made and not yet settled. */
    var awaitingCamera: bool
    var mounted: bool
    /** The continuations scheduled with `setTimeout` and not yet run. */
    var timers: seq<Timer>
    /** How many times `onAuthenticated` has been called. */
    var authCalls: nat
    /** Every stream the camera handed out, in order. */
    var acquired: seq<Stream>
    /** Every stream whose tracks were stopped, in order. */
    var released: seq<Stream>

    /** The screen's invariant: the PIN is at most four digits; a full
        wrong PIN is flagged and its clearing is pending; the correct PIN
        has its authentication pending or done; a camera error is the one
        message and its clearing is pending; a stream in hand has its scan
        end pending; and every stream obtained is either the current one
        or has been released, so no camera handle is lost. */
    ghost predicate Valid()
      reads this
    {
      && |pin| <= 4 && IsDigits(pin)
      && (|pin| == 4 && pin != CorrectPin ==> error && ClearPin in timers)
      && (pin == CorrectPin ==> !error && (AuthAfterPin in timers || authCalls > 0))
      && (cameraError.Some? ==> cameraError.value == CameraRequired && ClearCameraError in timers)
      && (awaitingCamera ==> stream.None? && FaceScanDone !in timers)
      && multiset(timers)[FaceScanDone] <= 1
      && (mounted && (awaitingCamera || stream.Some? || FaceScanDone in timers) ==> isFaceScanning)
      && (stream.Some? ==> FaceScanDone in timers)
      && acquired == released + StreamSeq(stream)
    }

    /** The first render: an empty PIN, no scan, no camera. */
    constructor ()
      ensures Valid()
      ensures pin == "" && !error && !isFaceScanning && cameraError == None
      ensures stream == None && !awaitingCamera && mounted
      ensures timers == [] && authCalls == 0 && acquired == [] && released == []
    {
      pin, error, isFaceScanning, cameraError := "", false, false, None;
      stream, awaitingCamera, mounted := None, false, true;
      timers, authCalls, acquired, released := [], 0, [], [];
    }

    /** `handleNumClick(d)` followed by the PIN-validation effect. A digit
        is taken only while the PIN is shorter than four and no scan runs
        (the keys are also disabled during a scan); it clears the error
        flag. When the PIN reaches four digits the effect either schedules
        authentication (the demo PIN) or flags the error and schedules the
        clearing of the PIN. */
    method NumClick(d: nat)
      requires d < 10
      requires Valid()
      modifies this`pin, this`error, this`timers
      ensures Valid()
      ensures var accepted := old(mounted && |pin| < 4 && !isFaceScanning);
        && pin == (if accepted then old(pin) + [Digit(d)] else old(pin))
        && |pin| <= 4
        && (accepted ==> error == (|pin| == 4 && pin != CorrectPin))
        && (!accepted ==> error == old(error))
        && timers == old(timers) + (if accepted && |pin| == 4 then [if pin == CorrectPin then AuthAfterPin else ClearPin] else [])
    {
      if mounted && |pin| < 4 && !isFaceScanning {
        pin := pin + [Digit(d)];
        error := false;
        PinEffect();
      }
    }

    /** The effect that runs whenever `pin` changes: a full PIN is
        accepted or rejected; a shorter one leaves the error as it was. */
    method PinEffect()
      requires |pin| <= 4 && IsDigits(pin)
      modifies this`error, this`timers
      ensures error == (if |pin| == 4 && pin != CorrectPin then true else old(error))
      ensures timers == old(timers) + (if |pin| == 4 then [if pin == CorrectPin then AuthAfterPin else ClearPin] else [])
    {
      if |pin| == 4 {
        if pin == CorrectPin {
          timers := timers + [AuthAfterPin];
        } else {
          error := true;
          timers := timers + [ClearPin];
        }
      }
    }

    /** `handleDelete`: outside a scan, drops the last digit (nothing to
        drop on an empty PIN) and clears the error flag. */
    method Delete()
      requires Valid()
      modifies this`pin, this`error, this`timers
      ensures Valid()
      ensures var accepted := old(mounted && !isFaceScanning);
        && pin == (if accepted && old(pin) != "" then old(pin)[..|old(pin)| - 1] else old(pin))
        && error == (if accepted then false else old(error))
      ensures timers == old(timers)
    {
      if mounted && !isFaceScanning {
        var changed := pin != "";
        if changed {
          pin := pin[..|pin| - 1];
        }
        error := false;
        if changed {
          PinEffect();
        }
      }
    }

    /** `stopCamera`: stops the current stream's tracks, if any, and ends
        the scan. Afterwards there is no stream, so a second call stops
        nothing more. */
    method StopCamera()
      modifies this`stream, this`released, this`isFaceScanning
      ensures stream == None && !isFaceScanning
      ensures released == old(released) + StreamSeq(old(stream))
    {
      if stream.Some? {
        released := released + [stream.value];
        stream := None;
      }
      isFaceScanning := false;
    }

    /** The synchronous part of `handleFaceAuth`, up to the `await`: the
        camera error is cleared, the scan starts and the camera is asked
        for. The button is disabled during a scan. */
    method FaceAuthStart()
      requires Valid()
      modifies this`cameraError, this`isFaceScanning, this`awaitingCamera
      ensures Valid()
      ensures var accepted := old(mounted && !isFaceScanning);
        && (accepted ==> cameraError == None && isFaceScanning && awaitingCamera)
        && (!accepted ==> cameraError == old(cameraError) && isFaceScanning == old(isFaceScanning)
                          && awaitingCamera == old(awaitingCamera))
    {
      if mounted && !isFaceScanning {
        cameraError := None;
        isFaceScanning := true;
        awaitingCamera := true;
      }
    }

    /** The rest of `handleFaceAuth`, once the camera answers: a stream
        (`Some(h)`) is kept and the end of the scan is scheduled; a refusal
        ends the scan, shows the camera error and schedules its clearing. */
    method CameraResult(outcome: Option<Stream>)
      requires Valid() && awaitingCamera
      modifies this`stream, this`acquired, this`timers, this`isFaceScanning, this`cameraError, this`awaitingCamera
      ensures Valid()
      ensures !awaitingCamera
      ensures outcome.Some? ==>
        && stream == outcome && acquired == old(acquired) + [outcome.value]
        && timers == old(timers) + [FaceScanDone]
        && isFaceScanning == old(isFaceScanning) && cameraError == old(cameraError)
      ensures outcome.None? ==>
        && stream == None && acquired == old(acquired)
        && !isFaceScanning && cameraError == Some(CameraRequired)
        && timers == old(timers) + [ClearCameraError]
    {
      awaitingCamera := false;
      if outcome.Some? {
        stream := outcome;
        acquired := acquired + [outcome.value];
        timers := timers + [FaceScanDone];
      } else {
        isFaceScanning := false;
        cameraError := Some(CameraRequired);
        timers := timers + [ClearCameraError];
      }
    }

    // A pending timer runs when its delay has passed: `ScanDone(i)`,
    // `PinAccepted(i)`, `PinCleared(i)` or `CameraErrorCleared(i)` for the
    // kind at index `i`, which it removes from the queue.

    /** The end of the face scan: `stopCamera()`, then `onAuthenticated()`. */
    method ScanDone(i: nat)
      requires Valid() && i < |timers| && timers[i] == FaceScanDone
      modifies this`timers, this`stream, this`released, this`isFaceScanning, this`authCalls
      ensures Valid()
      ensures timers == RemoveAt(old(timers), i)
      ensures stream == None && !isFaceScanning && released == old(released) + StreamSeq(old(stream))
      ensures authCalls == old(authCalls) + 1
    {
      RemoveKeeps(timers, i);
      timers := RemoveAt(timers, i);
      StopCamera();
      authCalls := authCalls + 1;
    }

    /** The correct PIN's `onAuthenticated()`. */
    method PinAccepted(i: nat)
      requires Valid() && i < |timers| && timers[i] == AuthAfterPin
      modifies this`timers, this`authCalls
      ensures Valid()
      ensures timers == RemoveAt(old(timers), i)
      ensures authCalls == old(authCalls) + 1
    {
      RemoveKeeps(timers, i);
      timers := RemoveAt(timers, i);
      authCalls := authCalls + 1;
    }

    /** A wrong PIN's `setPin('')`. */
    method PinCleared(i: nat)
      requires Valid() && i < |timers| && timers[i] == ClearPin
      modifies this`timers, this`pin, this`error
      ensures Valid()
      ensures timers == RemoveAt(old(timers), i)
      ensures pin == "" && error == old(error)
    {
      RemoveKeeps(timers, i);
      timers := RemoveAt(timers, i);
      pin := "";
      PinEffect();
    }

    /** The camera error's `setCameraError(null)`. */
    method CameraErrorCleared(i: nat)
      requires Valid() && i < |timers| && timers[i] == ClearCameraError
      modifies this`timers, this`cameraError
      ensures Valid()
      ensures timers == RemoveAt(old(timers), i)
      ensures cameraError == None
    {
      RemoveKeeps(timers, i);
      timers := RemoveAt(timers, i);
      cameraError := None;
    }

    /** The unmount cleanup: the camera is always stopped. Timers already
        scheduled are not cancelled. */
    method Unmount()
      requires Valid() && mounted
      modifies this`stream, this`released, this`isFaceScanning, this`mounted
      ensures Valid()
      ensures !mounted && stream == None && !isFaceScanning
      ensures released == old(released) + StreamSeq(old(stream))
    {
      StopCamera();
      mounted := false;
    }
  }
}
