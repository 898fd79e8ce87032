/** The persistent user settings, of which the core reads and writes the camera control mode. */
module Settings {
  import opened Geometry

  /** An unsigned byte. */
  newtype u8 = x: int | 0 <= x < 256

  /** The camera controller's mode. */
  datatype ControlState = PCMode | TrackPadMode

  /** The mode a stored code stands for: 1 is the track pad, every other code the PC mode. */
  function ControlStateOf(code: u8): (c: ControlState)
    ensures c == TrackPadMode <==> code == 1
  {
    match code
    case 0 => PCMode
    case 1 => TrackPadMode
    case _ => PCMode
  }

  /** The code stored for a mode. */
  function CodeOf(c: ControlState): (code: u8)
    ensures code <= 1
  {
    match c
    case PCMode => 0
    case TrackPadMode => 1
  }

  /** Storing a mode and reading it back gives the mode. */
  lemma ControlStateRoundTrip(c: ControlState)
    ensures ControlStateOf(CodeOf(c)) == c
  {
  }

  /** Reading a code and storing the mode gives the code back exactly for 0 and 1. */
  lemma CodeRoundTrip(code: u8)
    ensures CodeOf(ControlStateOf(code)) == code <==> code <= 1
  {
  }

  /** The `Settings` resource. */
  class Settings {
    var controlState: u8
    var rotateSensitivity: Vec2
    var translateSensitivity: Vec2
    var zoomSensitivity: real

    /** `Default`: PC mode, rotation sensitivity 0.8 and translation 0.2 on both axes, zoom 1. */
    constructor ()
      ensures controlState == 0 && GetControlState() == PCMode
      ensures rotateSensitivity == Vec2(0.8, 0.8) && translateSensitivity == Vec2(0.2, 0.2)
      ensures zoomSensitivity == 1.0
    {
      controlState := 0;
      rotateSensitivity, translateSensitivity := Vec2(0.8, 0.8), Vec2(0.2, 0.2);
      zoomSensitivity := 1.0;
    }

    /** `get_control_state`: the stored code read through `ControlStateOf`. */
    function GetControlState(): (c: ControlState)
      reads this
      ensures c == TrackPadMode <==> controlState == 1
      ensures controlState <= 1 ==> CodeOf(c) == controlState
    {
      ControlStateOf(controlState)
    }

    /** `set_control_state`: only the code changes (writing the file is left out). */
    method SetControlState(c: ControlState)
      modifies this`controlState
      ensures controlState == CodeOf(c)
      ensures GetControlState() == c
    {
      match c
      case PCMode =>
        controlState := 0;
      case TrackPadMode =>
        controlState := 1;
    }
  }
}
