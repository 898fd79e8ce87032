/** The gizmo options the keyboard controls: the gizmo's mode and precision snapping. */
module MoveObjectsUi {
  import opened MoveObjects

  datatype GizmoMode = Rotate | Translate | Scale

  /** The mode T switches to: rotate and translate swap, anything else becomes translate. */
  function Toggled(m: GizmoMode): (r: GizmoMode)
    ensures r != Scale
    ensures m == Rotate ==> r == Translate
    ensures r == Rotate <==> m == Translate
  {
    match m
    case Rotate => Translate
    case Translate => Rotate
    case Scale => Translate
  }

  /** From rotate or translate, two presses of T come back; from scale they lead to rotate. */
  lemma ToggledTwice(m: GizmoMode)
    ensures m != Scale ==> Toggled(Toggled(m)) == m
    ensures m == Scale ==> Toggled(Toggled(m)) == Rotate
  {
  }

  /** The part of the `GizmoOptions` resource the keyboard changes. */
  class GizmoOptions {
    var mode: GizmoMode
    var precisionSnap: bool

    /** `setup`: translate mode, precision snapping as the settings have it. */
    constructor (settingsSnap: bool)
      ensures mode == Translate && precisionSnap == settingsSnap
    {
      mode, precisionSnap := Translate, settingsSnap;
    }

    /**
     * `change_gizmo_mode`, which runs only while an object is being moved:
     * T toggles the mode, and precision snapping is on exactly while L is
     * held. With nothing selected the options stay as they are.
     */
    method ChangeGizmoMode(state: MoveObjectsState, tPressed: bool, lHeld: bool)
      modifies this
      ensures state != Moving ==> mode == old(mode) && precisionSnap == old(precisionSnap)
      ensures state == Moving ==> mode == (if tPressed then Toggled(old(mode)) else old(mode))
      ensures state == Moving ==> precisionSnap == lHeld
    {
      if state != Moving {
        return;
      }
      if tPressed {
        mode := Toggled(mode);
      }
      if lHeld {
        precisionSnap := true;
      } else {
        precisionSnap := false;
      }
    }
  }
}
