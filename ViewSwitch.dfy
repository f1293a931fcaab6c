/** The role switch of the application shell: one button cycles the view
    mode Patient -> Caregiver -> Family -> Patient, and its label names the
    mode the next press moves to. */
module ViewSwitch {

  datatype ViewMode = PATIENT | CAREGIVER | FAMILY

  /** The mode one press of the switch moves to. */
  function NextView(mode: ViewMode): (next: ViewMode)
    ensures next != mode
  {
    match mode
    case PATIENT => CAREGIVER
    case CAREGIVER => FAMILY
    case FAMILY => PATIENT
  }

  /** The name the button shows for a mode. */
  function ViewName(mode: ViewMode): string {
    match mode
    case PATIENT => "Patient"
    case CAREGIVER => "Caregiver"
    case FAMILY => "Family"
  }

  /** Three presses return to the start, passing through the two other
      modes on the way. */
  lemma ThreeSwitchesReturn(mode: ViewMode)
    ensures NextView(NextView(NextView(mode))) == mode
    ensures {mode, NextView(mode), NextView(NextView(mode))} == {PATIENT, CAREGIVER, FAMILY}
  {
  }

  /** The view mode held by the application shell (its `useState` slot). */
  class ViewSwitcher {
    var viewMode: ViewMode

    constructor ()
      ensures viewMode == PATIENT
    {
      viewMode := PATIENT;
    }

    method HandleSwitchView()
      modifies this
      ensures viewMode == NextView(old(viewMode))
    {
      if viewMode == PATIENT {
        viewMode := CAREGIVER;
      } else if viewMode == CAREGIVER {
        viewMode := FAMILY;
      } else {
        viewMode := PATIENT;
      }
    }

    /** The label of the switch names exactly the mode the next press moves to. */
    function GetNextViewName(): (name: string)
      reads this
      ensures name == ViewName(NextView(viewMode))
    {
      if viewMode == PATIENT then "Caregiver"
      else if viewMode == CAREGIVER then "Family"
      else "Patient"
    }
  }

  /** Pressing the switch three times from a fresh shell comes back to the
      patient view, and the label announced each next view correctly. */
  method SwitchThreeTimes() returns (names: seq<string>, final: ViewMode)
    ensures names == ["Caregiver", "Family", "Patient"]
    ensures final == PATIENT
  {
    var shell := new ViewSwitcher();
    var first := shell.GetNextViewName();
    shell.HandleSwitchView();
    var second := shell.GetNextViewName();
    shell.HandleSwitchView();
    var third := shell.GetNextViewName();
    shell.HandleSwitchView();
    names := [first, second, third];
    final := shell.viewMode;
  }
}
