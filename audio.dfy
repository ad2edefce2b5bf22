/**
 * The ambient-audio button (script.js:230-246): its `aria-pressed` attribute is the
 * switch, and each click flips it and changes the button's text.
 */
module Audio {
  import opened Dom

  /** The button counts as on only when `aria-pressed` is exactly "true"; an absent
      attribute or any other value counts as off. */
  predicate IsOn(ariaPressed: Option<string>) {
    ariaPressed == Some("true")
  }

  function Toggled(ariaPressed: Option<string>): (r: Option<string>)
    ensures IsOn(r) <==> !IsOn(ariaPressed)
    ensures r == Some("true") || r == Some("false")
  {
    if IsOn(ariaPressed) then Some("false") else Some("true")
  }

  function Caption(ariaPressed: Option<string>): string {
    if IsOn(ariaPressed) then "Audio: On" else "Audio: Off"
  }

  /** Once clicked, the attribute only ever holds "true" or "false", and two clicks
      restore it; a first click from an absent or unexpected value switches on. */
  lemma ToggleTwice(ariaPressed: Option<string>)
    ensures Toggled(Toggled(ariaPressed)) == if IsOn(ariaPressed) then ariaPressed else Some("false")
    ensures !IsOn(ariaPressed) ==> Toggled(ariaPressed) == Some("true")
  {
  }

  /** The `#audio-toggle` button. Whether `#ambient-audio` actually plays is not modelled. */
  class AudioToggle {
    var ariaPressed: Option<string>
    var textContent: string

    constructor (pressed: Option<string>, text: string)
      ensures ariaPressed == pressed && textContent == text
    {
      ariaPressed := pressed;
      textContent := text;
    }

    /** The click listener: play and switch on when off, pause and switch off when on. */
    method Click()
      modifies this
      ensures ariaPressed == Toggled(old(ariaPressed))
      ensures IsOn(ariaPressed) == !IsOn(old(ariaPressed))
      ensures textContent == Caption(ariaPressed)
    {
      var on := ariaPressed == Some("true");
      if !on {
        ariaPressed := Some("true");
        textContent := "Audio: On";
      } else {
        ariaPressed := Some("false");
        textContent := "Audio: Off";
      }
    }
  }
}
