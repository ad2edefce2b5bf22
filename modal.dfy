/**
 * The page's single modal dialog: `openModal`, `closeModal` and the focus trap
 * that `trapFocus` installs (script.js:248-287).
 *
 * The state the three helpers share is described once as a value, `ModalState`,
 * with one pure transition per operation; the class `ModalManager` holds the same
 * state in mutable fields and its methods are proved to perform those transitions.
 */
module Modal {
  import opened Dom

  /** What `modal.innerHTML` holds: nothing, or a header with `title` and the close
      button followed by `body`. The title is spliced into the header unescaped, so it is
      markup too, and its focusable elements come before the close button. */
  datatype Content = Cleared | Dialog(title: Markup, body: Markup)

  /** The elements the browser navigates by Tab inside a body, in document order. */
  function ControlElements(keys: seq<string>): (es: seq<Element>)
    ensures |es| == |keys|
    ensures forall i :: 0 <= i < |keys| ==> es[i] == Control(keys[i])
  {
    if keys == [] then [] else [Control(keys[0])] + ControlElements(keys[1..])
  }

  /** The focusable descendants of the modal for the given content, as `querySelectorAll`
      lists them in document order: those of the title, the header's close button, then
      those of the body. The close button is always there, so a dialog always has one. */
  function Focusables(c: Content): (fs: seq<Element>)
    ensures c.Cleared? ==> fs == []
    ensures c.Dialog? ==>
      var n := |c.title.controls|;
      && |fs| == n + 1 + |c.body.controls|
      && fs[n] == CloseButton
      && (forall i :: 0 <= i < n ==> fs[i] == Control(c.title.controls[i]))
      && (forall i :: n < i < |fs| ==> fs[i] == Control(c.body.controls[i - n - 1]))
    ensures ModalRoot !in fs
  {
    match c
    case Cleared => []
    case Dialog(title, body) => ControlElements(title.controls) + [CloseButton] + ControlElements(body.controls)
  }

  /** The `first` and `last` focusable elements captured when a trap is installed. */
  datatype Trap = Trap(first: Element, last: Element)

  function TrapOver(fs: seq<Element>): Trap
    requires fs != []
  {
    Trap(fs[0], fs[|fs| - 1])
  }

  /** Everything the modal helpers read or write. `active` is the document's focused
      element; `trap` is the most recently installed trap (`None` before the first open). */
  datatype ModalState = ModalState(
    modalShown: bool,
    backdropShown: bool,
    content: Content,
    lastActive: Option<Element>,
    active: Option<Element>,
    trap: Option<Trap>)

  /** The modal and the backdrop are shown together, exactly when there is a dialog in
      the modal, and while shown the installed trap spans that dialog's focusables. */
  predicate Inv(s: ModalState) {
    && s.modalShown == s.backdropShown
    && (s.modalShown <==> s.content.Dialog?)
    && (s.content.Dialog? ==> s.trap == Some(TrapOver(Focusables(s.content))))
  }

  /** The page as loaded: both surfaces hidden, nothing captured, no trap. */
  function Initial(focused: Option<Element>): (s: ModalState)
    ensures Inv(s) && !s.modalShown && s.lastActive == None && s.trap == None
  {
    ModalState(false, false, Cleared, None, focused, None)
  }

  /** `openModal(title, html)`: capture the focused element, render header and body,
      show both surfaces, focus the container and install a trap over the new content. */
  function Opened(s: ModalState, title: Markup, body: Markup): (r: ModalState)
    ensures Inv(r)
    ensures r.modalShown && r.backdropShown && r.content == Dialog(title, body)
    ensures r.lastActive == s.active && r.active == Some(ModalRoot)
  {
    var content := Dialog(title, body);
    ModalState(true, true, content, s.active, Some(ModalRoot), Some(TrapOver(Focusables(content))))
  }

  /** `closeModal()`: hide both surfaces, clear the content, and refocus the captured
      element when there is one. The captured element itself is kept. */
  function Closed(s: ModalState): (r: ModalState)
    ensures Inv(r)
    ensures !r.modalShown && !r.backdropShown && r.content == Cleared
    ensures r.lastActive == s.lastActive && r.trap == s.trap
    ensures s.lastActive.Some? ==> r.active == s.lastActive
    ensures s.lastActive.None? ==> r.active == s.active
  {
    s.(modalShown := false, backdropShown := false, content := Cleared,
       active := if s.lastActive.Some? then s.lastActive else s.active)
  }

  /** What the trap's `keydown` handler decides. */
  datatype Reaction = Wrap(target: Element) | Dismiss | Pass

  function React(t: Trap, active: Option<Element>, e: KeyEvent): Reaction {
    if e.key == "Tab" then
      if e.shiftKey then
        (if active == Some(t.first) then Wrap(t.last) else Pass)
      else
        (if active == Some(t.last) then Wrap(t.first) else Pass)
    else if e.key == "Escape" then Dismiss
    else Pass
  }

  /** A key pressed inside the modal. Before any open there is no listener at all. */
  function AfterKey(s: ModalState, e: KeyEvent): (r: ModalState)
    ensures Inv(s) ==> Inv(r)
  {
    match s.trap
    case None => s
    case Some(t) =>
      match React(t, s.active, e)
      case Wrap(target) => s.(active := Some(target))
      case Dismiss => Closed(s)
      case Pass => s
  }

  /** The browser moving focus on its own: a click, or Tab's default navigation. */
  function Focused(s: ModalState, el: Element): ModalState {
    s.(active := Some(el))
  }

  /** Whether a key pressed now reaches the trap's listener: the listener sits on the
      container, so the focused element must be the container or one inside it. */
  predicate InModal(s: ModalState) {
    s.active.Some? && (s.active.value == ModalRoot || s.active.value in Focusables(s.content))
  }

  /** Anything that can happen to the modal, in any order. A click on the backdrop,
      on the header's close button or on a body's Cancel/Close button is `CloseModal`;
      `KeyDown` is a key pressed wherever focus is. */
  datatype Event =
    | OpenModal(title: Markup, body: Markup)
    | CloseModal
    | KeyDown(e: KeyEvent)
    | MoveFocus(el: Element)

  function Step(s: ModalState, ev: Event): ModalState {
    match ev
    case OpenModal(title, body) => Opened(s, title, body)
    case CloseModal => Closed(s)
    case KeyDown(e) => if InModal(s) then AfterKey(s, e) else s
    case MoveFocus(el) => Focused(s, el)
  }

  function Run(s: ModalState, evs: seq<Event>): ModalState
    decreases |evs|
  {
    if evs == [] then s else Run(Step(s, evs[0]), evs[1..])
  }

  /** No event in `evs` opens the dialog. */
  predicate NoOpen(evs: seq<Event>) {
    forall i :: 0 <= i < |evs| ==> !evs[i].OpenModal?
  }

  // ---------------------------------------------------------------- properties

  /** No sequence of events breaks the invariant. */
  lemma {:induction false} RunKeepsInv(s: ModalState, evs: seq<Event>)
    requires Inv(s)
    ensures Inv(Run(s, evs))
    decreases |evs|
  {
    if evs != [] {
      var s' := Step(s, evs[0]);
      assert Inv(s') by {
        match evs[0]
        case OpenModal(_, _) =>
        case CloseModal =>
        case KeyDown(_) =>
        case MoveFocus(_) =>
      }
      RunKeepsInv(s', evs[1..]);
    }
  }

  /** After an open the trap's first element is the title's first control, or the close
      button when the title holds none, and its last is the body's last control, or the
      close button when the body holds none. */
  lemma OpenShowsDialog(s: ModalState, title: Markup, body: Markup)
    ensures var r := Opened(s, title, body);
      && r.trap.Some?
      && r.trap.value.first == (if title.controls == [] then CloseButton
                                else Control(title.controls[0]))
      && r.trap.value.last == (if body.controls == [] then CloseButton
                               else Control(body.controls[|body.controls| - 1]))
  {
  }

  /** Every open overwrites the captured element, also while a dialog is already shown:
      after a re-open from inside the dialog, closing refocuses the element focused at the
      re-open and never the one focused before the first open. */
  lemma ReopenOverwritesCapture(s: ModalState, t1: Markup, b1: Markup, inside: Element, t2: Markup, b2: Markup)
    ensures var shown := Focused(Opened(s, t1, b1), inside);
      && Opened(shown, t2, b2).lastActive == Some(inside)
      && Closed(Opened(shown, t2, b2)).active == Some(inside)
  {
  }

  /** Close after open returns focus to the element focused before the open. The second
      clause covers a document with no focused element at all, which cannot happen on the
      page: with a body present, `document.activeElement` is never null. */
  lemma CloseAfterOpenRestoresFocus(s: ModalState, title: Markup, body: Markup)
    ensures s.active.Some? ==> Closed(Opened(s, title, body)).active == s.active
    ensures s.active.None? ==> Closed(Opened(s, title, body)).active == Some(ModalRoot)
    ensures !Closed(Opened(s, title, body)).modalShown
  {
  }

  /** Only an open changes the captured element: focus moves, key presses and closes,
      in any number and order, keep it. */
  lemma {:induction false} RunKeepsCapture(s: ModalState, evs: seq<Event>)
    requires NoOpen(evs)
    ensures Run(s, evs).lastActive == s.lastActive
    decreases |evs|
  {
    if evs != [] {
      assert !evs[0].OpenModal?;
      assert NoOpen(evs[1..]) by {
        forall i | 0 <= i < |evs[1..]| ensures !evs[1..][i].OpenModal? {
          assert evs[1..][i] == evs[i + 1];
        }
      }
      RunKeepsCapture(Step(s, evs[0]), evs[1..]);
    }
  }

  /** A close after an open returns focus to the element focused before the open, however
      focus moved and whatever keys were pressed in between (a click on the close button,
      on Cancel, or on the backdrop moves focus first). */
  lemma CloseRestoresFocusAfterEvents(s: ModalState, title: Markup, body: Markup, evs: seq<Event>)
    requires NoOpen(evs) && s.active.Some?
    ensures Closed(Run(Opened(s, title, body), evs)).active == s.active
  {
    RunKeepsCapture(Opened(s, title, body), evs);
  }

  /** Closing never clears the captured element, so a second close changes nothing. */
  lemma CloseIdempotent(s: ModalState)
    ensures Closed(Closed(s)) == Closed(s)
    ensures Closed(s).lastActive == s.lastActive
  {
  }

  /** Escape reaching the listener of an open dialog closes it; pressed with focus on the
      container or inside the dialog, it reaches the listener. */
  lemma EscapeCloses(s: ModalState, shift: bool)
    requires Inv(s) && s.modalShown
    ensures AfterKey(s, KeyEvent("Escape", shift)) == Closed(s)
    ensures InModal(s) ==> Step(s, KeyDown(KeyEvent("Escape", shift))) == Closed(s)
  {
  }

  /** A key pressed with focus outside the modal (after Shift+Tab out of the container,
      or after a click elsewhere) never reaches the trap: nothing changes, and an open
      dialog stays open. */
  lemma KeyOutsideIgnored(s: ModalState, e: KeyEvent)
    requires !InModal(s)
    ensures Step(s, KeyDown(e)) == s
  {
  }

  /** With no dialog open and focus outside the hidden container, any key, Escape
      included, changes nothing. */
  lemma {:induction false} KeyWithNothingOpen(s: ModalState, e: KeyEvent)
    requires Inv(s) && !s.modalShown && s.active != Some(ModalRoot)
    ensures Step(s, KeyDown(e)) == s
  {
    assert Focusables(s.content) == [];
    assert !InModal(s);
  }

  /** The trap's listener stays on the container after a close. Escape reaching it then
      only closes again: nothing becomes visible and the content stays cleared. */
  lemma EscapeWhenHidden(s: ModalState, shift: bool)
    requires Inv(s) && !s.modalShown
    ensures var r := AfterKey(s, KeyEvent("Escape", shift));
      && !r.modalShown && !r.backdropShown && r.content == Cleared && r.lastActive == s.lastActive
  {
  }

  /** Tab on the last focusable element wraps to the first one, and changes nothing else. */
  lemma {:induction false} TabOnLastWraps(s: ModalState)
    requires Inv(s) && s.modalShown
    requires var fs := Focusables(s.content); s.active == Some(fs[|fs| - 1])
    ensures var fs := Focusables(s.content);
      AfterKey(s, KeyEvent("Tab", false)) == s.(active := Some(fs[0]))
  {
  }

  /** Shift+Tab on the first focusable element wraps to the last one, and changes nothing
      else. */
  lemma {:induction false} ShiftTabOnFirstWraps(s: ModalState)
    requires Inv(s) && s.modalShown
    requires var fs := Focusables(s.content); s.active == Some(fs[0])
    ensures var fs := Focusables(s.content);
      AfterKey(s, KeyEvent("Tab", true)) == s.(active := Some(fs[|fs| - 1]))
  {
  }

  /** In every other position the trap leaves the state alone, including while the
      container itself has focus (as right after an open), and so does every other key. */
  lemma TrapPassesElsewhere(s: ModalState, e: KeyEvent)
    requires Inv(s) && s.modalShown
    requires e.key != "Escape"
    requires var fs := Focusables(s.content);
      && (e.key == "Tab" && e.shiftKey ==> s.active != Some(fs[0]))
      && (e.key == "Tab" && !e.shiftKey ==> s.active != Some(fs[|fs| - 1]))
    ensures AfterKey(s, e) == s
  {
  }

  /** Right after an open, neither Tab nor Shift+Tab is intercepted. */
  lemma {:induction false} NoWrapFromContainer(s: ModalState, title: Markup, body: Markup, shift: bool)
    ensures var r := Opened(s, title, body);
      AfterKey(r, KeyEvent("Tab", shift)) == r
  {
    var r := Opened(s, title, body);
    var fs := Focusables(r.content);
    assert ModalRoot !in fs;
    assert r.active != Some(fs[0]) && r.active != Some(fs[|fs| - 1]);
  }

  // ---------------------------------------------------------------- mutable model

  /** The module-level state of script.js behind the modal helpers: the class lists of
      `#modal` and `#modal-backdrop`, `modal.innerHTML`, `lastActiveElement`, the
      document's focused element and the most recently installed trap. */
  class ModalManager {
    var modalShown: bool
    var backdropShown: bool
    var content: Content
    var lastActiveElement: Option<Element>
    var activeElement: Option<Element>
    var trap: Option<Trap>

    function State(): ModalState
      reads this
    {
      ModalState(modalShown, backdropShown, content, lastActiveElement, activeElement, trap)
    }

    predicate Valid()
      reads this
    {
      Inv(State())
    }

    constructor (focused: Option<Element>)
      ensures Valid() && State() == Initial(focused)
    {
      modalShown, backdropShown := false, false;
      content := Cleared;
      lastActiveElement := None;
      activeElement := focused;
      trap := None;
    }

    /** `openModal(title, html)` together with the `trapFocus(modal)` call it ends with. */
    method Open(title: Markup, body: Markup)
      modifies this
      ensures State() == Opened(old(State()), title, body)
      ensures Valid()
      ensures lastActiveElement == old(activeElement) && activeElement == Some(ModalRoot)
      ensures modalShown && backdropShown && content == Dialog(title, body)
    {
      lastActiveElement := activeElement;
      content := Dialog(title, body);
      modalShown := true;
      backdropShown := true;
      activeElement := Some(ModalRoot);
      var focusable := Focusables(content);
      trap := Some(Trap(focusable[0], focusable[|focusable| - 1]));
    }

    /** `closeModal()`: the listener of the backdrop, of the header's close button and of
        the Cancel/Close buttons of each body. */
    method Close()
      modifies this
      ensures State() == Closed(old(State()))
      ensures Valid()
      ensures !modalShown && !backdropShown && content == Cleared
      ensures lastActiveElement == old(lastActiveElement)
    {
      modalShown := false;
      backdropShown := false;
      content := Cleared;
      if lastActiveElement.Some? {
        activeElement := lastActiveElement;
      }
    }

    /** The `keydown` listener of the current trap; `prevented` is whether it called
        `preventDefault`, that is, whether it took Tab navigation over from the browser. */
    method HandleKey(e: KeyEvent) returns (prevented: bool)
      requires Valid()
      modifies this
      ensures State() == AfterKey(old(State()), e)
      ensures Valid()
      ensures prevented <==> old(trap).Some? && React(old(trap).value, old(activeElement), e).Wrap?
    {
      prevented := false;
      if trap.Some? {
        var first, last := trap.value.first, trap.value.last;
        if e.key == "Tab" {
          if e.shiftKey {
            if activeElement == Some(first) {
              prevented := true;
              activeElement := Some(last);
            }
          } else {
            if activeElement == Some(last) {
              prevented := true;
              activeElement := Some(first);
            }
          }
        } else if e.key == "Escape" {
          Close();
        }
      }
    }

    /** The browser moving focus to `el` (a click, or default Tab navigation). */
    method MoveFocus(el: Element)
      modifies this
      ensures State() == Focused(old(State()), el)
    {
      activeElement := Some(el);
    }
  }
}
