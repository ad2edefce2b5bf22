/**
 * The few browser notions the page's behaviour is written in terms of.
 * Elements are opaque identities and markup is opaque text: the model keeps
 * of a piece of markup only the focusable elements it contains.
 */
module Dom {

  /** A JavaScript value that may be `null` (an absent attribute, a cancelled prompt,
      no focused element). */
  datatype Option<+T> = None | Some(value: T)

  /** An element of the document, as an identity. */
  datatype Element =
    | ModalRoot              // the `#modal` container itself
    | CloseButton            // the `#modal-close` button of the modal header
    | Control(key: string)   // a focusable element of the dialog's title or body, named by its id or name
    | PageElement(id: string) // any element outside the modal (an opener button, a card, ...)

  /** HTML handed to the modal: opaque text, together with the keys of the focusable
      elements (links with an `href`, buttons, text areas, inputs, selects, and elements
      with any `tabindex` other than exactly "-1") that the browser finds in it, in
      document order. */
  datatype Markup = Markup(html: string, controls: seq<string>)

  /** A `keydown` event: its `key` name and whether Shift was held. */
  datatype KeyEvent = KeyEvent(key: string, shiftKey: bool)
}
