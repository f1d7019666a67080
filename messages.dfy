/** Values exchanged between the three extension contexts: the capture command
    sent to the page, the capture agent's reply, and the delivery envelope sent
    to the review page. */
module Messages {

  datatype Option<T> = None | Some(value: T)

  /** The only command the capture agent handles. */
  const CaptureAction := "captureFullPage"

  /** The only message the review page handles. */
  const DisplayAction := "displayCapture"

  /** A runtime message. A field its sender does not set is modelled as "". */
  datatype Message = Message(action: string, imageData: string, pageUrl: string, pageTitle: string)

  /** `{ action: 'captureFullPage' }`: the command carries no payload. */
  function CaptureRequest(): Message
  {
    Message(CaptureAction, "", "", "")
  }

  /** What the capture agent replies: `{success: true, imageData, pageUrl, pageTitle}`
      or `{success: false, error}`. */
  datatype Reply =
    | Captured(imageData: string, pageUrl: string, pageTitle: string)
    | Failed(error: string)

  /** The `displayCapture` envelope built from a successful reply. */
  function DisplayMessage(imageData: string, pageUrl: string, pageTitle: string): Message
  {
    Message(DisplayAction, imageData, pageUrl, pageTitle)
  }
}
