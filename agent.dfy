/** The capture agent that runs inside the captured page: its message
    listener and the capture routine. The raster capture and the image
    encoding are outcome parameters; the page's scroll position and the
    replies sent back are state. */
module Agent {
  import opened Messages

  const LibraryMissing := "html2canvas ライブラリが読み込まれていません。ページを再読み込みしてください。"
  const FailurePrefix := "キャプチャに失敗しました: "

  /** The size signals read from the page. */
  datatype Extents = Extents(
    bodyScrollHeight: int,
    bodyOffsetHeight: int,
    rootClientHeight: int,
    rootScrollHeight: int,
    rootOffsetHeight: int,
    bodyScrollWidth: int)

  /** The options passed to the raster capture (flags it always sets are
      fields too, so that they are recorded). */
  datatype RenderOptions = RenderOptions(
    allowTaint: bool,
    useCors: bool,
    scrollX: int,
    scrollY: int,
    windowHeight: int,
    height: int,
    width: int,
    imageTimeout: int)

  datatype RenderOutcome = Rendered | RenderFailed(message: string)
  datatype EncodeOutcome = Encoded(dataUrl: string) | EncodeFailed(message: string)

  /** How `captureFullPage` settles: resolved with a result, or rejected with an
      error message. */
  datatype CaptureOutcome = Resolved(result: Reply) | Rejected(message: string)

  function Max(a: int, b: int): int
  {
    if a >= b then a else b
  }

  /** The page height used for the capture: the largest of the five signals. */
  function PageHeight(e: Extents): (h: int)
    ensures h >= e.bodyScrollHeight && h >= e.bodyOffsetHeight && h >= e.rootClientHeight
    ensures h >= e.rootScrollHeight && h >= e.rootOffsetHeight
    ensures h == e.bodyScrollHeight || h == e.bodyOffsetHeight || h == e.rootClientHeight
         || h == e.rootScrollHeight || h == e.rootOffsetHeight
  {
    Max(Max(Max(Max(e.bodyScrollHeight, e.bodyOffsetHeight), e.rootClientHeight), e.rootScrollHeight), e.rootOffsetHeight)
  }

  /** The options of the capture call, made while the page is at (`x`, `y`). */
  function CaptureOptions(e: Extents, x: int, y: int): (o: RenderOptions)
    ensures o.windowHeight == o.height == PageHeight(e)
    ensures o.width == e.bodyScrollWidth
    ensures o.scrollX == -x && o.scrollY == -y
    ensures o.allowTaint && o.useCors && o.imageTimeout == 0
  {
    var h := PageHeight(e);
    RenderOptions(true, true, -x, -y, h, h, e.bodyScrollWidth, 0)
  }

  /** The message of every error leaving `captureFullPage`. */
  function Wrapped(message: string): (r: string)
    ensures r != ""
    ensures |r| == |FailurePrefix| + |message| && r[..|FailurePrefix|] == FailurePrefix
    ensures r[|FailurePrefix|..] == message
  {
    FailurePrefix + message
  }

  /** What `captureFullPage` settles with. */
  function CaptureResult(libraryLoaded: bool, href: string, title: string, render: RenderOutcome, encode: EncodeOutcome): (out: CaptureOutcome)
    ensures out.Resolved? <==> libraryLoaded && render.Rendered? && encode.Encoded?
    ensures out.Resolved? ==> out.result == Captured(encode.dataUrl, href, title)
    ensures out.Rejected? ==> out.message == Wrapped(
      if !libraryLoaded then LibraryMissing else if render.RenderFailed? then render.message else encode.message)
  {
    if !libraryLoaded then Rejected(Wrapped(LibraryMissing))
    else match render
      case RenderFailed(m) => Rejected(Wrapped(m))
      case Rendered =>
        match encode
        case EncodeFailed(m) => Rejected(Wrapped(m))
        case Encoded(d) => Resolved(Captured(d, href, title))
  }

  /** The listener's reply: the result itself, or `{success: false, error}`. */
  function ReplyFor(outcome: CaptureOutcome): (r: Reply)
    ensures outcome.Resolved? ==> r == outcome.result
    ensures outcome.Rejected? ==> r.Failed? && r.error == outcome.message
  {
    match outcome
    case Resolved(r) => r
    case Rejected(m) => Failed(m)
  }

  /** Every reply the listener sends is a success or carries a non-empty error. */
  lemma ReplyErrorNonEmpty(libraryLoaded: bool, href: string, title: string, render: RenderOutcome, encode: EncodeOutcome)
    ensures var reply := ReplyFor(CaptureResult(libraryLoaded, href, title, render, encode));
      reply.Failed? ==> reply.error != "" && reply.error[..|FailurePrefix|] == FailurePrefix
  {
  }

  /** The page the agent runs in. */
  class Page {
    var scrollX: int
    var scrollY: int
    /** `typeof html2canvas !== 'undefined'` */
    var libraryLoaded: bool
    /** `window.location.href` and `document.title` */
    const href: string
    const title: string
    /** The replies sent through `sendResponse`, in order. */
    var replies: seq<Reply>

    constructor (x: int, y: int, loaded: bool, location: string, documentTitle: string)
      ensures scrollX == x && scrollY == y && libraryLoaded == loaded
      ensures href == location && title == documentTitle && replies == []
    {
      scrollX, scrollY, libraryLoaded := x, y, loaded;
      href, title := location, documentTitle;
      replies := [];
    }

    /** `captureFullPage`. The scroll position is put back only after a
        successful raster capture, and then horizontally to 0; a failure before
        that point leaves the page where it was. */
    method CaptureFullPage(e: Extents, render: RenderOutcome, encode: EncodeOutcome)
      returns (out: CaptureOutcome, call: Option<RenderOptions>)
      modifies this`scrollX, this`scrollY
      ensures out == CaptureResult(libraryLoaded, href, title, render, encode)
      ensures !libraryLoaded ==> call == None
      ensures libraryLoaded ==> call == Some(CaptureOptions(e, old(scrollX), old(scrollY)))
      ensures libraryLoaded && render.Rendered? ==> scrollX == 0 && scrollY == old(scrollY)
      ensures !(libraryLoaded && render.Rendered?) ==> scrollX == old(scrollX) && scrollY == old(scrollY)
    {
      if !libraryLoaded {
        return Rejected(Wrapped(LibraryMissing)), None;
      }
      var height := PageHeight(e);
      var originalScrollY := scrollY;
      var options := RenderOptions(true, true, -scrollX, -scrollY, height, height, e.bodyScrollWidth, 0);
      call := Some(options);
      match render {
        case RenderFailed(m) =>
          return Rejected(Wrapped(m)), call;
        case Rendered =>
      }
      scrollX, scrollY := 0, originalScrollY;
      match encode {
        case EncodeFailed(m) =>
          out := Rejected(Wrapped(m));
        case Encoded(d) =>
          out := Resolved(Captured(d, href, title));
      }
    }

    /** The runtime message listener: only the capture command is handled; it
        keeps the channel open (returns true) and replies exactly once. */
    method OnMessage(request: Message, e: Extents, render: RenderOutcome, encode: EncodeOutcome)
      returns (keepOpen: bool)
      modifies this`scrollX, this`scrollY, this`replies
      ensures keepOpen <==> request.action == CaptureAction
      ensures !keepOpen ==> replies == old(replies) && scrollX == old(scrollX) && scrollY == old(scrollY)
      ensures keepOpen ==> replies == old(replies) + [ReplyFor(CaptureResult(libraryLoaded, href, title, render, encode))]
      ensures keepOpen && libraryLoaded && render.Rendered? ==> scrollX == 0 && scrollY == old(scrollY)
      ensures keepOpen && !(libraryLoaded && render.Rendered?) ==> scrollX == old(scrollX) && scrollY == old(scrollY)
    {
      keepOpen := false;
      if request.action == CaptureAction {
        var out, _ := CaptureFullPage(e, render, encode);
        match out {
          case Resolved(result) => replies := replies + [result];
          case Rejected(m) => replies := replies + [Failed(m)];
        }
        keepOpen := true;
      }
    }
  }
}
