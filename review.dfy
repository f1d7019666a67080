/** The review page (dashboard): the state that the `displayCapture` message
    fills in, the preview it renders, the status line, and the export actions.
    Browser facilities are outcome parameters: the image decode result, the
    text measure, the clock reading and whether each save or copy succeeds. */
module Review {
  import opened Messages
  import Filename
  import Preview

  /** What the page does that is visible outside its own fields, in order. */
  datatype Effect =
    | Status(text: string, className: string)  // showStatus
    | HideLater                                // hideStatus: a 3000 ms timer
    | Pause(ms: nat)                           // an awaited setTimeout
    | Copied                                   // image written to the clipboard
    | Download(filename: string)               // chrome.downloads.download request

  /** How decoding the stored image ends: `img.onload` with its size, or `img.onerror`. */
  datatype ImageLoad = Loaded(width: nat, height: nat) | LoadFailed

  /** How one save ends: it throws before the download request (encoding or
      the object URL fails), the host rejects the request, or it succeeds. */
  datatype SaveOutcome = FailedBeforeDownload | DownloadRejected | Saved

  /** The rendered preview: its geometry and the header line, if drawn. */
  datatype Canvas = Canvas(layout: Preview.Layout, header: Option<string>)

  const BaseClass := "status-message"

  const PreviewUpdating := "プレビューを更新中..."
  const ImageLoadError := "画像の読み込みに失敗しました"
  const CopyStarted := "画像をクリップボードにコピー中..."
  const CopyDone := "画像をクリップボードにコピーしました！"
  const CopyError := "クリップボードへのコピーに失敗しました"
  const JpegStarted := "JPEGファイルを生成中..."
  const JpegDone := "JPEGファイルを保存しました"
  const JpegError := "JPEGの保存に失敗しました"
  const PdfStarted := "PDFファイルを生成中..."
  const PdfDone := "PDFファイルを保存しました"
  const PdfError := "PDFの保存に失敗しました"
  const BothStarted := "両方の形式で保存中..."
  const BothDone := "両方のファイルを保存しました"
  /** Prefix of the "captured from" line above the preview. */
  const SourceLinePrefix := "キャプチャ元: "

  /** Pause between the two saves of "save both". */
  const SaveBothPause: nat := 500

  /** The class list `showStatus` leaves on the status line: the base class,
      plus the type when the type is `success` or `error`. */
  function StatusClass(kind: string): (c: string)
    ensures c == BaseClass <==> kind != "success" && kind != "error"
    ensures c != BaseClass ==> c == BaseClass + " " + kind
  {
    if kind == "success" || kind == "error" then BaseClass + " " + kind else BaseClass
  }

  predicate IsStatusClass(c: string)
  {
    c == BaseClass || c == BaseClass + " success" || c == BaseClass + " error"
  }

  /** The preview for an image of the given size: a pure function of the image
      size, the toggle, the URL and the font measure. */
  function RenderCanvas(width: nat, height: nat, includeUrl: bool, url: string, measure: string -> int): (c: Canvas)
    ensures c.layout == Preview.CanvasLayout(width, height, includeUrl)
    ensures c.header.Some? <==> includeUrl
    ensures includeUrl ==> c.header == Some(Preview.ShownHeader(url, width, measure))
  {
    Canvas(Preview.CanvasLayout(width, height, includeUrl),
           if includeUrl then Some(Preview.ShownHeader(url, width, measure)) else None)
  }

  /** The status line `updatePreview` leaves when an image is stored: the
      "updating" message (hidden later) after a load, the error after a failure. */
  function PreviewStatus(load: ImageLoad): (e: Effect)
    ensures e.Status? && IsStatusClass(e.className)
    ensures e.className == BaseClass <==> load.Loaded?
  {
    if load.Loaded? then Status(PreviewUpdating, BaseClass) else Status(ImageLoadError, StatusClass("error"))
  }

  /** What `updatePreview` shows when an image is stored. */
  function PreviewEffects(load: ImageLoad): seq<Effect>
  {
    [Status(PreviewUpdating, BaseClass)]
    + (if load.Loaded? then [HideLater] else [PreviewStatus(load)])
  }

  /** One save: the "generating" status, the download request unless it failed
      before it, and the result status. */
  function SaveEffects(started: string, done: string, failed: string, filename: string, outcome: SaveOutcome): seq<Effect>
  {
    [Status(started, BaseClass)]
    + (if outcome == FailedBeforeDownload then [] else [Download(filename)])
    + [if outcome == Saved then Status(done, StatusClass("success")) else Status(failed, StatusClass("error"))]
  }

  function JpegEffects(filename: string, outcome: SaveOutcome): seq<Effect>
  {
    SaveEffects(JpegStarted, JpegDone, JpegError, filename, outcome)
  }

  function PdfEffects(filename: string, outcome: SaveOutcome): seq<Effect>
  {
    SaveEffects(PdfStarted, PdfDone, PdfError, filename, outcome)
  }

  /** "Save both" with the filenames its two saves generate. */
  function SaveBothEffects(jpegName: string, pdfName: string, jpeg: SaveOutcome, pdf: SaveOutcome): seq<Effect>
  {
    [Status(BothStarted, BaseClass)]
    + JpegEffects(jpegName, jpeg)
    + [Pause(SaveBothPause)]
    + PdfEffects(pdfName, pdf)
    + [Status(BothDone, StatusClass("success"))]
  }

  /** The filenames of the download requests in a trace, in order. */
  function Downloads(effects: seq<Effect>): (names: seq<string>)
    ensures |names| <= |effects|
  {
    if effects == [] then []
    else (if effects[0].Download? then [effects[0].filename] else []) + Downloads(effects[1..])
  }

  lemma {:induction false} DownloadsAppend(a: seq<Effect>, b: seq<Effect>)
    ensures Downloads(a + b) == Downloads(a) + Downloads(b)
  {
    if a == [] {
      assert a + b == b;
    } else {
      assert (a + b)[0] == a[0];
      assert (a + b)[1..] == a[1..] + b;
      DownloadsAppend(a[1..], b);
    }
  }

  lemma SaveRequestsOneDownloadUnlessFailedEarly(started: string, done: string, failed: string, filename: string, outcome: SaveOutcome)
    ensures Downloads(SaveEffects(started, done, failed, filename, outcome))
         == if outcome == FailedBeforeDownload then [] else [filename]
  {
    var s := SaveEffects(started, done, failed, filename, outcome);
    var mid: seq<Effect> := if outcome == FailedBeforeDownload then [] else [Download(filename)];
    var last := if outcome == Saved then Status(done, StatusClass("success")) else Status(failed, StatusClass("error"));
    DownloadsAppend([Status(started, BaseClass)] + mid, [last]);
    DownloadsAppend([Status(started, BaseClass)], mid);
  }

  /** The download requests of "save both" are those of its JPEG save followed
      by those of its PDF save. */
  lemma SaveBothDownloads(jpegName: string, pdfName: string, jpeg: SaveOutcome, pdf: SaveOutcome)
    ensures Downloads(SaveBothEffects(jpegName, pdfName, jpeg, pdf))
         == Downloads(JpegEffects(jpegName, jpeg)) + Downloads(PdfEffects(pdfName, pdf))
  {
    var head: seq<Effect> := [Status(BothStarted, BaseClass)];
    var j, p := JpegEffects(jpegName, jpeg), PdfEffects(pdfName, pdf);
    var pause: seq<Effect> := [Pause(SaveBothPause)];
    var tail: seq<Effect> := [Status(BothDone, StatusClass("success"))];
    DownloadsAppend(head + j + pause + p, tail);
    DownloadsAppend(head + j + pause, p);
    DownloadsAppend(head + j, pause);
    DownloadsAppend(head, j);
  }

  /** "Save both" always runs the JPEG save and then the PDF save, whatever the
      first one did: the download requests are the JPEG one (if that save got
      that far) followed by the PDF one (likewise). */
  lemma SaveBothRequestsInOrder(jpegName: string, pdfName: string, jpeg: SaveOutcome, pdf: SaveOutcome)
    ensures Downloads(SaveBothEffects(jpegName, pdfName, jpeg, pdf))
         == (if jpeg == FailedBeforeDownload then [] else [jpegName])
          + (if pdf == FailedBeforeDownload then [] else [pdfName])
  {
    SaveBothDownloads(jpegName, pdfName, jpeg, pdf);
    SaveRequestsOneDownloadUnlessFailedEarly(JpegStarted, JpegDone, JpegError, jpegName, jpeg);
    SaveRequestsOneDownloadUnlessFailedEarly(PdfStarted, PdfDone, PdfError, pdfName, pdf);
  }

  /** Each sub-save catches its own failure, so "save both" always ends by
      reporting that both files were saved, and always starts the PDF save. */
  lemma SaveBothAlwaysReportsSuccess(jpegName: string, pdfName: string, jpeg: SaveOutcome, pdf: SaveOutcome)
    ensures var e := SaveBothEffects(jpegName, pdfName, jpeg, pdf);
      && e[|e| - 1] == Status(BothDone, BaseClass + " success")
      && Status(PdfStarted, BaseClass) in e
  {
    var e := SaveBothEffects(jpegName, pdfName, jpeg, pdf);
    var head: seq<Effect> := [Status(BothStarted, BaseClass)] + JpegEffects(jpegName, jpeg) + [Pause(SaveBothPause)];
    var p := PdfEffects(pdfName, pdf);
    assert p[0] == Status(PdfStarted, BaseClass);
    assert e == head + p + [Status(BothDone, StatusClass("success"))];
    assert e[|head|] == p[0];
  }

  lemma AppendRegroup<T>(a: seq<T>, b: seq<T>, c: seq<T>, d: seq<T>, e: seq<T>, f: seq<T>)
    ensures a + b + c + d + e + f == a + (b + c + d + e + f)
  {
  }

  /** The most recent status shown in a trace, if any. */
  ghost function LastStatus(log: seq<Effect>): (s: Option<Effect>)
    ensures s.Some? ==> s.value.Status? && s.value in log
  {
    if log == [] then None
    else if log[|log| - 1].Status? then Some(log[|log| - 1])
    else LastStatus(log[..|log| - 1])
  }

  class ReviewPage {
    var imageData: string      // originalImageData; null is modelled as ""
    var pageUrl: string        // currentPageUrl
    var pageTitle: string      // currentPageTitle
    var urlInfo: string        // text of the "captured from" line
    var includeUrl: bool       // the URL header toggle
    var copyDisabled: bool
    var jpegDisabled: bool
    var pdfDisabled: bool
    var bothDisabled: bool
    var canvas: Option<Canvas>
    var statusText: string
    var statusClass: string
    var log: seq<Effect>

    ghost predicate Valid()
      reads this
    {
      && copyDisabled == jpegDisabled == pdfDisabled == bothDisabled
      && IsStatusClass(statusClass)
      // the status line shows the most recent status, or nothing before the first
      && (LastStatus(log).None? ==> statusText == "" && statusClass == BaseClass)
      && (LastStatus(log).Some? ==> LastStatus(log).value == Status(statusText, statusClass))
    }

    predicate HasImage()
      reads this
    {
      imageData != ""
    }

    /** The page as loaded: nothing stored, export buttons disabled. */
    constructor (urlToggleChecked: bool)
      ensures Valid()
      ensures imageData == "" && pageUrl == "" && pageTitle == "" && urlInfo == ""
      ensures includeUrl == urlToggleChecked
      ensures copyDisabled && jpegDisabled && pdfDisabled && bothDisabled
      ensures canvas == None && statusText == "" && statusClass == BaseClass && log == []
    {
      imageData, pageUrl, pageTitle, urlInfo := "", "", "", "";
      includeUrl := urlToggleChecked;
      copyDisabled, jpegDisabled, pdfDisabled, bothDisabled := true, true, true, true;
      canvas := None;
      statusText, statusClass := "", BaseClass;
      log := [];
    }

    method ShowStatus(text: string, kind: string)
      requires Valid()
      modifies this`statusText, this`statusClass, this`log
      ensures Valid()
      ensures statusText == text && statusClass == StatusClass(kind)
      ensures log == old(log) + [Status(text, StatusClass(kind))]
    {
      statusText := text;
      statusClass := StatusClass(kind);
      log := log + [Status(statusText, statusClass)];
    }

    /** Re-renders the preview from the stored image; does nothing while no
        image is stored. */
    method UpdatePreview(load: ImageLoad, measure: string -> int)
      requires Valid()
      modifies this`statusText, this`statusClass, this`log, this`canvas
      ensures Valid()
      ensures !old(HasImage()) ==>
        && log == old(log) && canvas == old(canvas)
        && statusText == old(statusText) && statusClass == old(statusClass)
      ensures old(HasImage()) ==> log == old(log) + PreviewEffects(load)
      ensures old(HasImage()) ==> Status(statusText, statusClass) == PreviewStatus(load)
      ensures old(HasImage()) && load.Loaded? ==>
        canvas == Some(RenderCanvas(load.width, load.height, includeUrl, pageUrl, measure))
      ensures load.LoadFailed? ==> canvas == old(canvas)
    {
      if imageData == "" {
        return;
      }
      ShowStatus(PreviewUpdating, "info");
      match load {
        case Loaded(w, h) =>
          var header: Option<string> := None;
          if includeUrl {
            var shown := Preview.FitHeader(pageUrl, w, measure);
            header := Some(shown);
          }
          canvas := Some(Canvas(Preview.CanvasLayout(w, h, includeUrl), header));
          log := log + [HideLater];
        case LoadFailed =>
          ShowStatus(ImageLoadError, "error");
      }
    }

    /** The `displayCapture` branch of the message listener: store the
        capture, show where it came from, render it and enable the exports. */
    method ShowCapture(imageData': string, pageUrl': string, pageTitle': string, load: ImageLoad, measure: string -> int)
      requires Valid()
      modifies this`imageData, this`pageUrl, this`pageTitle, this`urlInfo, this`statusText, this`statusClass,
               this`log, this`canvas, this`copyDisabled, this`jpegDisabled, this`pdfDisabled, this`bothDisabled
      ensures Valid()
      ensures imageData == imageData' && pageUrl == pageUrl' && pageTitle == pageTitle'
      ensures urlInfo == SourceLinePrefix + pageUrl'
      ensures !copyDisabled && !jpegDisabled && !pdfDisabled && !bothDisabled
      ensures log == old(log) + (if imageData' != "" then PreviewEffects(load) else [])
      ensures imageData' != "" ==> Status(statusText, statusClass) == PreviewStatus(load)
      ensures imageData' == "" ==> statusText == old(statusText) && statusClass == old(statusClass)
      ensures imageData' != "" && load.Loaded? ==>
        canvas == Some(RenderCanvas(load.width, load.height, includeUrl, pageUrl', measure))
      ensures imageData' == "" || load.LoadFailed? ==> canvas == old(canvas)
    {
      Store(imageData', pageUrl', pageTitle');
      UpdatePreview(load, measure);
      EnableExports();
    }

    method Store(imageData': string, pageUrl': string, pageTitle': string)
      requires Valid()
      modifies this`imageData, this`pageUrl, this`pageTitle, this`urlInfo
      ensures Valid()
      ensures imageData == imageData' && pageUrl == pageUrl' && pageTitle == pageTitle'
      ensures urlInfo == SourceLinePrefix + pageUrl'
      ensures HasImage() <==> imageData' != ""
    {
      imageData, pageUrl, pageTitle := imageData', pageUrl', pageTitle';
      urlInfo := SourceLinePrefix + pageUrl';
    }

    method EnableExports()
      requires Valid()
      modifies this`copyDisabled, this`jpegDisabled, this`pdfDisabled, this`bothDisabled
      ensures Valid()
      ensures !copyDisabled && !jpegDisabled && !pdfDisabled && !bothDisabled
    {
      copyDisabled, jpegDisabled, pdfDisabled, bothDisabled := false, false, false, false;
    }

    /** The runtime message listener: only `displayCapture` is handled. */
    method OnMessage(msg: Message, load: ImageLoad, measure: string -> int)
      requires Valid()
      modifies this`imageData, this`pageUrl, this`pageTitle, this`urlInfo, this`statusText, this`statusClass,
               this`log, this`canvas, this`copyDisabled, this`jpegDisabled, this`pdfDisabled, this`bothDisabled
      ensures Valid()
      ensures msg.action != DisplayAction ==> unchanged(this)
      ensures msg.action == DisplayAction ==>
        && imageData == msg.imageData && pageUrl == msg.pageUrl && pageTitle == msg.pageTitle
        && urlInfo == SourceLinePrefix + msg.pageUrl
        && !copyDisabled && !jpegDisabled && !pdfDisabled && !bothDisabled
        && log == old(log) + (if msg.imageData != "" then PreviewEffects(load) else [])
        && (msg.imageData != "" ==> Status(statusText, statusClass) == PreviewStatus(load))
        && (msg.imageData == "" ==> statusText == old(statusText) && statusClass == old(statusClass))
        && (msg.imageData != "" && load.Loaded? ==>
              canvas == Some(RenderCanvas(load.width, load.height, includeUrl, msg.pageUrl, measure)))
        && (msg.imageData == "" || load.LoadFailed? ==> canvas == old(canvas))
      ensures includeUrl == old(includeUrl)
    {
      if msg.action == DisplayAction {
        ShowCapture(msg.imageData, msg.pageUrl, msg.pageTitle, load, measure);
      }
    }

    /** The header toggle's `change` handler. */
    method ToggleUrl(checked: bool, load: ImageLoad, measure: string -> int)
      requires Valid()
      modifies this`includeUrl, this`statusText, this`statusClass, this`log, this`canvas
      ensures Valid()
      ensures includeUrl == checked
      ensures !HasImage() ==>
        && canvas == old(canvas) && log == old(log)
        && statusText == old(statusText) && statusClass == old(statusClass)
      ensures HasImage() ==> log == old(log) + PreviewEffects(load)
      ensures HasImage() ==> Status(statusText, statusClass) == PreviewStatus(load)
      ensures HasImage() && load.Loaded? ==>
        canvas == Some(RenderCanvas(load.width, load.height, checked, pageUrl, measure))
      ensures load.LoadFailed? ==> canvas == old(canvas)
    {
      includeUrl := checked;
      UpdatePreview(load, measure);
    }

    method CopyToClipboard(written: bool)
      requires Valid()
      modifies this`statusText, this`statusClass, this`log
      ensures Valid()
      ensures log == old(log) + [Status(CopyStarted, BaseClass)]
        + (if written then [Copied, Status(CopyDone, StatusClass("success")), HideLater]
           else [Status(CopyError, StatusClass("error"))])
      ensures statusText == (if written then CopyDone else CopyError)
      ensures statusClass == StatusClass(if written then "success" else "error")
    {
      ShowStatus(CopyStarted, "info");
      if written {
        log := log + [Copied];
        ShowStatus(CopyDone, "success");
        log := log + [HideLater];
      } else {
        ShowStatus(CopyError, "error");
      }
    }

    /** One save: the "generating" status, the download request unless the
        save failed before it, and the result status. */
    method Save(started: string, done: string, failed: string, filename: string, outcome: SaveOutcome)
      requires Valid()
      modifies this`statusText, this`statusClass, this`log
      ensures Valid()
      ensures log == old(log) + SaveEffects(started, done, failed, filename, outcome)
      ensures statusText == if outcome == Saved then done else failed
      ensures statusClass == StatusClass(if outcome == Saved then "success" else "error")
    {
      ShowStatus(started, "info");
      if outcome != FailedBeforeDownload {
        log := log + [Download(filename)];
      }
      if outcome == Saved {
        ShowStatus(done, "success");
      } else {
        ShowStatus(failed, "error");
      }
    }

    method SaveAsJpeg(isoNow: string, outcome: SaveOutcome)
      requires Valid()
      modifies this`statusText, this`statusClass, this`log
      ensures Valid()
      ensures log == old(log) + JpegEffects(Filename.GenerateFilename(pageTitle, isoNow, "jpg"), outcome)
      ensures statusText == if outcome == Saved then JpegDone else JpegError
      ensures statusClass == StatusClass(if outcome == Saved then "success" else "error")
    {
      var filename := Filename.GenerateFilename(pageTitle, isoNow, "jpg");
      Save(JpegStarted, JpegDone, JpegError, filename, outcome);
    }

    method SaveAsPdf(isoNow: string, outcome: SaveOutcome)
      requires Valid()
      modifies this`statusText, this`statusClass, this`log
      ensures Valid()
      ensures log == old(log) + PdfEffects(Filename.GenerateFilename(pageTitle, isoNow, "pdf"), outcome)
      ensures statusText == if outcome == Saved then PdfDone else PdfError
      ensures statusClass == StatusClass(if outcome == Saved then "success" else "error")
    {
      var filename := Filename.GenerateFilename(pageTitle, isoNow, "pdf");
      Save(PdfStarted, PdfDone, PdfError, filename, outcome);
    }

    /** The awaited 500 ms timer between the two saves. */
    method WaitBetweenSaves()
      requires Valid()
      modifies this`log
      ensures Valid()
      ensures log == old(log) + [Pause(SaveBothPause)]
    {
      log := log + [Pause(SaveBothPause)];
    }

    /** JPEG, a pause, then PDF; each save catches its own failure, so the
        combined handler's own error branch is never taken. */
    method SaveBoth(jpegNow: string, pdfNow: string, jpeg: SaveOutcome, pdf: SaveOutcome)
      requires Valid()
      modifies this`statusText, this`statusClass, this`log
      ensures Valid()
      ensures log == old(log) + SaveBothEffects(Filename.GenerateFilename(pageTitle, jpegNow, "jpg"),
                                                Filename.GenerateFilename(pageTitle, pdfNow, "pdf"), jpeg, pdf)
      ensures statusText == BothDone && statusClass == BaseClass + " success"
    {
      ghost var j := JpegEffects(Filename.GenerateFilename(pageTitle, jpegNow, "jpg"), jpeg);
      ghost var p := PdfEffects(Filename.GenerateFilename(pageTitle, pdfNow, "pdf"), pdf);
      ghost var before := log;
      ShowStatus(BothStarted, "info");
      SaveAsJpeg(jpegNow, jpeg);
      WaitBetweenSaves();
      SaveAsPdf(pdfNow, pdf);
      ShowStatus(BothDone, "success");
      AppendRegroup(before, [Status(BothStarted, BaseClass)], j, [Pause(SaveBothPause)], p, [Status(BothDone, StatusClass("success"))]);
    }
  }
}
