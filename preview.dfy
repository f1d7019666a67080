/** Geometry of the review page's preview canvas (`updatePreview`) and the
    right-truncation of the URL header line (`drawUrlHeader`). Text
    measurement is a parameter: `measure(s)` stands for
    `ctx.measureText(s).width` in the header font. */
module Preview {

  /** Height of the URL header band when the toggle is on. */
  const UrlHeaderHeight: nat := 60

  /** Left/top padding of the header text; the text may use the canvas width
      less twice this. */
  const HeaderPadding: int := 10

  const Ellipsis := "..."

  function HeaderHeight(includeUrl: bool): nat
  {
    if includeUrl then UrlHeaderHeight else 0
  }

  /** Canvas size and the vertical offset at which the captured image is drawn. */
  datatype Layout = Layout(width: nat, height: nat, imageTop: nat)

  function CanvasLayout(imageWidth: nat, imageHeight: nat, includeUrl: bool): (l: Layout)
    ensures l.width == imageWidth
    ensures l.imageTop == (if includeUrl then UrlHeaderHeight else 0)
    ensures l.height == imageHeight + l.imageTop
  {
    var header := HeaderHeight(includeUrl);
    Layout(imageWidth, imageHeight + header, header)
  }

  /** The header band and the image split the canvas height between them:
      turning the header on adds exactly the band above an unmoved image size,
      and turning it off again gives back the layout without it. */
  lemma ToggleAddsBand(imageWidth: nat, imageHeight: nat)
    ensures var on, off := CanvasLayout(imageWidth, imageHeight, true), CanvasLayout(imageWidth, imageHeight, false);
      && on.width == off.width
      && on.height == off.height + UrlHeaderHeight
      && on.height - on.imageTop == off.height - off.imageTop == imageHeight
      && off.imageTop == 0
  {
  }

  function HeaderText(url: string): string
  {
    "URL: " + url
  }

  /** The first `kept` characters of `text` followed by the ellipsis. */
  function Ellipsized(text: string, kept: nat): string
    requires kept <= |text|
  {
    text[..kept] + Ellipsis
  }

  predicate Fits(measure: string -> int, maxWidth: int, s: string)
  {
    measure(s) <= maxWidth
  }

  /** The longest prefix length, at most `n`, whose ellipsized prefix fits;
      0 when none does. */
  function LongestFit(text: string, maxWidth: int, measure: string -> int, n: nat): (k: nat)
    requires n <= |text|
    ensures k <= n
    ensures k == 0 || Fits(measure, maxWidth, Ellipsized(text, k))
    ensures forall j :: k < j <= n ==> !Fits(measure, maxWidth, Ellipsized(text, j))
  {
    if n == 0 || Fits(measure, maxWidth, Ellipsized(text, n)) then n
    else LongestFit(text, maxWidth, measure, n - 1)
  }

  /** The header line drawn for `url` on a canvas `canvasWidth` wide. */
  function ShownHeader(url: string, canvasWidth: int, measure: string -> int): (shown: string)
    ensures var text, maxWidth := HeaderText(url), canvasWidth - 2 * HeaderPadding;
      && (Fits(measure, maxWidth, text) ==> shown == text)
      && (!Fits(measure, maxWidth, text) ==>
            exists k :: 0 <= k <= |text| && shown == Ellipsized(text, k)
              && (k == 0 || Fits(measure, maxWidth, shown))
              && forall j :: k < j <= |text| ==> !Fits(measure, maxWidth, Ellipsized(text, j)))
  {
    var text, maxWidth := HeaderText(url), canvasWidth - 2 * HeaderPadding;
    if Fits(measure, maxWidth, text) then text
    else Ellipsized(text, LongestFit(text, maxWidth, measure, |text|))
  }

  /** The truncation loop of `drawUrlHeader`: drop the last character until the
      text plus the ellipsis fits or nothing is left. Each round shortens the
      text by one, which is why the loop ends. */
  method FitHeader(url: string, canvasWidth: int, measure: string -> int) returns (shown: string)
    ensures shown == ShownHeader(url, canvasWidth, measure)
  {
    var maxWidth := canvasWidth - HeaderPadding * 2;
    var text := HeaderText(url);
    shown := text;
    if measure(text) > maxWidth {
      var truncated := text;
      while measure(truncated + Ellipsis) > maxWidth && |truncated| > 0
        invariant |truncated| <= |text| && truncated == text[..|truncated|]
        invariant LongestFit(text, maxWidth, measure, |truncated|) == LongestFit(text, maxWidth, measure, |text|)
        decreases |truncated|
      {
        truncated := truncated[..|truncated| - 1];
      }
      shown := truncated + Ellipsis;
    }
  }
}
