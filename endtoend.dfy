/** Properties that connect the three contexts: what the capture agent
    replies, what the click handler does with it, and what the review page
    receives. */
module EndToEnd {
  import opened Messages
  import opened Traces
  import Agent
  import Controller
  import Review

  /** A failure reply produced by the agent always has error text, so the
      click handler's alert shows the agent's message and never the
      unknown-error fallback. */
  lemma AgentFailureShownVerbatim(loaded: bool, href: string, title: string, render: Agent.RenderOutcome, encode: Agent.EncodeOutcome)
    ensures var reply := Agent.ReplyFor(Agent.CaptureResult(loaded, href, title, render, encode));
      reply.Failed? ==> Controller.ErrorText(Some(reply)) == reply.error && reply.error != Controller.UnknownError
  {
    var reply := Agent.ReplyFor(Agent.CaptureResult(loaded, href, title, render, encode));
    Agent.ReplyErrorNonEmpty(loaded, href, title, render, encode);
    if reply.Failed? {
      assert reply.error[..|Agent.FailurePrefix|] == Agent.FailurePrefix;
      assert Agent.FailurePrefix[0] != Controller.UnknownError[0];
    }
  }

  /** With the agent already present and the capture succeeding, one command
      is sent, nothing is injected, no alert is shown, and the listener for the
      new review tab carries the captured image with the page's own URL and title. */
  lemma DirectCaptureHandsOverPage(tab: Controller.Tab, o: Controller.Outcomes, href: string, title: string, dataUrl: string)
    requires Controller.Eligible(tab)
    requires o.firstSend == Controller.Answered(Some(Agent.ReplyFor(Agent.CaptureResult(true, href, title, Agent.Rendered, Agent.Encoded(dataUrl)))))
    requires o.openTab.Opened?
    ensures var run := Controller.Click(tab, o);
      && Count(run.effects, Controller.IsSend) == 1
      && Count(run.effects, Controller.IsInject) == 0
      && Count(run.effects, Controller.IsAlert) == 0
      && run.listener == Some(Controller.Listener(o.openTab.tabId, DisplayMessage(dataUrl, href, title)))
  {
    var run := Controller.Click(tab, o);
    Controller.ListenerCarriesReply(tab, o);
    Controller.OneAlertUnlessListening(tab, o);
    Controller.ClickNeverDelivers(tab, o);
    var h := Controller.HandleResponse(tab.id, o.firstSend.response, o.openTab);
    Controller.HandleResponseCounts(tab.id, o.firstSend.response, o.openTab);
    CountAppend([Controller.Send(tab.id, CaptureRequest())], h.effects, Controller.IsSend);
    CountAppend([Controller.Send(tab.id, CaptureRequest())], h.effects, Controller.IsInject);
  }

  /** One capture from click to review page, with the agent already present:
      the page replies once, the click delivers once when the review tab has
      loaded, and the review page ends up holding the page's image, URL and
      title with its export buttons enabled. */
  method CaptureAndReview(tab: Controller.Tab, href: string, title: string, extents: Agent.Extents,
                          dataUrl: string, reviewTabId: int, urlToggle: bool,
                          load: Review.ImageLoad, measure: string -> int)
    returns (page: Agent.Page, session: Controller.ClickSession, review: Review.ReviewPage)
    requires Controller.Eligible(tab)
    ensures page.replies == [Captured(dataUrl, href, title)]
    ensures Count(session.trace, Controller.IsInject) == 0
    ensures Count(session.trace, Controller.IsDeliver) == 1 && session.listener == None
    ensures review.imageData == dataUrl && review.pageUrl == href && review.pageTitle == title
    ensures !review.copyDisabled && !review.jpegDisabled && !review.pdfDisabled && !review.bothDisabled
  {
    page := new Agent.Page(0, 0, true, href, title);
    var keepOpen := page.OnMessage(CaptureRequest(), extents, Agent.Rendered, Agent.Encoded(dataUrl));
    var reply := page.replies[0];
    var o := Controller.Outcomes(Controller.Answered(Some(reply)), Controller.Done, Controller.Done,
                                 Controller.Answered(None), Controller.Opened(reviewTabId));
    DirectCaptureHandsOverPage(tab, o, href, title, dataUrl);
    session := new Controller.ClickSession(tab, o);
    session.TabUpdated(reviewTabId, "complete");
    CountAppend(Controller.Click(tab, o).effects, [Controller.Unlisten(reviewTabId), Controller.Deliver(reviewTabId, DisplayMessage(dataUrl, href, title))], Controller.IsInject);
    assert [Controller.Unlisten(reviewTabId), Controller.Deliver(reviewTabId, DisplayMessage(dataUrl, href, title))][1..]
        == [Controller.Deliver(reviewTabId, DisplayMessage(dataUrl, href, title))];
    CountAppend(Controller.Click(tab, o).effects, [Controller.Unlisten(reviewTabId), Controller.Deliver(reviewTabId, DisplayMessage(dataUrl, href, title))], Controller.IsDeliver);
    Controller.OneAlertUnlessListening(tab, o);
    Controller.ClickNeverDelivers(tab, o);
    var delivered := session.trace[|session.trace| - 1].msg;
    review := new Review.ReviewPage(urlToggle);
    review.OnMessage(delivered, load, measure);
  }
}
