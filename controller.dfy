/** The extension's action-click handler: eligibility check, the capture
    command with one inject-and-retry round, and hand-off to a new review tab
    through a listener that removes itself on first use. Every browser call is
    an outcome parameter; what the handler does is recorded as a trace of
    effects. */
module Controller {
  import opened Messages
  import opened Traces

  const LibraryScript := "libs/html2canvas.min.js"
  const AgentScript := "content.js"
  const DashboardPage := "dashboard.html"

  /** Delay before the retry, giving the injected agent time to register. */
  const SettleDelay: nat := 500

  /** Shown when a failed reply carries no error text. */
  const UnknownError := "不明なエラー"

  datatype Tab = Tab(id: int, url: Option<string>)

  /** What the top-level catch caught: reading the URL of a tab that has none,
      or a rejected browser call with its message. */
  datatype Fault = MissingUrl | ChromeError(message: string)

  /** The notice shown in the page with `window.alert`. */
  datatype Notice = Ineligible | CaptureFailed(error: string) | Unexpected(fault: Fault)

  datatype Effect =
    | Send(tabId: int, msg: Message)        // chrome.tabs.sendMessage
    | Inject(tabId: int, file: string)      // chrome.scripting.executeScript with a file
    | Wait(ms: nat)                         // awaited setTimeout
    | OpenTab(page: string)                 // chrome.tabs.create
    | Listen(tabId: int)                    // onUpdated.addListener, waiting for that tab
    | Unlisten(tabId: int)                  // onUpdated.removeListener
    | Deliver(tabId: int, msg: Message)     // sendMessage to the review tab
    | Alert(tabId: int, notice: Notice)     // executeScript showing an alert

  datatype SendOutcome = Answered(response: Option<Reply>) | SendFailed(message: string)
  datatype CallOutcome = Done | CallFailed(message: string)
  datatype TabOutcome = Opened(tabId: int) | OpenFailed(message: string)

  /** How each browser call of one click would end. */
  datatype Outcomes = Outcomes(
    firstSend: SendOutcome,
    injectLibrary: CallOutcome,
    injectAgent: CallOutcome,
    retrySend: SendOutcome,
    openTab: TabOutcome)

  /** The registered `onUpdated` listener: the tab it waits for and what it sends. */
  datatype Listener = Listener(tabId: int, msg: Message)

  /** The effects of one click and the listener it leaves registered. */
  datatype Run = Run(effects: seq<Effect>, listener: Option<Listener>)

  predicate StartsWith(s: string, prefix: string)
  {
    |prefix| <= |s| && s[..|prefix|] == prefix
  }

  /** Pages the handler refuses to capture. */
  predicate IsRestricted(url: string)
  {
    StartsWith(url, "chrome://") || StartsWith(url, "edge://") || StartsWith(url, "about:")
  }

  predicate IsSend(e: Effect) { e.Send? }
  predicate IsInject(e: Effect) { e.Inject? }
  predicate IsAlert(e: Effect) { e.Alert? }
  predicate IsOpenTab(e: Effect) { e.OpenTab? }
  predicate IsDeliver(e: Effect) { e.Deliver? }

  /** `response?.error || '不明なエラー'`. */
  function ErrorText(response: Option<Reply>): (t: string)
    ensures t != ""
    ensures t != UnknownError ==> response.Some? && response.value.Failed? && t == response.value.error
    ensures response.Some? && response.value.Failed? && response.value.error != "" ==> t == response.value.error
  {
    match response
    case Some(Failed(e)) => if e != "" then e else UnknownError
    case _ => UnknownError
  }

  function Fatal(tabId: int, message: string): Effect
  {
    Alert(tabId, Unexpected(ChromeError(message)))
  }

  /** What happens once a reply (or its absence) is in hand. */
  function HandleResponse(tabId: int, response: Option<Reply>, openTab: TabOutcome): (r: Run)
    ensures r.listener.Some? <==> response.Some? && response.value.Captured? && openTab.Opened?
    ensures r.effects != [] && Ends(r)
  {
    match response
    case Some(Captured(imageData, pageUrl, pageTitle)) =>
      (match openTab
       case Opened(id) =>
         Run([OpenTab(DashboardPage), Listen(id)], Some(Listener(id, DisplayMessage(imageData, pageUrl, pageTitle))))
       case OpenFailed(m) =>
         Run([OpenTab(DashboardPage), Fatal(tabId, m)], None))
    case _ =>
      Run([Alert(tabId, CaptureFailed(ErrorText(response)))], None)
  }

  function Prepend(prefix: seq<Effect>, r: Run): Run
  {
    Run(prefix + r.effects, r.listener)
  }

  /** The sequence up to and including the retried command. */
  function RetryPrefix(tabId: int): seq<Effect>
  {
    [Send(tabId, CaptureRequest()), Inject(tabId, LibraryScript), Inject(tabId, AgentScript),
     Wait(SettleDelay), Send(tabId, CaptureRequest())]
  }

  /** How every run of the handler ends: by registering the listener for the
      tab it waits for, whose message is a `displayCapture`, or by an alert. */
  predicate Ends(r: Run)
    requires r.effects != []
  {
    var last := r.effects[|r.effects| - 1];
    match r.listener
    case Some(l) => last == Listen(l.tabId) && l.msg.action == DisplayAction
    case None => last.Alert?
  }

  /** One click of the extension's action button. */
  function Click(tab: Tab, o: Outcomes): (r: Run)
    ensures r.effects != [] && Ends(r)
    ensures r.listener.Some? ==> Eligible(tab)
  {
    match tab.url
    case None => Run([Alert(tab.id, Unexpected(MissingUrl))], None)
    case Some(url) =>
      if IsRestricted(url) then Run([Alert(tab.id, Ineligible)], None)
      else
        var send := Send(tab.id, CaptureRequest());
        match o.firstSend
        case Answered(response) => Prepend([send], HandleResponse(tab.id, response, o.openTab))
        case SendFailed(_) =>
          match o.injectLibrary
          case CallFailed(m) => Run([send, Inject(tab.id, LibraryScript), Fatal(tab.id, m)], None)
          case Done =>
            match o.injectAgent
            case CallFailed(m) =>
              Run([send, Inject(tab.id, LibraryScript), Inject(tab.id, AgentScript), Fatal(tab.id, m)], None)
            case Done =>
              match o.retrySend
              case SendFailed(m) => Run(RetryPrefix(tab.id) + [Fatal(tab.id, m)], None)
              case Answered(response) => Prepend(RetryPrefix(tab.id), HandleResponse(tab.id, response, o.openTab))
  }

  /** The reply that reaches the success test, if the sends get that far. */
  function FinalResponse(o: Outcomes): Option<Option<Reply>>
  {
    match o.firstSend
    case Answered(r) => Some(r)
    case SendFailed(_) =>
      if o.injectLibrary == Done && o.injectAgent == Done && o.retrySend.Answered?
      then Some(o.retrySend.response) else None
  }

  predicate Eligible(tab: Tab)
  {
    tab.url.Some? && !IsRestricted(tab.url.value)
  }

  // ---------------------------------------------------------------------------
  // Properties of one click

  /** A restricted page gets one alert and nothing else: no command, no injection. */
  lemma RestrictedPageOnlyAlerts(tab: Tab, o: Outcomes)
    requires tab.url.Some? && IsRestricted(tab.url.value)
    ensures Click(tab, o) == Run([Alert(tab.id, Ineligible)], None)
    ensures Count(Click(tab, o).effects, IsSend) == 0 && Count(Click(tab, o).effects, IsInject) == 0
  {
  }

  lemma HandleResponseCounts(tabId: int, response: Option<Reply>, openTab: TabOutcome)
    ensures var r := HandleResponse(tabId, response, openTab);
      && Count(r.effects, IsSend) == 0
      && Count(r.effects, IsInject) == 0
      && Count(r.effects, IsDeliver) == 0
      && Count(r.effects, IsAlert) == (if r.listener.Some? then 0 else 1)
      && Count(r.effects, IsOpenTab) == (if response.Some? && response.value.Captured? then 1 else 0)
  {
    var r := HandleResponse(tabId, response, openTab);
    if response.Some? && response.value.Captured? {
      assert r.effects[1..][1..] == [];
    }
  }

  lemma {:induction false} RetryPrefixCounts(tabId: int)
    ensures Count(RetryPrefix(tabId), IsSend) == 2
    ensures Count(RetryPrefix(tabId), IsInject) == 2
    ensures Count(RetryPrefix(tabId), IsAlert) == 0
    ensures Count(RetryPrefix(tabId), IsOpenTab) == 0
    ensures Count(RetryPrefix(tabId), IsDeliver) == 0
  {
    var p := RetryPrefix(tabId);
    assert p == [p[0], p[1]] + [p[2]] + [p[3], p[4]];
    CountAppend([p[0], p[1]] + [p[2]], [p[3], p[4]], IsSend);
    CountAppend([p[0], p[1]], [p[2]], IsSend);
    CountAppend([p[0], p[1]] + [p[2]], [p[3], p[4]], IsInject);
    CountAppend([p[0], p[1]], [p[2]], IsInject);
    CountAppend([p[0], p[1]] + [p[2]], [p[3], p[4]], IsAlert);
    CountAppend([p[0], p[1]], [p[2]], IsAlert);
    CountAppend([p[0], p[1]] + [p[2]], [p[3], p[4]], IsOpenTab);
    CountAppend([p[0], p[1]], [p[2]], IsOpenTab);
    CountAppend([p[0], p[1]] + [p[2]], [p[3], p[4]], IsDeliver);
    CountAppend([p[0], p[1]], [p[2]], IsDeliver);
    assert [p[0], p[1]][1..] == [p[1]];
    assert [p[3], p[4]][1..] == [p[4]];
  }

  /** A failed injection ends the click after one command, the injections
      made so far and one alert. */
  lemma FailedInjectionCounts(tab: Tab, o: Outcomes)
    requires Eligible(tab) && o.firstSend.SendFailed?
    requires !(o.injectLibrary == Done && o.injectAgent == Done)
    ensures var e := Click(tab, o).effects;
      && Count(e, IsSend) == 1 && Count(e, IsAlert) == 1
      && Count(e, IsInject) == (if o.injectLibrary == Done then 2 else 1)
  {
    var e := Click(tab, o).effects;
    if o.injectLibrary == Done {
      assert e == [e[0], e[1]] + [e[2], e[3]];
      CountAppend([e[0], e[1]], [e[2], e[3]], IsSend);
      CountAppend([e[0], e[1]], [e[2], e[3]], IsInject);
      CountAppend([e[0], e[1]], [e[2], e[3]], IsAlert);
      assert [e[0], e[1]][1..] == [e[1]];
      assert [e[2], e[3]][1..] == [e[3]];
    } else {
      assert e == [e[0]] + [e[1], e[2]];
      CountAppend([e[0]], [e[1], e[2]], IsSend);
      CountAppend([e[0]], [e[1], e[2]], IsInject);
      CountAppend([e[0]], [e[1], e[2]], IsAlert);
      assert [e[1], e[2]][1..] == [e[2]];
    }
  }

  /** At most two capture commands per click; the agent is injected only after
      the first command failed, and then both files are attempted at most once. */
  lemma AtMostTwoSends(tab: Tab, o: Outcomes)
    ensures Count(Click(tab, o).effects, IsSend) <= 2
    ensures Count(Click(tab, o).effects, IsInject) <= 2
    ensures o.firstSend.Answered? ==> Count(Click(tab, o).effects, IsInject) == 0
  {
    var run := Click(tab, o);
    if Eligible(tab) {
      var send := Send(tab.id, CaptureRequest());
      match o.firstSend {
        case Answered(response) =>
          var h := HandleResponse(tab.id, response, o.openTab);
          HandleResponseCounts(tab.id, response, o.openTab);
          CountAppend([send], h.effects, IsSend);
          CountAppend([send], h.effects, IsInject);
        case SendFailed(_) =>
          RetryPrefixCounts(tab.id);
          if o.injectLibrary == Done && o.injectAgent == Done {
            match o.retrySend {
              case SendFailed(m) =>
                CountAppend(RetryPrefix(tab.id), [Fatal(tab.id, m)], IsSend);
                CountAppend(RetryPrefix(tab.id), [Fatal(tab.id, m)], IsInject);
              case Answered(response) =>
                var h := HandleResponse(tab.id, response, o.openTab);
                HandleResponseCounts(tab.id, response, o.openTab);
                CountAppend(RetryPrefix(tab.id), h.effects, IsSend);
                CountAppend(RetryPrefix(tab.id), h.effects, IsInject);
            }
          } else {
            FailedInjectionCounts(tab, o);
          }
      }
    }
  }

  /** Every command sent is the capture command, to the clicked tab. */
  lemma SendsOnlyCaptureCommand(tab: Tab, o: Outcomes)
    ensures forall i :: 0 <= i < |Click(tab, o).effects| && Click(tab, o).effects[i].Send? ==>
      Click(tab, o).effects[i] == Send(tab.id, CaptureRequest())
  {
    if Eligible(tab) && FinalResponse(o).Some? {
      var h := HandleResponse(tab.id, FinalResponse(o).value, o.openTab);
      HandleResponseCounts(tab.id, FinalResponse(o).value, o.openTab);
      assert forall i :: 0 <= i < |h.effects| ==> !IsSend(h.effects[i]);
    }
  }

  /** When the first command fails, the library is injected before the agent,
      then the handler waits 500 ms and sends the command once more; a failed
      library injection stops before the agent is injected. */
  lemma InjectionOrder(tab: Tab, o: Outcomes)
    requires Eligible(tab) && o.firstSend.SendFailed?
    ensures var e := Click(tab, o).effects;
      && |e| >= 3
      && e[0] == Send(tab.id, CaptureRequest())
      && e[1] == Inject(tab.id, LibraryScript)
      && (o.injectLibrary.CallFailed? ==> e == [e[0], e[1], Fatal(tab.id, o.injectLibrary.message)])
      && (o.injectLibrary == Done ==> e[2] == Inject(tab.id, AgentScript))
      && (o.injectLibrary == Done && o.injectAgent == Done ==> e[..5] == RetryPrefix(tab.id))
  {
  }

  /** A failed retry is not retried again: it ends the click with one alert
      carrying the browser's message. */
  lemma FailedRetryAlertsOnce(tab: Tab, o: Outcomes)
    requires Eligible(tab) && o.firstSend.SendFailed? && o.injectLibrary == Done && o.injectAgent == Done
    requires o.retrySend.SendFailed?
    ensures Click(tab, o) == Run(RetryPrefix(tab.id) + [Fatal(tab.id, o.retrySend.message)], None)
  {
  }

  /** Every click either leaves the review-tab listener registered and shows no
      alert, or leaves no listener and shows exactly one alert. */
  lemma OneAlertUnlessListening(tab: Tab, o: Outcomes)
    ensures Count(Click(tab, o).effects, IsAlert) == (if Click(tab, o).listener.Some? then 0 else 1)
  {
    var run := Click(tab, o);
    if Eligible(tab) {
      var send := Send(tab.id, CaptureRequest());
      match o.firstSend {
        case Answered(response) =>
          HandleResponseCounts(tab.id, response, o.openTab);
          CountAppend([send], HandleResponse(tab.id, response, o.openTab).effects, IsAlert);
        case SendFailed(_) =>
          RetryPrefixCounts(tab.id);
          if o.injectLibrary == Done && o.injectAgent == Done {
            match o.retrySend {
              case SendFailed(m) =>
                CountAppend(RetryPrefix(tab.id), [Fatal(tab.id, m)], IsAlert);
              case Answered(response) =>
                HandleResponseCounts(tab.id, response, o.openTab);
                CountAppend(RetryPrefix(tab.id), HandleResponse(tab.id, response, o.openTab).effects, IsAlert);
            }
          } else {
            FailedInjectionCounts(tab, o);
          }
      }
    }
  }

  /** The click itself never delivers the capture: only the listener does. */
  lemma ClickNeverDelivers(tab: Tab, o: Outcomes)
    ensures Count(Click(tab, o).effects, IsDeliver) == 0
  {
    if Eligible(tab) && FinalResponse(o).Some? {
      HandleResponseCounts(tab.id, FinalResponse(o).value, o.openTab);
    }
  }

  /** A successful reply opens one review tab and registers a listener for that
      tab whose message carries the reply's image, URL and title unchanged;
      anything else opens no tab and registers nothing. */
  lemma ListenerCarriesReply(tab: Tab, o: Outcomes)
    ensures Click(tab, o).listener.Some? <==>
      Eligible(tab) && FinalResponse(o).Some? && FinalResponse(o).value.Some?
      && FinalResponse(o).value.value.Captured? && o.openTab.Opened?
    ensures Click(tab, o).listener.Some? ==>
      var reply := FinalResponse(o).value.value;
      Click(tab, o).listener.value == Listener(o.openTab.tabId, DisplayMessage(reply.imageData, reply.pageUrl, reply.pageTitle))
  {
  }

  /** A missing or failed reply opens no tab; the alert shows the reply's error,
      or the fixed unknown-error text when it has none. */
  lemma FailedReplyAlertsError(tab: Tab, o: Outcomes)
    requires Eligible(tab) && FinalResponse(o).Some?
    requires !(FinalResponse(o).value.Some? && FinalResponse(o).value.value.Captured?)
    ensures var e := Click(tab, o).effects;
      && e[|e| - 1] == Alert(tab.id, CaptureFailed(ErrorText(FinalResponse(o).value)))
      && Count(e, IsOpenTab) == 0
      && Click(tab, o).listener == None
  {
    var response := FinalResponse(o).value;
    HandleResponseCounts(tab.id, response, o.openTab);
    var h := HandleResponse(tab.id, response, o.openTab);
    if o.firstSend.Answered? {
      CountAppend([Send(tab.id, CaptureRequest())], h.effects, IsOpenTab);
    } else {
      RetryPrefixCounts(tab.id);
      CountAppend(RetryPrefix(tab.id), h.effects, IsOpenTab);
    }
  }

  /** The `onUpdated` listener and the trace of one click, after the click
      handler has returned. */
  class ClickSession {
    var trace: seq<Effect>
    var listener: Option<Listener>

    /** At most one delivery, counting the one a registered listener may still make. */
    ghost predicate Valid()
      reads this
    {
      && Count(trace, IsDeliver) + (if listener.Some? then 1 else 0) <= 1
      && (listener.Some? ==> listener.value.msg.action == DisplayAction)
    }

    /** Runs the click handler. */
    constructor (tab: Tab, o: Outcomes)
      ensures Valid()
      ensures trace == Click(tab, o).effects && listener == Click(tab, o).listener
    {
      var run := Click(tab, o);
      OneAlertUnlessListening(tab, o);
      ClickNeverDelivers(tab, o);
      trace := run.effects;
      listener := run.listener;
    }

    /** A tab update event. Only the completion of the review tab fires the
        listener, which removes itself before it sends. */
    method TabUpdated(tabId: int, status: string)
      requires Valid()
      modifies this
      ensures Valid()
      ensures Count(trace, IsDeliver) <= 1
      ensures old(listener).Some? && tabId == old(listener).value.tabId && status == "complete" ==>
        && trace == old(trace) + [Unlisten(tabId), Deliver(tabId, old(listener).value.msg)]
        && listener == None
      ensures !(old(listener).Some? && tabId == old(listener).value.tabId && status == "complete") ==>
        trace == old(trace) && listener == old(listener)
    {
      match listener {
        case Some(l) =>
          if tabId == l.tabId && status == "complete" {
            listener := None;
            CountAppend(trace, [Unlisten(tabId), Deliver(tabId, l.msg)], IsDeliver);
            assert [Unlisten(tabId), Deliver(tabId, l.msg)][1..] == [Deliver(tabId, l.msg)];
            trace := trace + [Unlisten(tabId), Deliver(tabId, l.msg)];
          }
        case None =>
      }
    }
  }
}
