/** The page's session state: the globals of the page script (`viewingHistory`,
    `latestScreenAnalysis`, `conversation`, `mediaStream`, `analysisInterval`) and the few
    pieces of the page it writes (the chat input, the chat log, the status box and the
    history panel), with its event handlers as methods. */
module Client {
  import opened Text
  import opened Responses
  import opened History
  import opened Conversation

  /** Opaque handles from `getDisplayMedia` and `setInterval`. */
  datatype StreamHandle = StreamHandle(id: nat)
  datatype TimerHandle = TimerHandle(id: nat)

  /** The two senders `appendMessage` is called with: `'user'` and `'assistant'`. */
  datatype Sender = FromUser | FromAssistant

  /** One message shown by `appendMessage(sender, text)`. */
  datatype ChatLine = ChatLine(sender: Sender, text: string)

  const AnalyzingText: string := "Analyzing..."
  const CaptureEndedText: string := "Screen capture ended."

  class Session {
    var viewingHistory: seq<HistoryEntry>
    var latestScreenAnalysis: string
    var conversation: seq<Message>
    var mediaStream: Option<StreamHandle>
    var analysisInterval: Option<TimerHandle>
    /** `chatInput.value`, written by the user. */
    var chatInput: string
    /** The messages appended to `#chat-history`, oldest first. */
    var chatLog: seq<ChatLine>
    /** `responseBox.textContent`. */
    var responseBox: string
    /** `#viewingHistory`'s `innerHTML`. */
    var historyPanel: string
    /** Whether the page has a `#viewingHistory` element. */
    const hasHistoryContainer: bool

    /** The session invariant: the conversation has its single leading system message, the
        latest analysis is the newest history entry's (empty before the first), and a screen
        stream is held exactly while the analysis timer runs. */
    ghost predicate Valid()
      reads this
    {
      SingleLeadingSystem(conversation) &&
      (if viewingHistory == [] then latestScreenAnalysis == ""
       else latestScreenAnalysis == viewingHistory[|viewingHistory| - 1].analysis) &&
      (mediaStream.Some? <==> analysisInterval.Some?)
    }

    /** The state when the page script has loaded. */
    constructor (hasHistoryContainer: bool)
      ensures Valid()
      ensures this.hasHistoryContainer == hasHistoryContainer
      ensures viewingHistory == [] && latestScreenAnalysis == "" && conversation == []
      ensures mediaStream.None? && analysisInterval.None?
      ensures chatInput == "" && chatLog == [] && responseBox == "" && historyPanel == ""
    {
      this.hasHistoryContainer := hasHistoryContainer;
      viewingHistory, latestScreenAnalysis, conversation := [], "", [];
      mediaStream, analysisInterval := None, None;
      chatInput, chatLog, responseBox, historyPanel := "", [], "", "";
    }

    /** `updateViewingHistoryUI`: redraw the panel newest first, or do nothing without one. */
    method UpdateViewingHistoryUI()
      modifies this`historyPanel
      ensures historyPanel == if hasHistoryContainer then DisplayHtml(viewingHistory)
                              else old(historyPanel)
    {
      if !hasHistoryContainer {
        return;
      }
      historyPanel := RenderViewingHistory(viewingHistory);
    }

    /** `updateScreenAnalysis` once the frame has been captured and the `/analyze` call has
        produced `response`; `videoWidth` and `videoHeight` are the video element's size and
        `timestamp` the local time string. Nothing happens without a stream or with a zero
        dimension; a thrown call shows its error and records nothing; any parsed body
        (including the relay's error body) records exactly one entry at the end. */
    method UpdateScreenAnalysis(videoWidth: nat, videoHeight: nat, timestamp: string,
                                response: Response)
      requires Valid()
      modifies this`viewingHistory, this`latestScreenAnalysis, this`responseBox,
               this`historyPanel
      ensures Valid()
      ensures !(mediaStream.Some? && videoWidth != 0 && videoHeight != 0) ==>
                unchanged(this)
      ensures mediaStream.Some? && videoWidth != 0 && videoHeight != 0 && response.Thrown? ==>
                viewingHistory == old(viewingHistory) &&
                latestScreenAnalysis == old(latestScreenAnalysis) &&
                historyPanel == old(historyPanel) &&
                responseBox == ErrorPrefix + response.message
      ensures mediaStream.Some? && videoWidth != 0 && videoHeight != 0 && response.Body? ==>
                var a := AnalysisText(response).value;
                viewingHistory == old(viewingHistory) + [HistoryEntry(timestamp, a)] &&
                latestScreenAnalysis == a && responseBox == a &&
                historyPanel == (if hasHistoryContainer then DisplayHtml(viewingHistory)
                                 else old(historyPanel))
    {
      if mediaStream.None? {
        return;
      }
      if videoWidth == 0 || videoHeight == 0 {
        return;
      }
      responseBox := AnalyzingText;
      match AnalysisText(response)
      case None =>
        responseBox := ErrorPrefix + response.message;
      case Some(analysis) =>
        latestScreenAnalysis := analysis;
        viewingHistory := viewingHistory + [HistoryEntry(timestamp, analysis)];
        UpdateViewingHistoryUI();
        responseBox := analysis;
    }

    /** `sendChatMessage` with `response` standing for the `/chat` call. An input that trims
        to nothing changes nothing. Otherwise the user's text is shown, the input cleared,
        the system message refreshed from the current analysis and history, the user turn
        appended, and then either the reply is shown and appended or the error is shown and
        the conversation keeps only the user turn. */
    method SendChatMessage(response: Response)
      requires Valid()
      modifies this`conversation, this`chatInput, this`chatLog
      ensures Valid()
      ensures Trim(old(chatInput)) == "" ==> unchanged(this)
      ensures var text := Trim(old(chatInput));
        text != "" ==>
          chatInput == "" &&
          conversation == AfterSend(old(conversation),
                                    SystemContext(latestScreenAnalysis, viewingHistory),
                                    text, ChatReply(response)) &&
          chatLog == old(chatLog) + [ChatLine(FromUser, text),
                                     ChatLine(FromAssistant, Rendered(ChatReply(response)))]
      ensures Trim(old(chatInput)) != "" ==>
                |conversation| > 0 && CountRole(conversation, System) == 1 &&
                conversation[0] == Message(System, SystemContext(latestScreenAnalysis,
                                                                 viewingHistory))
    {
      var text := Trim(chatInput);
      if text == "" {
        return;
      }
      ghost var before, logBefore := conversation, chatLog;
      chatLog := chatLog + [ChatLine(FromUser, text)];
      chatInput := "";

      var historyContext := BuildViewingHistoryContext(viewingHistory);
      var systemContext := ScreenPrefix + latestScreenAnalysis + "\n" + historyContext;
      assert systemContext == SystemContext(latestScreenAnalysis, viewingHistory);

      if |conversation| == 0 || conversation[0].role != System {
        conversation := [Message(System, systemContext)] + conversation;
      } else {
        conversation := conversation[0 := Message(System, systemContext)];
      }
      assert conversation == RefreshSystem(before, systemContext);
      conversation := conversation + [Message(User, text)];

      var outcome := ChatReply(response);
      match outcome {
        case Replied(reply) =>
          chatLog := chatLog + [ChatLine(FromAssistant, reply)];
          conversation := conversation + [Message(Assistant, reply)];
        case Failed(error) =>
          chatLog := chatLog + [ChatLine(FromAssistant, ErrorPrefix + error)];
      }
      assert chatLog == logBefore + [ChatLine(FromUser, text), ChatLine(FromAssistant, Rendered(outcome))];
      assert conversation == AfterSend(before, systemContext, text, outcome);

      ExactlyOneSystem(conversation);
    }

    /** The start button once `getDisplayMedia` has settled: `grant` is the stream, or None
        when it was refused (the page then only alerts). A timer is started only when none
        is running, so a second start keeps the first timer. */
    method StartCapture(grant: Option<StreamHandle>, timer: TimerHandle)
      requires Valid()
      modifies this`mediaStream, this`analysisInterval
      ensures Valid()
      ensures grant.None? ==> unchanged(this)
      ensures grant.Some? ==>
                mediaStream == grant &&
                analysisInterval == (if old(analysisInterval).None? then Some(timer)
                                     else old(analysisInterval))
    {
      if grant.None? {
        return;
      }
      mediaStream := grant;
      if analysisInterval.None? {
        analysisInterval := Some(timer);
      }
    }

    /** The end button: stop the timer and release the stream if there are any. */
    method EndCapture()
      requires Valid()
      modifies this`mediaStream, this`analysisInterval, this`responseBox
      ensures Valid()
      ensures mediaStream.None? && analysisInterval.None?
      ensures responseBox == CaptureEndedText
    {
      if analysisInterval.Some? {
        analysisInterval := None;
      }
      if mediaStream.Some? {
        mediaStream := None;
      }
      responseBox := CaptureEndedText;
    }
  }

  /** A session that captures, records one analysis and then asks about it: the history
      holds that one entry, the system message is built from it, and the reply follows. */
  method ScenarioAnalyseThenAsk()
  {
    var s := new Session(true);
    s.StartCapture(Some(StreamHandle(1)), TimerHandle(7));
    var frame := Body(Some([Choice(Some("A browser showing a code editor"))]));
    s.UpdateScreenAnalysis(1280, 720, "10:00:00 AM", frame);
    assert s.viewingHistory == [HistoryEntry("10:00:00 AM", "A browser showing a code editor")];
    assert s.latestScreenAnalysis == "A browser showing a code editor";

    s.chatInput := "what am I looking at?";
    assert Trim(s.chatInput) != "" by {
      assert !IsJsWhitespace(s.chatInput[0]);
    }
    s.SendChatMessage(Body(Some([Choice(Some("A code editor."))])));
    assert s.conversation[0].content == SystemContext(s.latestScreenAnalysis, s.viewingHistory);
    assert |s.conversation| == 3 && s.conversation[2] == Message(Assistant, "A code editor.");
  }

  /** A chat body without `choices` fails the turn: the user turn stays, no assistant message
      is added, and the log shows the TypeError. */
  method ScenarioChatWithoutChoices()
  {
    var s := new Session(false);
    s.chatInput := "hello";
    assert Trim(s.chatInput) != "" by {
      assert !IsJsWhitespace(s.chatInput[0]);
    }
    s.SendChatMessage(Body(None));
    assert |s.conversation| == 2 && s.conversation[1] == Message(User, Trim("hello"));
    assert s.chatLog[1] == ChatLine(FromAssistant, ErrorPrefix + MissingChoicesError);
  }
}
