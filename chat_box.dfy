/**
 * `ChatBox` (frontend/components/Demo/ChatBox.js): a question input and a
 * chat history. A question about the current document appends the
 * question and the server's answer to the history, whatever the reply's
 * status; a failed request propagates out of the handler (there is no
 * `catch`) after `finally` has cleared `loading`.
 */
module ChatBoxes {
  import opened Optional
  import opened Text
  import opened Replies

  /** `{role: "user", text}` and `{role: "ai", text, evidence}`. */
  datatype ChatEntry =
    | UserTurn(text: string)
    | AiTurn(answer: Option<string>, evidence: Option<seq<EvidenceItem>>)

  datatype ChatState = ChatState(query: string, history: seq<ChatEntry>, loading: bool)

  /**
   * One run of `handleQuery`: the new state, the requests sent, whether
   * the "Analyze a document first" alert was shown, and whether the
   * handler ended by throwing.
   */
  datatype ChatOutcome = ChatOutcome(state: ChatState, sent: seq<Request>, alerted: bool, raised: bool)

  /** `handleQuery` for the `docId` prop, given the reply. */
  function ChatStep(s: ChatState, docId: Option<string>, reply: Reply): ChatOutcome {
    if !Given(docId) then ChatOutcome(s, [], true, false)
    else if s.query == "" then ChatOutcome(s, [], false, false)
    else
      var sent := [AskQuestion(docId.value, s.query, QuestionTopK)];
      match reply
      case NoResponse(_) => ChatOutcome(s.(loading := false), sent, false, true)
      case Response(_, data) =>
        ChatOutcome(s.(history := s.history + [UserTurn(s.query), AiTurn(data.answer, data.evidence)],
                       query := "",
                       loading := false),
                    sent, false, false)
  }

  class ChatBox {
    const apiBase: string
    var query: string
    var chatHistory: seq<ChatEntry>
    var loading: bool

    function State(): ChatState
      reads this
    {
      ChatState(query, chatHistory, loading)
    }

    constructor (apiBase: string)
      ensures this.apiBase == apiBase && State() == ChatState("", [], false)
    {
      this.apiBase := apiBase;
      query, chatHistory, loading := "", [], false;
    }

    /** The question input's `onChange`. */
    method TypeQuery(text: string)
      modifies this
      ensures State() == old(State()).(query := text)
    {
      query := text;
    }

    method HandleQuery(docId: Option<string>, reply: Reply) returns (sent: seq<Request>, alerted: bool, raised: bool)
      modifies this
      ensures ChatOutcome(State(), sent, alerted, raised) == ChatStep(old(State()), docId, reply)
    {
      sent, alerted, raised := [], false, false;
      if !Given(docId) {
        alerted := true;
        return;
      }
      if query == "" {
        return;
      }
      loading := true;
      sent := [AskQuestion(docId.value, query, QuestionTopK)];
      if reply.NoResponse? {
        raised := true;
      } else {
        var data := reply.body;
        chatHistory := chatHistory + [UserTurn(query), AiTurn(data.answer, data.evidence)];
        query := "";
      }
      loading := false;
    }
  }

  /** Without a document or a question nothing changes and nothing is sent. */
  lemma GuardsChangeNothing(s: ChatState, docId: Option<string>, reply: Reply)
    requires !Given(docId) || s.query == ""
    ensures ChatStep(s, docId, reply).state == s && ChatStep(s, docId, reply).sent == []
    ensures ChatStep(s, docId, reply).alerted <==> !Given(docId)
  {
  }

  /**
   * Any reply that arrives, ok or not, adds exactly two entries, the
   * question then the answer, after the unchanged earlier history; the
   * question box is emptied and `loading` is false.
   */
  lemma ReplyAppendsTwo(s: ChatState, docId: Option<string>, reply: Reply)
    requires Given(docId) && s.query != "" && reply.Response?
    ensures var n := ChatStep(s, docId, reply).state;
            && |n.history| == |s.history| + 2
            && n.history[..|s.history|] == s.history
            && n.history[|s.history|] == UserTurn(s.query)
            && n.history[|s.history| + 1] == AiTurn(reply.body.answer, reply.body.evidence)
            && n.query == "" && !n.loading
  {
  }

  /** A request that fails leaves the history and the question as they were and ends by throwing. */
  lemma FailureKeepsHistory(s: ChatState, docId: Option<string>, message: string)
    requires Given(docId) && s.query != ""
    ensures var o := ChatStep(s, docId, NoResponse(message));
            && o.state == s.(loading := false)
            && o.raised
            && o.sent == [AskQuestion(docId.value, s.query, 4)]
  {
  }

  /** The history alternates user and ai entries, starting with a user entry. */
  predicate Alternating(h: seq<ChatEntry>) {
    && |h| % 2 == 0
    && forall k :: 0 <= k < |h| ==> (h[k].UserTurn? <==> k % 2 == 0)
  }

  /** Every run of the handler keeps the history alternating. */
  lemma ChatStepKeepsAlternating(s: ChatState, docId: Option<string>, reply: Reply)
    requires Alternating(s.history)
    ensures Alternating(ChatStep(s, docId, reply).state.history)
  {
    var h := ChatStep(s, docId, reply).state.history;
    if h != s.history {
      var n := |s.history|;
      assert h == s.history + [h[n], h[n + 1]];
      forall k | 0 <= k < |h| ensures h[k].UserTurn? <==> k % 2 == 0 {
        if k < n {
          assert h[k] == s.history[k];
        }
      }
    }
  }

  // ----- Rendering an answer's evidence -----

  /** `{h.text?.slice(0, 150)}...`: the dots follow every item, short or not. */
  function ChatEvidencePreview(text: Option<string>): string {
    match text
    case None => "..."
    case Some(t) => Take(t, 150) + "..."
  }

  /**
   * Every preview ends in "..." and shows at most 150 characters of the
   * text, all of them when the text is no longer.
   */
  lemma ChatEvidencePreviewShape(t: string)
    ensures var p := ChatEvidencePreview(Some(t));
            && p[|p| - 3..] == "..."
            && |p| == (if |t| < 150 then |t| else 150) + 3
            && (|t| <= 150 ==> p == t + "...")
  {
  }
}
