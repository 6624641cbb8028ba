/**
 * The demo page, `Home` in frontend/pages/index.js: ten state fields and
 * four asynchronous handlers. Each handler is modelled as a method that
 * runs to completion with the server's replies as inputs; it updates the
 * fields in the order the handler does, including the `finally` resets,
 * and returns the requests it sent and the alert it showed. The step
 * functions below say what one run does to the whole state; the lemmas
 * after them state the handlers' guarantees.
 */
module HomePage {
  import opened Optional
  import opened Text
  import opened Replies

  /** The page's state fields, as one value. */
  datatype HomeState = HomeState(
    file: Option<string>,
    status: string,
    docId: Option<string>,
    flags: seq<FlagItem>,
    numClauses: Option<int>,
    reportUrl: string,
    query: string,
    answer: Option<string>,
    evidence: seq<EvidenceItem>,
    loading: bool)

  /** The `useState` initial values. */
  const Initial: HomeState :=
    HomeState(None, "", Some(""), [], None, "", "", Some(""), [], false)

  /**
   * The state after a handler has run, the requests it sent, in order, and
   * the `alert` it showed, if any.
   */
  datatype Step = Step(state: HomeState, sent: seq<Request>, alert: Option<string>)

  /** The alerts of the handlers' guards. */
  const ChooseFileFirst: string := "Choose a file first"
  const AnalyzeFirst: string := "Analyze a document first (upload or init sample)."
  const TypeQuestion: string := "Type a question."

  /** `analyzeDocument(filename)`. */
  function AnalyzeStep(s: HomeState, apiBase: string, filename: string, reply: Reply): Step {
    var busy := s.(loading := true, status := "Analyzing...");
    var sent := [AnalyzeFile(filename)];
    match Failure(reply)
    case Some(t) =>
      Step(busy.(status := "Analyze failed: " + Brief(t), loading := false), sent, None)
    case None =>
      var data := reply.body;
      Step(busy.(docId := if Given(data.docId) then data.docId else Some(filename),
                 flags := data.flags.GetOr([]),
                 numClauses := Some(data.numClauses.GetOr(0)),
                 reportUrl := ReportUrl(apiBase, filename),
                 status := "Analysis complete",
                 loading := false),
           sent, None)
  }

  /**
   * `handleUpload`: upload the chosen file, then analyse the file name the
   * server returned (`filename`, else `doc_id`), if any.
   */
  function UploadStep(s: HomeState, apiBase: string, uploadReply: Reply, analyzeReply: Reply): Step {
    if s.file.None? then Step(s, [], Some(ChooseFileFirst))
    else
      var uploading := s.(status := "Uploading...");
      var sent := [UploadFile(s.file.value)];
      match Failure(uploadReply)
      case Some(t) => Step(uploading.(status := "Upload failed: " + Explain(t)), sent, None)
      case None =>
        var data := uploadReply.body;
        var filename := OrElse(data.filename, data.docId);
        var message := if Given(data.message) then data.message.value else "File uploaded successfully";
        var uploaded := uploading.(status := "Uploaded: " + message);
        if Given(filename) then
          var a := AnalyzeStep(uploaded, apiBase, filename.value, analyzeReply);
          Step(a.state, sent + a.sent, None)
        else Step(uploaded, sent, None)
  }

  /** `handleInitSample`: index the server's sample contract. */
  function InitSampleStep(s: HomeState, apiBase: string, reply: Reply): Step {
    var busy := s.(loading := true, status := "Initializing sample...");
    var sent := [InitSample];
    match Failure(reply)
    case Some(t) =>
      Step(busy.(status := "Init sample failed: " + Brief(t), loading := false), sent, None)
    case None =>
      var data := reply.body;
      Step(busy.(docId := data.docId,
                 flags := data.flags.GetOr([]),
                 numClauses := Some(data.numClauses.GetOr(0)),
                 reportUrl := ReportUrl(apiBase, JsText(data.docId)),
                 status := "Sample ready: " + JsText(data.docId),
                 loading := false),
           sent, None)
  }

  /** `handleQuery`: ask the typed question about the current document. */
  function QueryStep(s: HomeState, reply: Reply): Step {
    if !Given(s.docId) then Step(s, [], Some(AnalyzeFirst))
    else if s.query == "" then Step(s, [], Some(TypeQuestion))
    else
      var busy := s.(loading := true, status := "Querying...");
      var sent := [AskQuestion(s.docId.value, s.query, QuestionTopK)];
      match Failure(reply)
      case Some(t) =>
        Step(busy.(status := "Query failed: " + Brief(t), loading := false), sent, None)
      case None =>
        var data := reply.body;
        Step(busy.(answer := data.answer,
                   evidence := data.evidence.GetOr([]),
                   status := "Query complete",
                   loading := false),
             sent, None)
  }

  class Home {
    const apiBase: string
    var file: Option<string>
    var status: string
    var docId: Option<string>
    var flags: seq<FlagItem>
    var numClauses: Option<int>
    var reportUrl: string
    var query: string
    var answer: Option<string>
    var evidence: seq<EvidenceItem>
    var loading: bool

    function State(): HomeState
      reads this
    {
      HomeState(file, status, docId, flags, numClauses, reportUrl, query, answer, evidence, loading)
    }

    /** The page as first rendered, `API_BASE` taken from the environment variable `NEXT_PUBLIC_API_BASE`. */
    constructor (env: Option<string>)
      ensures apiBase == ApiBase(env) && State() == Initial
    {
      apiBase := ApiBase(env);
      file, status, docId, flags, numClauses := None, "", Some(""), [], None;
      reportUrl, query, answer, evidence, loading := "", "", Some(""), [], false;
    }

    /** The file input's `onChange`. */
    method ChooseFile(chosen: Option<string>)
      modifies this
      ensures State() == old(State()).(file := chosen)
    {
      file := chosen;
    }

    /** The question input's `onChange`. */
    method TypeQuery(text: string)
      modifies this
      ensures State() == old(State()).(query := text)
    {
      query := text;
    }

    method AnalyzeDocument(filename: string, reply: Reply) returns (sent: seq<Request>)
      modifies this
      ensures Step(State(), sent, None) == AnalyzeStep(old(State()), apiBase, filename, reply)
    {
      loading := true;
      status := "Analyzing...";
      sent := [AnalyzeFile(filename)];
      var thrown := Failure(reply);
      if thrown.Some? {
        status := "Analyze failed: " + Brief(thrown.value);
      } else {
        var data := reply.body;
        docId := if Given(data.docId) then data.docId else Some(filename);
        flags := data.flags.GetOr([]);
        numClauses := Some(data.numClauses.GetOr(0));
        reportUrl := apiBase + "/report/" + EncodeComponent(filename);
        status := "Analysis complete";
      }
      loading := false;
    }

    method HandleUpload(uploadReply: Reply, analyzeReply: Reply) returns (sent: seq<Request>, alert: Option<string>)
      modifies this
      ensures Step(State(), sent, alert) == UploadStep(old(State()), apiBase, uploadReply, analyzeReply)
    {
      alert := None;
      if file.None? {
        return [], Some(ChooseFileFirst);
      }
      status := "Uploading...";
      sent := [UploadFile(file.value)];
      var thrown := Failure(uploadReply);
      if thrown.Some? {
        status := "Upload failed: " + Explain(thrown.value);
        return;
      }
      var data := uploadReply.body;
      var filename := OrElse(data.filename, data.docId);
      var message := if Given(data.message) then data.message.value else "File uploaded successfully";
      status := "Uploaded: " + message;
      if Given(filename) {
        var more := AnalyzeDocument(filename.value, analyzeReply);
        sent := sent + more;
      }
    }

    method HandleInitSample(reply: Reply) returns (sent: seq<Request>)
      modifies this
      ensures Step(State(), sent, None) == InitSampleStep(old(State()), apiBase, reply)
    {
      loading := true;
      status := "Initializing sample...";
      sent := [InitSample];
      var thrown := Failure(reply);
      if thrown.Some? {
        status := "Init sample failed: " + Brief(thrown.value);
      } else {
        var data := reply.body;
        docId := data.docId;
        flags := data.flags.GetOr([]);
        numClauses := Some(data.numClauses.GetOr(0));
        reportUrl := apiBase + "/report/" + EncodeComponent(JsText(data.docId));
        status := "Sample ready: " + JsText(data.docId);
      }
      loading := false;
    }

    method HandleQuery(reply: Reply) returns (sent: seq<Request>, alert: Option<string>)
      modifies this
      ensures Step(State(), sent, alert) == QueryStep(old(State()), reply)
    {
      alert := None;
      if !Given(docId) {
        return [], Some(AnalyzeFirst);
      }
      if query == "" {
        return [], Some(TypeQuestion);
      }
      loading := true;
      status := "Querying...";
      sent := [AskQuestion(docId.value, query, QuestionTopK)];
      var thrown := Failure(reply);
      if thrown.Some? {
        status := "Query failed: " + Brief(thrown.value);
      } else {
        var data := reply.body;
        answer := data.answer;
        evidence := data.evidence.GetOr([]);
        status := "Query complete";
      }
      loading := false;
    }
  }

  // ----- What the handlers guarantee -----

  /**
   * Without a chosen file, `handleUpload` only alerts "Choose a file first":
   * it changes nothing and sends nothing. With one, it never alerts.
   */
  lemma UploadNeedsFile(s: HomeState, apiBase: string, uploadReply: Reply, analyzeReply: Reply)
    ensures s.file.None? ==> UploadStep(s, apiBase, uploadReply, analyzeReply) == Step(s, [], Some(ChooseFileFirst))
    ensures s.file.Some? ==> UploadStep(s, apiBase, uploadReply, analyzeReply).alert.None?
  {
  }

  /**
   * With a file, the upload is sent first; analysis is requested exactly
   * when the upload succeeded and returned a truthy `filename` or
   * `doc_id`, and it is requested for that name.
   */
  lemma UploadThenAnalyze(s: HomeState, apiBase: string, uploadReply: Reply, analyzeReply: Reply)
    requires s.file.Some?
    ensures var st := UploadStep(s, apiBase, uploadReply, analyzeReply);
            && 1 <= |st.sent| <= 2 && st.sent[0] == UploadFile(s.file.value)
            && (|st.sent| == 2 <==>
                  uploadReply.Response? && uploadReply.ok
                  && Given(OrElse(uploadReply.body.filename, uploadReply.body.docId)))
            && (|st.sent| == 2 ==>
                  st.sent[1] == AnalyzeFile(OrElse(uploadReply.body.filename, uploadReply.body.docId).value))
  {
  }

  /**
   * A successful analysis records the server's `doc_id` (else the file
   * name), its flags (else none) and clause count (else 0), and links the
   * report by the file name, not by `doc_id`; the file, question, answer
   * and evidence are untouched, and `loading` ends false.
   */
  lemma AnalyzeSuccess(s: HomeState, apiBase: string, filename: string, reply: Reply)
    requires Failure(reply).None?
    ensures var n := AnalyzeStep(s, apiBase, filename, reply).state;
            var data := reply.body;
            && n.docId == (if Given(data.docId) then data.docId else Some(filename))
            && n.flags == data.flags.GetOr([])
            && n.numClauses == Some(data.numClauses.GetOr(0))
            && n.reportUrl == ReportUrl(apiBase, filename)
            && n.status == "Analysis complete"
            && !n.loading
            && n.file == s.file && n.query == s.query && n.answer == s.answer && n.evidence == s.evidence
  {
  }

  /**
   * A failed analysis, sample initialisation or question changes only the
   * status line (and leaves `loading` false): the document, flags, answer
   * and evidence keep their values.
   */
  lemma FailureChangesOnlyStatus(s: HomeState, apiBase: string, filename: string, reply: Reply)
    requires Failure(reply).Some?
    ensures var t := Failure(reply).value;
            && AnalyzeStep(s, apiBase, filename, reply).state
                 == s.(status := "Analyze failed: " + Brief(t), loading := false)
            && InitSampleStep(s, apiBase, reply).state
                 == s.(status := "Init sample failed: " + Brief(t), loading := false)
            && (Given(s.docId) && s.query != "" ==>
                  QueryStep(s, reply).state == s.(status := "Query failed: " + Brief(t), loading := false))
  {
  }

  /**
   * A `handleUpload` that does not end in a successful analysis (no file,
   * an upload that failed or named no file, or a failed analysis) keeps the
   * document, its flags, clause count and report link, the file, the
   * question, the answer and the evidence; a failed upload shows
   * `err.error || err.message || JSON.stringify(err)` in the status.
   */
  lemma UploadFailureKeepsDocument(s: HomeState, apiBase: string, uploadReply: Reply, analyzeReply: Reply)
    requires !(s.file.Some? && Failure(uploadReply).None?
               && Given(OrElse(uploadReply.body.filename, uploadReply.body.docId))
               && Failure(analyzeReply).None?)
    ensures var n := UploadStep(s, apiBase, uploadReply, analyzeReply).state;
            && n.docId == s.docId && n.flags == s.flags && n.numClauses == s.numClauses
            && n.reportUrl == s.reportUrl && n.file == s.file && n.query == s.query
            && n.answer == s.answer && n.evidence == s.evidence
    ensures s.file.Some? && Failure(uploadReply).Some? ==>
              UploadStep(s, apiBase, uploadReply, analyzeReply).state
                == s.(status := "Upload failed: " + Explain(Failure(uploadReply).value))
  {
  }

  /**
   * `loading` is false once a handler has finished: always after analysis,
   * sample initialisation and a sent question; a question not sent changes
   * nothing.
   */
  lemma LoadingReset(s: HomeState, apiBase: string, filename: string, reply: Reply)
    ensures !AnalyzeStep(s, apiBase, filename, reply).state.loading
    ensures !InitSampleStep(s, apiBase, reply).state.loading
    ensures QueryStep(s, reply).sent != [] ==> !QueryStep(s, reply).state.loading
    ensures QueryStep(s, reply).sent == [] ==> QueryStep(s, reply).state == s
  {
  }

  /**
   * `handleUpload` never sets `loading` itself: it ends false when the
   * upload led to an analysis and keeps the value it had otherwise.
   */
  lemma UploadLoading(s: HomeState, apiBase: string, uploadReply: Reply, analyzeReply: Reply)
    ensures var u := UploadStep(s, apiBase, uploadReply, analyzeReply);
            u.state.loading == (if |u.sent| == 2 then false else s.loading)
  {
    if s.file.Some? && Failure(uploadReply).None? {
      var data := uploadReply.body;
      var filename := OrElse(data.filename, data.docId);
      if Given(filename) {
        var uploaded := s.(status := "Uploaded: " + (if Given(data.message) then data.message.value else "File uploaded successfully"));
        assert !AnalyzeStep(uploaded, apiBase, filename.value, analyzeReply).state.loading;
      }
    }
  }

  /**
   * A question is sent only with a truthy document id and a non-empty
   * question, as the pair (doc id, question) with `top_k` 4; otherwise the
   * handler alerts, first about the document, then about the question. A
   * successful reply replaces the answer and the evidence list and nothing
   * else but the status.
   */
  lemma QueryGuarded(s: HomeState, reply: Reply)
    ensures var q := QueryStep(s, reply);
            && (q.sent != [] <==> Given(s.docId) && s.query != "")
            && (q.alert.None? <==> q.sent != [])
            && (!Given(s.docId) ==> q.alert == Some(AnalyzeFirst))
            && (Given(s.docId) && s.query == "" ==> q.alert == Some(TypeQuestion))
            && (q.sent != [] ==> q.sent == [AskQuestion(s.docId.value, s.query, 4)])
            && (q.sent != [] && Failure(reply).None? ==>
                  q.state == s.(answer := reply.body.answer, evidence := reply.body.evidence.GetOr([]),
                                status := "Query complete", loading := false))
  {
  }

  /**
   * The sample flow takes the document id from the reply as it is (a
   * missing id reads "undefined" in the status and the report link).
   */
  lemma InitSampleSuccess(s: HomeState, apiBase: string, reply: Reply)
    requires Failure(reply).None?
    ensures var n := InitSampleStep(s, apiBase, reply).state;
            && n.docId == reply.body.docId
            && n.reportUrl == ReportUrl(apiBase, JsText(reply.body.docId))
            && n.status == "Sample ready: " + JsText(reply.body.docId)
  {
  }

  // ----- Rendering the evidence list -----

  /** Characters of a clause's text the evidence list shows. */
  const EvidencePreviewChars: nat := 200

  /** `{h.text?.slice(0, 200)}{h.text?.length > 200 ? "..." : ""}`; a missing text renders nothing. */
  function EvidencePreview(text: Option<string>): string {
    match text
    case None => ""
    case Some(t) => Take(t, EvidencePreviewChars) + (if |t| > EvidencePreviewChars then "..." else "")
  }

  /**
   * The preview is the text itself when it has at most 200 characters;
   * otherwise its first 200 followed by "...", 203 characters in all.
   */
  lemma EvidencePreviewShape(t: string)
    ensures |t| <= 200 ==> EvidencePreview(Some(t)) == t
    ensures |t| > 200 ==> |EvidencePreview(Some(t))| == 203
    ensures |t| > 200 ==> EvidencePreview(Some(t)) == t[..200] + "..."
    ensures EvidencePreview(Some(t))[..if |t| < 200 then |t| else 200] == t[..if |t| < 200 then |t| else 200]
  {
  }

  // ----- A session -----

  /**
   * Upload "nda.pdf", the server names it "nda.pdf" and analyses it as
   * document "d1" with two clauses and no flags; then ask a question.
   */
  method UploadAndAsk(env: Option<string>) returns (page: Home)
    ensures page.docId == Some("d1") && page.numClauses == Some(2)
    ensures page.reportUrl == ApiBase(env) + "/report/nda.pdf"
    ensures page.answer == Some("none") && !page.loading
  {
    page := new Home(env);
    var apiBase := page.apiBase;
    page.ChooseFile(Some("nda.pdf"));
    var body := Body(None, None, None, None, None, None, None, None, "{}");
    var uploaded := Response(true, body.(filename := Some("nda.pdf")));
    var analyzed := Response(true, body.(docId := Some("d1"), numClauses := Some(2), flags := Some([])));
    UploadNda(page.State(), apiBase, uploaded, analyzed);
    var sent, alert := page.HandleUpload(uploaded, analyzed);
    page.TypeQuery("Who indemnifies?");
    var answered := Response(true, body.(answer := Some("none")));
    sent, alert := page.HandleQuery(answered);
  }

  /** The upload half of `UploadAndAsk`, on values. */
  lemma UploadNda(s: HomeState, apiBase: string, uploaded: Reply, analyzed: Reply)
    requires s.file == Some("nda.pdf")
    requires uploaded.Response? && uploaded.ok && uploaded.body.filename == Some("nda.pdf")
    requires analyzed.Response? && analyzed.ok
    requires analyzed.body.docId == Some("d1") && analyzed.body.numClauses == Some(2)
    ensures var u := UploadStep(s, apiBase, uploaded, analyzed);
            && u.sent == [UploadFile("nda.pdf"), AnalyzeFile("nda.pdf")]
            && u.state.docId == Some("d1") && u.state.numClauses == Some(2)
            && u.state.reportUrl == apiBase + "/report/nda.pdf"
  {
    NdaReportUrl(apiBase);
  }

  /** "nda.pdf" needs no escaping in a report link. */
  lemma NdaReportUrl(apiBase: string)
    ensures ReportUrl(apiBase, "nda.pdf") == apiBase + "/report/nda.pdf"
  {
    var name := "nda.pdf";
    assert 'a' <= name[0] <= 'z' && 'a' <= name[1] <= 'z' && 'a' <= name[2] <= 'z' && name[3] == '.';
    assert 'a' <= name[4] <= 'z' && 'a' <= name[5] <= 'z' && 'a' <= name[6] <= 'z';
    EncodeUnreserved(name);
  }
}
