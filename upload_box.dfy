/**
 * `UploadBox` (frontend/components/Demo/UploadBox.js): a file input and a
 * two-phase handler that uploads the file, analyses the returned file
 * name, and hands the analysis to the parent through `onAnalyzed`; any
 * failure on the way ends in one alert. The callback and the alert are
 * modelled as outputs of the handler. The parent's callback is not part of
 * this model: whether it throws is an input, and since it is called inside
 * the `try`, a throw from it is alerted as well.
 */
module UploadBoxes {
  import opened Optional
  import opened Replies

  /** The object passed to `onAnalyzed`: `{docId, results: {...analyzeData, report}}`. */
  datatype Analyzed = Analyzed(docId: string, results: Body, report: string)

  /** What one run of `handleUpload` does outside the component's own state. */
  datatype Outcome = Outcome(sent: seq<Request>, analyzed: Option<Analyzed>, alert: Option<string>)

  /** The error thrown when the upload reply names no file. */
  const NoFilename: Thrown := ThrownError("No filename returned")

  /**
   * `handleUpload` for the chosen file, given the two replies and what
   * `onAnalyzed` throws, if it throws.
   */
  function UploadOutcome(file: Option<string>, apiBase: string, uploadReply: Reply, analyzeReply: Reply,
                         callbackThrows: Option<Thrown>): Outcome {
    if file.None? then Outcome([], None, None)
    else
      var sent := [UploadFile(file.value)];
      match Failure(uploadReply)
      case Some(t) => Outcome(sent, None, Some("Error: " + Explain(t)))
      case None =>
        var filename := OrElse(uploadReply.body.filename, uploadReply.body.docId);
        if !Given(filename) then Outcome(sent, None, Some("Error: " + Explain(NoFilename)))
        else
          var name := filename.value;
          var sent' := sent + [AnalyzeFile(name)];
          match Failure(analyzeReply)
          case Some(t) => Outcome(sent', None, Some("Error: " + Explain(t)))
          case None =>
            var data := analyzeReply.body;
            var docId := if Given(data.docId) then data.docId.value else name;
            var called := Some(Analyzed(docId, data, ReportUrl(apiBase, name)));
            match callbackThrows
            case None => Outcome(sent', called, None)
            case Some(t) => Outcome(sent', called, Some("Error: " + Explain(t)))
  }

  class UploadBox {
    const apiBase: string
    var loading: bool
    var file: Option<string>

    constructor (apiBase: string)
      ensures this.apiBase == apiBase && !loading && file.None?
    {
      this.apiBase := apiBase;
      loading, file := false, None;
    }

    /** The file input's `onChange`. */
    method ChooseFile(chosen: Option<string>)
      modifies this
      ensures file == chosen && loading == old(loading)
    {
      file := chosen;
    }

    /**
     * `handleUpload`: with no file it returns at once; otherwise `loading`
     * is set, the two requests run with early throws, and `finally`
     * clears `loading`.
     */
    method HandleUpload(uploadReply: Reply, analyzeReply: Reply, callbackThrows: Option<Thrown>)
      returns (sent: seq<Request>, analyzed: Option<Analyzed>, alert: Option<string>)
      modifies this
      ensures Outcome(sent, analyzed, alert) == UploadOutcome(old(file), apiBase, uploadReply, analyzeReply, callbackThrows)
      ensures file == old(file)
      ensures loading == (if old(file).None? then old(loading) else false)
    {
      if file.None? {
        return [], None, None;
      }
      loading := true;
      sent, analyzed, alert := [UploadFile(file.value)], None, None;
      var thrown := Failure(uploadReply);
      if thrown.None? {
        var filename := OrElse(uploadReply.body.filename, uploadReply.body.docId);
        if !Given(filename) {
          thrown := Some(NoFilename);
        } else {
          sent := sent + [AnalyzeFile(filename.value)];
          thrown := Failure(analyzeReply);
          if thrown.None? {
            var data := analyzeReply.body;
            var docId := if Given(data.docId) then data.docId.value else filename.value;
            analyzed := Some(Analyzed(docId, data, apiBase + "/report/" + EncodeComponent(filename.value)));
            thrown := callbackThrows;
          }
        }
      }
      if thrown.Some? {
        alert := Some("Error: " + Explain(thrown.value));
      }
      loading := false;
    }
  }

  /** With no file, nothing is sent, called or shown. */
  lemma NoFileNoEffect(apiBase: string, uploadReply: Reply, analyzeReply: Reply, callbackThrows: Option<Thrown>)
    ensures UploadOutcome(None, apiBase, uploadReply, analyzeReply, callbackThrows) == Outcome([], None, None)
  {
  }

  /**
   * With a file, the run ends with `onAnalyzed` called or an alert shown,
   * or both: both exactly when the callback was called and threw, and then
   * the alert describes what it threw.
   */
  lemma CallbackOrAlert(file: string, apiBase: string, uploadReply: Reply, analyzeReply: Reply,
                        callbackThrows: Option<Thrown>)
    ensures var o := UploadOutcome(Some(file), apiBase, uploadReply, analyzeReply, callbackThrows);
            && (o.analyzed.Some? || o.alert.Some?)
            && (o.analyzed.Some? && o.alert.Some? <==> o.analyzed.Some? && callbackThrows.Some?)
            && (o.analyzed.Some? && callbackThrows.Some? ==>
                  o.alert == Some("Error: " + Explain(callbackThrows.value)))
  {
  }

  /**
   * Analysis is requested only after a successful upload that named a file
   * (`filename`, else `doc_id`); a nameless reply alerts "No filename
   * returned" and sends nothing more.
   */
  lemma AnalyzeOnlyNamedUpload(file: string, apiBase: string, uploadReply: Reply, analyzeReply: Reply,
                               callbackThrows: Option<Thrown>)
    ensures var o := UploadOutcome(Some(file), apiBase, uploadReply, analyzeReply, callbackThrows);
            && o.sent[0] == UploadFile(file)
            && (|o.sent| == 2 <==>
                  uploadReply.Response? && uploadReply.ok
                  && Given(OrElse(uploadReply.body.filename, uploadReply.body.docId)))
            && |o.sent| <= 2
            && (uploadReply.Response? && uploadReply.ok
                && !Given(OrElse(uploadReply.body.filename, uploadReply.body.docId)) ==>
                  o.alert == Some("Error: No filename returned"))
  {
    DescriptionsCompared(NoFilename);
    assert Explain(NoFilename) == "No filename returned";
    assert "Error: " + "No filename returned" == "Error: No filename returned";
  }

  /**
   * The callback fires exactly when both replies are ok and a file name
   * came back; it carries the analysis body, the analysis `doc_id` (else
   * the file name) and a report link built from the file name.
   */
  lemma CallbackPayload(file: string, apiBase: string, uploadReply: Reply, analyzeReply: Reply,
                        callbackThrows: Option<Thrown>)
    ensures var o := UploadOutcome(Some(file), apiBase, uploadReply, analyzeReply, callbackThrows);
            && (o.analyzed.Some? <==>
                  uploadReply.Response? && uploadReply.ok
                  && Given(OrElse(uploadReply.body.filename, uploadReply.body.docId))
                  && analyzeReply.Response? && analyzeReply.ok)
            && (o.analyzed.Some? ==>
                  var name := OrElse(uploadReply.body.filename, uploadReply.body.docId).value;
                  && o.sent == [UploadFile(file), AnalyzeFile(name)]
                  && o.analyzed.value.results == analyzeReply.body
                  && o.analyzed.value.report == ReportUrl(apiBase, name)
                  && o.analyzed.value.docId ==
                       (if Given(analyzeReply.body.docId) then analyzeReply.body.docId.value else name))
  {
  }
}
