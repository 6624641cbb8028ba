/**
 * Retrieval and answer generation (`retrieve` and `generate_with_groq`,
 * run_app.py and backend/services/retriever.py), from the vector store's
 * query result on. The parallel, possibly short columns of the result are
 * zipped into hit records with defaults; each hit becomes an evidence line
 * "[<clause id>]: <snippet>", the snippet being the first characters of
 * the clause text with line feeds turned into spaces; the lines, joined by
 * blank lines, make either the stub answer given when no API key is set or
 * the user message of the chat-completion request.
 */
module Retrieval {
  import opened Optional
  import opened Text
  import opened Segmentation

  /** A clause's metadata as stored next to its embedding. */
  type Metadata = map<string, string>

  /**
   * The first (and only) row of each column of a Chroma query result;
   * `None` when the result has no such key.
   */
  datatype QueryResult = QueryResult(
    ids: Option<seq<string>>,
    documents: Option<seq<string>>,
    metadatas: Option<seq<Option<Metadata>>>,
    distances: Option<seq<real>>)

  /** A hit: `{"clause_id", "text", "metadata", "distance"}`. */
  datatype Hit = Hit(clauseId: string, text: string, metadata: Option<Metadata>, distance: Option<real>)

  /** `res.get("ids", [[]])[0]`. */
  function ResultIds(res: QueryResult): seq<string> {
    res.ids.GetOr([])
  }

  /**
   * The i-th hit: the i-th id, with the i-th entry of each other column
   * where there is one. A missing text is "", a missing metadata entry is
   * `{}` when the column exists and `None` when it does not, a missing
   * distance is `None`.
   */
  function HitAt(res: QueryResult, i: nat): Hit
    requires i < |ResultIds(res)|
  {
    var docs := res.documents.GetOr([]);
    Hit(ResultIds(res)[i],
        if i < |docs| then docs[i] else "",
        match res.metadatas
        case None => None
        case Some(metas) => if i < |metas| then metas[i] else Some(map[]),
        match res.distances
        case None => None
        case Some(dists) => if i < |dists| then Some(dists[i]) else None)
  }

  /**
   * `retrieve` after the store query: one hit per id, in id order, each
   * zipped from the columns with the defaults above.
   */
  method Retrieve(res: QueryResult) returns (hits: seq<Hit>)
    ensures |hits| == |ResultIds(res)|
    ensures forall i :: 0 <= i < |hits| ==> hits[i] == HitAt(res, i)
  {
    var ids := ResultIds(res);
    var docs := res.documents.GetOr([]);
    var metas: seq<Option<Metadata>> :=
      if res.metadatas.Some? then res.metadatas.value else seq(|ids|, _ => None);
    var dists: seq<Option<real>> :=
      if res.distances.Some? then seq(|res.distances.value|, k requires 0 <= k < |res.distances.value| => Some(res.distances.value[k]))
      else seq(|ids|, _ => None);
    hits := [];
    for i := 0 to |ids|
      invariant |hits| == i
      invariant forall j :: 0 <= j < i ==> hits[j] == HitAt(res, j)
    {
      var cid := ids[i];
      hits := hits + [Hit(cid,
                          if i < |docs| then docs[i] else "",
                          if i < |metas| then metas[i] else Some(map[]),
                          if i < |dists| then dists[i] else None)];
    }
  }

  /**
   * What each hit holds: the id at its position, the document there or "",
   * and the defaults for metadata and distance.
   */
  lemma HitAtFields(res: QueryResult, i: nat)
    requires i < |ResultIds(res)|
    ensures HitAt(res, i).clauseId == ResultIds(res)[i]
    ensures res.documents.Some? && i < |res.documents.value| ==> HitAt(res, i).text == res.documents.value[i]
    ensures (res.documents.None? || i >= |res.documents.value|) ==> HitAt(res, i).text == ""
    ensures res.metadatas.None? ==> HitAt(res, i).metadata.None?
    ensures res.metadatas.Some? && i < |res.metadatas.value| ==> HitAt(res, i).metadata == res.metadatas.value[i]
    ensures res.metadatas.Some? && i >= |res.metadatas.value| ==> HitAt(res, i).metadata == Some(map[])
    ensures HitAt(res, i).distance.Some? <==> res.distances.Some? && i < |res.distances.value|
    ensures res.distances.Some? && i < |res.distances.value| ==> HitAt(res, i).distance == Some(res.distances.value[i])
  {
  }

  /** The clause ids of a list of hits. */
  function HitIds(hits: seq<Hit>): (ids: seq<string>)
    ensures |ids| == |hits|
    ensures forall i :: 0 <= i < |hits| ==> ids[i] == hits[i].clauseId
  {
    seq(|hits|, i requires 0 <= i < |hits| => hits[i].clauseId)
  }

  /** The texts of a list of hits. */
  function HitTexts(hits: seq<Hit>): (texts: seq<string>)
    ensures |texts| == |hits|
    ensures forall i :: 0 <= i < |hits| ==> texts[i] == hits[i].text
  {
    seq(|hits|, i requires 0 <= i < |hits| => hits[i].text)
  }

  /**
   * Zipping loses nothing: the hits' ids are the result's ids, and when
   * the documents column is as long as the ids, the hits' texts are that
   * column.
   */
  lemma RetrieveUnzips(res: QueryResult, hits: seq<Hit>)
    requires |hits| == |ResultIds(res)|
    requires forall i :: 0 <= i < |hits| ==> hits[i] == HitAt(res, i)
    ensures HitIds(hits) == ResultIds(res)
    ensures res.documents.Some? && |res.documents.value| == |hits| ==> HitTexts(hits) == res.documents.value
  {
  }

  // ----- Evidence lines -----

  /** Characters of clause text the stub answer keeps per hit (run_app.py). */
  const StubSnippetChars: nat := 400
  /** Characters of clause text the prompt keeps per hit. */
  const PromptSnippetChars: nat := 1000

  /**
   * `text[:limit].replace("\n", " ")`: the first `limit` characters (or
   * all of a shorter text), each line feed replaced by a space and nothing
   * else changed.
   */
  function Snippet(text: string, limit: nat): (r: string)
    ensures |r| == if |text| < limit then |text| else limit
    ensures SingleLine(r)
    ensures forall k :: 0 <= k < |r| && text[k] != '\n' ==> r[k] == text[k]
    ensures forall k :: 0 <= k < |r| && text[k] == '\n' ==> r[k] == ' '
  {
    NewlinesToSpaces(Take(text, limit))
  }

  /** f"[{h['clause_id']}]: {snippet}". */
  function EvidenceLine(h: Hit, limit: nat): string {
    "[" + h.clauseId + "]: " + Snippet(h.text, limit)
  }

  /** The evidence lines of a list of hits: one line per hit, in hit order. */
  function EvidenceLinesOf(hits: seq<Hit>, limit: nat): (lines: seq<string>)
    ensures |lines| == |hits|
    ensures forall i :: 0 <= i < |hits| ==> lines[i] == EvidenceLine(hits[i], limit)
  {
    seq(|hits|, i requires 0 <= i < |hits| => EvidenceLine(hits[i], limit))
  }

  /** The evidence block `"\n\n".join(lines)`. */
  function Evidence(hits: seq<Hit>, limit: nat): string {
    Join(EvidenceLinesOf(hits, limit), "\n\n")
  }

  /**
   * The evidence loop of `generate_with_groq` (`ev_parts` in the stub,
   * `evidence_lines` before the request).
   */
  method EvidenceLines(hits: seq<Hit>, limit: nat) returns (lines: seq<string>)
    ensures lines == EvidenceLinesOf(hits, limit)
  {
    lines := [];
    for i := 0 to |hits|
      invariant |lines| == i
      invariant forall j :: 0 <= j < i ==> lines[j] == EvidenceLine(hits[j], limit)
    {
      var h := hits[i];
      var snippet := NewlinesToSpaces(Take(h.text, limit));
      lines := lines + ["[" + h.clauseId + "]: " + snippet];
    }
  }

  /** Index of the first `c` in `s`, or |s| when there is none. */
  function IndexOf(s: string, c: char): (k: nat)
    ensures k <= |s|
    ensures forall j :: 0 <= j < k ==> s[j] != c
    ensures k < |s| ==> s[k] == c
  {
    if s == [] then 0 else if s[0] == c then 0 else 1 + IndexOf(s[1..], c)
  }

  /**
   * Reads an evidence line back into its clause id and snippet: the id is
   * what lies between the leading '[' and the first ']', which must be
   * followed by ": ".
   */
  function ParseEvidenceLine(line: string): Option<(string, string)> {
    if line == [] || line[0] != '[' then None
    else
      var rest := line[1..];
      var k := IndexOf(rest, ']');
      if k + 2 < |rest| && rest[k..k + 3] == "]: " then Some((rest[..k], rest[k + 3..]))
      else None
  }

  /** An evidence line gives back its id and snippet, for an id without ']'. */
  lemma EvidenceLineRoundTrip(h: Hit, limit: nat)
    requires forall k :: 0 <= k < |h.clauseId| ==> h.clauseId[k] != ']'
    ensures ParseEvidenceLine(EvidenceLine(h, limit)) == Some((h.clauseId, Snippet(h.text, limit)))
  {
    var id := h.clauseId;
    var line := EvidenceLine(h, limit);
    var rest := line[1..];
    assert rest == id + "]: " + Snippet(h.text, limit);
    var k := IndexOf(rest, ']');
    assert rest[|id|] == ']';
    assert forall j :: 0 <= j < |id| ==> rest[j] == id[j];
    assert k == |id|;
    assert rest[k..k + 3] == "]: ";
    assert rest[..k] == id;
  }

  /** An evidence line has no line feed when its clause id has none. */
  lemma EvidenceLineSingle(h: Hit, limit: nat)
    requires SingleLine(h.clauseId)
    ensures SingleLine(EvidenceLine(h, limit))
  {
    var line := EvidenceLine(h, limit);
    var s := Snippet(h.text, limit);
    assert forall k :: 1 <= k < 1 + |h.clauseId| ==> line[k] == h.clauseId[k - 1];
    assert forall k :: 0 <= k < |s| ==> line[|h.clauseId| + 4 + k] == s[k];
  }

  /**
   * `"\n\n".join(lines)` of the evidence lines splits back into the same
   * lines on "\n\n", provided no clause id holds a line feed (true of the
   * ids the segmentation gives, ClauseIdFacts).
   */
  lemma EvidenceBlockRoundTrip(hits: seq<Hit>, limit: nat, lines: seq<string>)
    requires |hits| >= 1
    requires forall h :: h in hits ==> SingleLine(h.clauseId)
    requires |lines| == |hits|
    requires forall i :: 0 <= i < |hits| ==> lines[i] == EvidenceLine(hits[i], limit)
    ensures Split(DoubleNewline, Join(lines, "\n\n")) == lines
  {
    forall x | x in lines ensures SingleLine(x) {
      var i :| 0 <= i < |lines| && lines[i] == x;
      assert hits[i] in hits;
      EvidenceLineSingle(hits[i], limit);
    }
    SplitJoinRoundTrip(lines);
  }

  // ----- Generation -----

  /** The default of GROQ_MODEL. */
  const DefaultModel: string := "compound-beta"

  /** `os.environ.get("GROQ_MODEL", "compound-beta")`: the default only when the variable is unset. */
  function GroqModel(env: Option<string>): string {
    env.GetOr(DefaultModel)
  }

  /** System prompt of run_app.py's request. */
  const RunAppSystemPrompt: string :=
    "You are a strict legal assistant. Answer using ONLY the provided evidence. Cite clause ids in square brackets. If insufficient, reply 'INSUFFICIENT_CONTEXT'."

  /** System prompt of backend/services/retriever.py's request. */
  const BackendSystemPrompt: string :=
    "You are a legal assistant. Answer using ONLY the provided evidence. Cite clause ids in square brackets. If evidence is insufficient, reply clearly with 'No relevant clause found.' Do NOT include hidden reasoning, do NOT use <think> tags."

  /** Header of run_app.py's stub answer. */
  const StubHeader: string := "(GROQ_API_KEY not set) Evidence returned:\n\n"

  /** The backend's whole reply when no key is set. */
  const NoKeyReply: string := "GROQ_API_KEY not set in environment"

  datatype Message = Message(role: string, content: string)

  /** The JSON body of the chat-completion request. */
  datatype Payload = Payload(model: string, messages: seq<Message>, maxTokens: nat, temperature: real)

  /**
   * What `generate_with_groq` does before any network traffic: either it
   * answers at once, or it posts this request (the post itself is not
   * modelled).
   */
  datatype Generation = Immediate(answer: string) | Post(payload: Payload)

  /** f"QUESTION: {query}\n\nEVIDENCE:\n{evidence}". */
  function UserContent(query: string, evidence: string): string {
    "QUESTION: " + query + "\n\nEVIDENCE:\n" + evidence
  }

  /** The request for a question and its joined evidence block. */
  function RequestPayload(model: string, systemPrompt: string, query: string, evidence: string): Payload {
    Payload(model, [Message("system", systemPrompt), Message("user", UserContent(query, evidence))], 512, 0.0)
  }

  /** The question and the evidence block are read back from the user message. */
  lemma UserContentRoundTrip(query: string, evidence: string)
    ensures var c := UserContent(query, evidence);
            && c[..10] == "QUESTION: "
            && c[10..10 + |query|] == query
            && c[10 + |query|..10 + |query| + 12] == "\n\nEVIDENCE:\n"
            && c[10 + |query| + 12..] == evidence
  {
  }

  /**
   * run_app.py `generate_with_groq` up to the post: without a key, the stub
   * answer of 400-character evidence lines; with one, the request whose
   * user message carries 1000-character evidence lines.
   */
  method GenerateRunApp(apiKey: Option<string>, modelEnv: Option<string>, query: string, hits: seq<Hit>)
    returns (g: Generation)
    ensures !Given(apiKey) ==> g == Immediate(StubHeader + Evidence(hits, StubSnippetChars))
    ensures Given(apiKey) ==>
              g == Post(RequestPayload(GroqModel(modelEnv), RunAppSystemPrompt, query, Evidence(hits, PromptSnippetChars)))
  {
    if !Given(apiKey) {
      var evParts := EvidenceLines(hits, StubSnippetChars);
      var ev := Join(evParts, "\n\n");
      return Immediate(StubHeader + ev);
    }
    var evidenceLines := EvidenceLines(hits, PromptSnippetChars);
    var evidence := Join(evidenceLines, "\n\n");
    g := Post(RequestPayload(GroqModel(modelEnv), RunAppSystemPrompt, query, evidence));
  }

  /**
   * backend/services/retriever.py `generate_with_groq` up to the post:
   * without a key, the fixed message; with one, the request whose user
   * message carries 1000-character evidence lines.
   */
  method GenerateBackend(apiKey: Option<string>, modelEnv: Option<string>, query: string, hits: seq<Hit>)
    returns (g: Generation)
    ensures !Given(apiKey) ==> g == Immediate(NoKeyReply)
    ensures Given(apiKey) ==>
              g == Post(RequestPayload(GroqModel(modelEnv), BackendSystemPrompt, query, Evidence(hits, PromptSnippetChars)))
  {
    if !Given(apiKey) {
      return Immediate(NoKeyReply);
    }
    var evidenceLines := EvidenceLines(hits, PromptSnippetChars);
    var evidence := Join(evidenceLines, "\n\n");
    g := Post(RequestPayload(GroqModel(modelEnv), BackendSystemPrompt, query, evidence));
  }

  /**
   * The stub answer is its header followed by the evidence block, and the
   * block splits back into one line per hit, each giving back the hit's
   * clause id and a snippet of at most 400 characters without line feeds.
   */
  lemma StubAnswerReadable(hits: seq<Hit>)
    requires |hits| >= 1
    requires forall h :: h in hits ==>
               SingleLine(h.clauseId) && forall k :: 0 <= k < |h.clauseId| ==> h.clauseId[k] != ']'
    ensures var answer := StubHeader + Evidence(hits, StubSnippetChars);
            var lines := Split(DoubleNewline, answer[|StubHeader|..]);
            && answer[..|StubHeader|] == StubHeader
            && |lines| == |hits|
            && forall i :: 0 <= i < |lines| ==>
                 && ParseEvidenceLine(lines[i]) == Some((hits[i].clauseId, Snippet(hits[i].text, StubSnippetChars)))
                 && |Snippet(hits[i].text, StubSnippetChars)| <= StubSnippetChars
  {
    var lines := EvidenceLinesOf(hits, StubSnippetChars);
    var answer := StubHeader + Join(lines, "\n\n");
    assert answer[|StubHeader|..] == Join(lines, "\n\n");
    EvidenceBlockRoundTrip(hits, StubSnippetChars, lines);
    forall i | 0 <= i < |lines|
      ensures ParseEvidenceLine(lines[i]) == Some((hits[i].clauseId, Snippet(hits[i].text, StubSnippetChars)))
    {
      assert hits[i] in hits;
      EvidenceLineRoundTrip(hits[i], StubSnippetChars);
    }
  }
}
