/**
 * Clause segmentation, the text-splitting half of `parse_document_simple`
 * (run_app.py and backend/services/parser.py). The extracted text is cut
 * into raw parts, every part is stripped and blank parts are dropped; a part
 * no longer than `max_clause_chars` becomes one clause, a longer one is cut
 * into consecutive chunks of `max_clause_chars` characters; clauses are
 * numbered c1, c2, ... in output order.
 */
module Segmentation {
  import opened Text

  /** The default `max_clause_chars` of both parse functions. */
  const DefaultMaxClauseChars: nat := 2000

  datatype Clause = Clause(clauseId: string, text: string)

  /** The id f"c{idx}" given to the idx-th clause. */
  function ClauseId(idx: nat): string {
    "c" + Decimal(idx)
  }

  /** Clause ids name their number: different numbers, different ids; and an id holds no line break. */
  lemma ClauseIdFacts(a: nat, b: nat)
    ensures ClauseId(a) == ClauseId(b) <==> a == b
    ensures forall k :: 0 <= k < |ClauseId(a)| ==> ClauseId(a)[k] != '\n' && ClauseId(a)[k] != '\r'
  {
    if ClauseId(a) == ClauseId(b) {
      assert Decimal(a) == ClauseId(a)[1..];
      DecimalInjective(a, b);
    }
    var d := Decimal(a);
    assert forall k :: 1 <= k < |ClauseId(a)| ==> ClauseId(a)[k] == d[k - 1];
  }

  // ----- Splitting the text into raw parts -----

  /** How the text is cut into raw parts: the two copies of the parser differ here. */
  datatype Splitter =
    | DoubleNewline  // backend/services/parser.py: text.split("\n\n")
    | NewlineRuns    // run_app.py: re.split(r"\n{2,}|\r\n{2,}", text)

  /** Number of '\n' characters at the front of `s`. */
  function NewlineRun(s: string): (n: nat)
    ensures n <= |s|
  {
    if s == [] || s[0] != '\n' then 0 else 1 + NewlineRun(s[1..])
  }

  /** The run is all line feeds and ends before a character that is not one. */
  lemma {:induction false} NewlineRunFacts(s: string)
    ensures AllNewlines(s[..NewlineRun(s)])
    ensures NewlineRun(s) < |s| ==> s[NewlineRun(s)] != '\n'
  {
    if s != [] && s[0] == '\n' {
      NewlineRunFacts(s[1..]);
      assert s[..NewlineRun(s)] == [s[0]] + s[1..][..NewlineRun(s[1..])];
    }
  }

  predicate AllNewlines(g: string) {
    forall k :: 0 <= k < |g| ==> g[k] == '\n'
  }

  /** The strings a splitter removes between two parts. */
  predicate IsSeparator(sp: Splitter, g: string) {
    match sp
    case DoubleNewline => g == "\n\n"
    case NewlineRuns =>
      || (|g| >= 2 && AllNewlines(g))
      || (|g| >= 3 && g[0] == '\r' && AllNewlines(g[1..]))
  }

  /**
   * Length of the separator the splitter matches at the very start of `s`,
   * 0 if none. The regular expression tries `\n{2,}` before `\r\n{2,}` and
   * both are greedy, so a run of newlines is taken whole.
   */
  function MatchLen(sp: Splitter, s: string): (n: nat)
    ensures n <= |s|
  {
    match sp
    case DoubleNewline =>
      if |s| >= 2 && s[0] == '\n' && s[1] == '\n' then 2 else 0
    case NewlineRuns =>
      var run := NewlineRun(s);
      if run >= 2 then run
      else if |s| >= 3 && s[0] == '\r' && NewlineRun(s[1..]) >= 2 then 1 + NewlineRun(s[1..])
      else 0
  }

  /**
   * A match is a separator of the splitter; no match means no blank line
   * (nor, for the regular expression, "\r\n\n") starts here; and a run of
   * line feeds is matched to its end.
   */
  lemma MatchLenFacts(sp: Splitter, s: string)
    ensures var n := MatchLen(sp, s);
            && (n > 0 ==> IsSeparator(sp, s[..n]))
            && (n == 0 ==> !(|s| >= 2 && s[0] == '\n' && s[1] == '\n'))
            && (sp.NewlineRuns? && n == 0 ==> !(|s| >= 3 && s[0] == '\r' && s[1] == '\n' && s[2] == '\n'))
            && (sp.NewlineRuns? && 0 < n < |s| ==> s[n] != '\n')
  {
    var n := MatchLen(sp, s);
    if sp.NewlineRuns? {
      NewlineRunFacts(s);
      if |s| >= 1 {
        NewlineRunFacts(s[1..]);
      }
      if n > 0 && NewlineRun(s) < 2 {
        assert s[..n][1..] == s[1..][..n - 1];
      }
    }
  }

  /**
   * The pieces of `s` when scanning for separators resumes at index `i`
   * (everything before `i` belongs to the current piece).
   */
  function SplitFrom(sp: Splitter, s: string, i: nat): (pieces: seq<string>)
    requires i <= |s|
    ensures |pieces| >= 1
    decreases |s| - i
  {
    if i == |s| then [s]
    else
      var n := MatchLen(sp, s[i..]);
      if n > 0 then [s[..i]] + SplitFrom(sp, s[i + n..], 0)
      else SplitFrom(sp, s, i + 1)
  }

  /** Python's `text.split("\n\n")` or `re.split(r"\n{2,}|\r\n{2,}", text)`. */
  function Split(sp: Splitter, text: string): seq<string> {
    SplitFrom(sp, text, 0)
  }

  /** The separators `SplitFrom` cuts out, in order. */
  ghost function GapsFrom(sp: Splitter, s: string, i: nat): seq<string>
    requires i <= |s|
    decreases |s| - i
  {
    if i == |s| then []
    else
      var n := MatchLen(sp, s[i..]);
      if n > 0 then [s[i..i + n]] + GapsFrom(sp, s[i + n..], 0)
      else GapsFrom(sp, s, i + 1)
  }

  /** pieces[0] + gaps[0] + pieces[1] + ... + pieces[last]. */
  function Weave(pieces: seq<string>, gaps: seq<string>): string
    requires |pieces| == |gaps| + 1
  {
    if gaps == [] then pieces[0]
    else pieces[0] + gaps[0] + Weave(pieces[1..], gaps[1..])
  }

  /** A string has no two consecutive line feeds. */
  predicate NoBlankLine(p: string) {
    forall j :: 0 <= j < |p| - 1 ==> !(p[j] == '\n' && p[j + 1] == '\n')
  }

  /**
   * Splitting loses nothing: putting the separators back between the pieces
   * gives the text again.
   */
  lemma {:induction false} SplitFromWeave(sp: Splitter, s: string, i: nat)
    requires i <= |s|
    ensures |SplitFrom(sp, s, i)| == |GapsFrom(sp, s, i)| + 1
    ensures Weave(SplitFrom(sp, s, i), GapsFrom(sp, s, i)) == s
    decreases |s| - i
  {
    if i < |s| {
      var n := MatchLen(sp, s[i..]);
      if n > 0 {
        var rest := s[i + n..];
        SplitFromWeave(sp, rest, 0);
        CutAt(sp, s, i);
        WeaveCons(s[..i], s[i..i + n], SplitFrom(sp, rest, 0), GapsFrom(sp, rest, 0));
        SliceThree(s, i, i + n);
      } else {
        SplitFromWeave(sp, s, i + 1);
      }
    }
  }

  /** Where a separator starts, the current piece ends and scanning restarts after it. */
  lemma CutAt(sp: Splitter, s: string, i: nat)
    requires i < |s| && MatchLen(sp, s[i..]) > 0
    ensures var n := MatchLen(sp, s[i..]);
            && SplitFrom(sp, s, i) == [s[..i]] + SplitFrom(sp, s[i + n..], 0)
            && GapsFrom(sp, s, i) == [s[i..i + n]] + GapsFrom(sp, s[i + n..], 0)
  {
  }

  lemma WeaveCons(piece: string, gap: string, pieces: seq<string>, gaps: seq<string>)
    requires |pieces| == |gaps| + 1
    ensures Weave([piece] + pieces, [gap] + gaps) == piece + gap + Weave(pieces, gaps)
  {
    assert ([piece] + pieces)[1..] == pieces && ([gap] + gaps)[1..] == gaps;
  }

  /** Every gap cut out is a separator of the splitter. */
  lemma {:induction false} GapsAreSeparators(sp: Splitter, s: string, i: nat)
    requires i <= |s|
    ensures forall k :: 0 <= k < |GapsFrom(sp, s, i)| ==> IsSeparator(sp, GapsFrom(sp, s, i)[k])
    decreases |s| - i
  {
    if i < |s| {
      var n := MatchLen(sp, s[i..]);
      if n > 0 {
        GapIsSeparator(sp, s, i);
        GapsAreSeparators(sp, s[i + n..], 0);
        CutAt(sp, s, i);
      } else {
        GapsAreSeparators(sp, s, i + 1);
      }
    }
  }

  /** The separator found at `i` is one the splitter cuts on. */
  lemma GapIsSeparator(sp: Splitter, s: string, i: nat)
    requires i < |s| && MatchLen(sp, s[i..]) > 0
    ensures IsSeparator(sp, s[i..i + MatchLen(sp, s[i..])])
  {
    MatchLenFacts(sp, s[i..]);
    assert s[i..i + MatchLen(sp, s[i..])] == s[i..][..MatchLen(sp, s[i..])];
  }

  /** A prefix in front of which no separator starts has no blank line. */
  lemma PrefixNoBlankLine(sp: Splitter, s: string, i: nat)
    requires i <= |s|
    requires forall k :: 0 <= k < i ==> MatchLen(sp, s[k..]) == 0
    ensures NoBlankLine(s[..i])
  {
    forall j | 0 <= j < i - 1 ensures !(s[j] == '\n' && s[j + 1] == '\n') {
      assert MatchLen(sp, s[j..]) == 0;
      MatchLenFacts(sp, s[j..]);
    }
  }

  /**
   * No piece holds a blank line (two consecutive line feeds): the leftmost
   * match would have cut there.
   */
  lemma {:induction false} PiecesNoBlankLine(sp: Splitter, s: string, i: nat)
    requires i <= |s|
    requires forall k :: 0 <= k < i ==> MatchLen(sp, s[k..]) == 0
    ensures forall p :: p in SplitFrom(sp, s, i) ==> NoBlankLine(p)
    decreases |s| - i
  {
    if i == |s| {
      PrefixNoBlankLine(sp, s, i);
      assert s[..i] == s;
    } else {
      var n := MatchLen(sp, s[i..]);
      if n > 0 {
        PiecesNoBlankLine(sp, s[i + n..], 0);
        PrefixNoBlankLine(sp, s, i);
      } else {
        PiecesNoBlankLine(sp, s, i + 1);
      }
    }
  }

  /**
   * The pieces and separators of a whole text: weaving them gives the text,
   * every gap is a separator, no piece holds a blank line.
   */
  lemma SplitWeave(sp: Splitter, text: string)
    ensures |Split(sp, text)| == |GapsFrom(sp, text, 0)| + 1
    ensures Weave(Split(sp, text), GapsFrom(sp, text, 0)) == text
    ensures forall k :: 0 <= k < |GapsFrom(sp, text, 0)| ==> IsSeparator(sp, GapsFrom(sp, text, 0)[k])
    ensures forall p :: p in Split(sp, text) ==> NoBlankLine(p)
  {
    SplitFromWeave(sp, text, 0);
    GapsAreSeparators(sp, text, 0);
    PiecesNoBlankLine(sp, text, 0);
  }

  /** Weaving with "\n\n" everywhere is `"\n\n".join`. */
  lemma {:induction false} WeaveDoubleNewline(pieces: seq<string>, gaps: seq<string>)
    requires |pieces| == |gaps| + 1
    requires forall g :: g in gaps ==> g == "\n\n"
    ensures Weave(pieces, gaps) == Join(pieces, "\n\n")
  {
    if gaps != [] {
      assert gaps[0] in gaps;
      assert forall g :: g in gaps[1..] ==> g in gaps;
      WeaveDoubleNewline(pieces[1..], gaps[1..]);
    }
  }

  /** `"\n\n".join(text.split("\n\n")) == text`. */
  lemma JoinSplitRoundTrip(text: string)
    ensures Join(Split(DoubleNewline, text), "\n\n") == text
  {
    SplitWeave(DoubleNewline, text);
    WeaveDoubleNewline(Split(DoubleNewline, text), GapsFrom(DoubleNewline, text, 0));
  }

  /** Scanning over positions where no separator starts does not cut. */
  lemma {:induction false} SkipPlain(sp: Splitter, s: string, i: nat, j: nat)
    requires i <= j <= |s|
    requires forall k :: i <= k < j ==> MatchLen(sp, s[k..]) == 0
    ensures SplitFrom(sp, s, i) == SplitFrom(sp, s, j)
    decreases j - i
  {
    if i < j {
      SkipPlain(sp, s, i + 1, j);
    }
  }

  /** A text in which no separator starts is a single part. */
  lemma NoSeparatorNoSplit(sp: Splitter, s: string)
    requires forall k :: 0 <= k < |s| ==> MatchLen(sp, s[k..]) == 0
    ensures Split(sp, s) == [s]
  {
    SkipPlain(sp, s, 0, |s|);
  }

  /**
   * The run_app.py pattern `\r\n{2,}` wants one carriage return followed by
   * two line feeds, so a Windows blank line "\r\n\r\n" is not a separator:
   * such a text stays one part.
   */
  lemma WindowsBlankLineNotSplit()
    ensures Split(NewlineRuns, "a\r\n\r\nb") == ["a\r\n\r\nb"]
  {
    var s := "a\r\n\r\nb";
    assert s[0] == 'a' && s[1] == '\r' && s[2] == '\n' && s[3] == '\r' && s[4] == '\n' && s[5] == 'b';
    forall k | 0 <= k < |s| ensures MatchLen(NewlineRuns, s[k..]) == 0 {
      RunOfTwo(s[k..]);
      RunOfTwo(s[k..][1..]);
    }
    NoSeparatorNoSplit(NewlineRuns, s);
  }

  /** A run of two or more line feeds starts with two line feeds. */
  lemma RunOfTwo(t: string)
    ensures NewlineRun(t) >= 2 ==> |t| >= 2 && t[0] == '\n' && t[1] == '\n'
  {
    if t != [] && t[0] == '\n' {
      assert NewlineRun(t) == 1 + NewlineRun(t[1..]);
    }
  }

  /** A string without line feeds. */
  predicate SingleLine(x: string) {
    forall k :: 0 <= k < |x| ==> x[k] != '\n'
  }

  /** Splitting on "\n\n" recovers lines joined with "\n\n" when no line has a line feed. */
  lemma {:induction false} SplitJoinRoundTrip(lines: seq<string>)
    requires |lines| >= 1
    requires forall x :: x in lines ==> SingleLine(x)
    ensures Split(DoubleNewline, Join(lines, "\n\n")) == lines
  {
    var x := lines[0];
    assert x in lines;
    if |lines| == 1 {
      NoSeparatorNoSplit(DoubleNewline, x);
    } else {
      var rest := Join(lines[1..], "\n\n");
      var s := x + "\n\n" + rest;
      assert forall k :: 0 <= k < |x| ==> s[k..][0] == x[k];
      SkipPlain(DoubleNewline, s, 0, |x|);
      assert s[|x|..][..2] == "\n\n";
      assert s[|x| + 2..] == rest;
      assert s[..|x|] == x;
      assert forall y :: y in lines[1..] ==> y in lines;
      SplitJoinRoundTrip(lines[1..]);
      assert lines == [x] + lines[1..];
    }
  }

  // ----- Stripping and dropping blank parts -----

  /** `[p.strip() for p in pieces if p.strip()]`. */
  function StripNonBlank(pieces: seq<string>): (parts: seq<string>)
    ensures |parts| <= |pieces|
  {
    if pieces == [] then [] else Kept(pieces[0]) + StripNonBlank(pieces[1..])
  }

  /** What one piece contributes: its stripped text, unless that is empty. */
  function Kept(piece: string): (kept: seq<string>)
    ensures |kept| <= 1
    ensures kept == [] <==> Strip(piece) == []
  {
    var p := Strip(piece);
    if p != [] then [p] else []
  }

  /** Every part kept is non-empty and neither starts nor ends with whitespace. */
  lemma {:induction false} StripNonBlankStripped(pieces: seq<string>)
    ensures forall p :: p in StripNonBlank(pieces) ==> Stripped(p)
  {
    if pieces != [] {
      StripNonBlankStripped(pieces[1..]);
    }
  }

  lemma {:induction false} StripNonBlankAppend(pieces: seq<string>, piece: string)
    ensures StripNonBlank(pieces + [piece]) == StripNonBlank(pieces) + Kept(piece)
  {
    if pieces == [] {
      assert pieces + [piece] == [piece] && [piece][1..] == [];
    } else {
      StripNonBlankAppend(pieces[1..], piece);
      SeqConsAppend(pieces, piece);
      var head := Kept(pieces[0]);
      calc {
        StripNonBlank(pieces + [piece]);
        head + StripNonBlank(pieces[1..] + [piece]);
        head + (StripNonBlank(pieces[1..]) + Kept(piece));
        (head + StripNonBlank(pieces[1..])) + Kept(piece);
      }
    }
  }

  /** Appending to a non-empty sequence keeps its head and appends to its tail. */
  lemma SeqConsAppend(pieces: seq<string>, piece: string)
    requires pieces != []
    ensures (pieces + [piece])[0] == pieces[0]
    ensures (pieces + [piece])[1..] == pieces[1..] + [piece]
  {
  }

  /** The raw parts of a text: split, stripped, blank ones dropped. */
  function Parts(sp: Splitter, text: string): seq<string> {
    StripNonBlank(Split(sp, text))
  }


  /** One more piece extends the stripped, non-blank parts of a prefix by at most its stripped self. */
  lemma StripNonBlankStep(pieces: seq<string>, i: nat)
    requires i < |pieces|
    ensures StripNonBlank(pieces[..i + 1])
         == StripNonBlank(pieces[..i]) + Kept(pieces[i])
  {
    StripNonBlankAppend(pieces[..i], pieces[i]);
    assert pieces[..i + 1] == pieces[..i] + [pieces[i]];
  }

  /**
   * The loop of backend/services/parser.py that strips the pieces of
   * `text.split("\n\n")` and keeps the non-blank ones.
   */
  method CollectParts(pieces: seq<string>) returns (parts: seq<string>)
    ensures parts == StripNonBlank(pieces)
  {
    parts := [];
    for i := 0 to |pieces|
      invariant parts == StripNonBlank(pieces[..i])
    {
      var part := Strip(pieces[i]);
      StripNonBlankStep(pieces, i);
      if part != [] {
        parts := parts + [part];
      }
    }
    assert pieces[..|pieces|] == pieces;
  }

  // ----- Cutting parts into clauses -----

  /** The chunks `part[start:start+max]`, `part[start+max:start+2*max]`, ... of the while loop. */
  function ChunksFrom(part: string, start: nat, max: nat): seq<string>
    requires max > 0
    decreases |part| - start
  {
    if start >= |part| then []
    else [Take(part[start..], max)] + ChunksFrom(part, start + max, max)
  }

  /** The clause texts one stripped part yields. */
  function Chunks(part: string, max: nat): seq<string>
    requires max > 0
  {
    if |part| <= max then [part] else ChunksFrom(part, 0, max)
  }

  /** The clause texts of all parts, in part order. */
  function ChunkTexts(parts: seq<string>, max: nat): seq<string>
    requires max > 0
  {
    if parts == [] then [] else Chunks(parts[0], max) + ChunkTexts(parts[1..], max)
  }

  /** Clause texts numbered c1, c2, ... */
  function Numbered(texts: seq<string>): seq<Clause> {
    seq(|texts|, k requires 0 <= k < |texts| => Clause(ClauseId(k + 1), texts[k]))
  }

  /** The clauses that parts yield. */
  function Segment(parts: seq<string>, max: nat): seq<Clause>
    requires max > 0
  {
    Numbered(ChunkTexts(parts, max))
  }

  function Texts(clauses: seq<Clause>): seq<string> {
    seq(|clauses|, k requires 0 <= k < |clauses| => clauses[k].text)
  }

  /** ceil(n / max): how many chunks of width `max` a part of n characters needs. */
  function ChunkCount(n: nat, max: nat): nat
    requires max > 0
  {
    (n + max - 1) / max
  }

  /** Σ over parts of (1 if len ≤ max else ceil(len/max)). */
  function ClauseCount(parts: seq<string>, max: nat): nat
    requires max > 0
  {
    if parts == [] then 0
    else (if |parts[0]| <= max then 1 else ChunkCount(|parts[0]|, max)) + ClauseCount(parts[1..], max)
  }

  /** The chunks of a part, glued together, give the part back. */
  lemma {:induction false} ChunksFromConcat(part: string, start: nat, max: nat)
    requires max > 0 && start <= |part|
    ensures Concat(ChunksFrom(part, start, max)) == part[start..]
    decreases |part| - start
  {
    if start < |part| {
      var chunk := Take(part[start..], max);
      if start + max <= |part| {
        ChunksFromConcat(part, start + max, max);
        assert part[start..] == chunk + part[start + max..];
      } else {
        assert ChunksFrom(part, start + max, max) == [];
      }
    }
  }

  /** Every chunk is non-empty and at most `max` long. */
  lemma {:induction false} ChunksFromBounds(part: string, start: nat, max: nat)
    requires max > 0
    ensures forall c :: c in ChunksFrom(part, start, max) ==> 0 < |c| <= max
    decreases |part| - start
  {
    if start < |part| {
      ChunksFromBounds(part, start + max, max);
    }
  }

  /** A part of n characters is cut into ceil(n / max) chunks. */
  lemma {:induction false} ChunksFromCount(part: string, start: nat, max: nat)
    requires max > 0 && start <= |part|
    ensures |ChunksFrom(part, start, max)| == ChunkCount(|part| - start, max)
    decreases |part| - start
  {
    if start < |part| {
      if start + max <= |part| {
        ChunksFromCount(part, start + max, max);
        DivStep(|part| - start - max, max);
      } else {
        assert ChunksFrom(part, start + max, max) == [];
        DivUnique(|part| - start + max - 1, max, 1, |part| - start - 1);
      }
    } else {
      DivUnique(max - 1, max, 0, max - 1);
    }
  }

  lemma {:induction false} MulAtLeast(d: nat, m: nat)
    requires d >= 1
    ensures d * m >= m
  {
    if d > 1 {
      MulAtLeast(d - 1, m);
      assert d * m == (d - 1) * m + m;
    }
  }

  lemma DivUnique(a: int, m: int, q: int, r: int)
    requires m > 0 && 0 <= r < m && a == q * m + r
    ensures a / m == q
  {
    var q' := a / m;
    var r' := a % m;
    assert a == q' * m + r';
    if q > q' {
      assert (q - q') * m == q * m - q' * m;
      MulAtLeast(q - q', m);
    } else if q < q' {
      assert (q' - q) * m == q' * m - q * m;
      MulAtLeast(q' - q, m);
    }
  }

  /**
   * At the default `max_clause_chars` of 2000, a part of up to 2000
   * characters is one clause, and one of up to 4000 is cut once, after its
   * 2000th character.
   */
  lemma DefaultChunks(part: string)
    ensures |part| <= DefaultMaxClauseChars ==> Chunks(part, DefaultMaxClauseChars) == [part]
    ensures DefaultMaxClauseChars < |part| <= 2 * DefaultMaxClauseChars ==>
              Chunks(part, DefaultMaxClauseChars) == [part[..DefaultMaxClauseChars], part[DefaultMaxClauseChars..]]
  {
    var m := DefaultMaxClauseChars;
    if m < |part| <= 2 * m {
      assert ChunksFrom(part, 2 * m, m) == [];
      assert ChunksFrom(part, m, m) == [part[m..]];
      assert part[0..] == part;
    }
  }

  /** One more chunk of width `max` is needed for `max` more characters. */
  lemma DivStep(x: nat, max: nat)
    requires max > 0
    ensures (x + max + max - 1) / max == (x + max - 1) / max + 1
  {
    var q := (x + max - 1) / max;
    var r := (x + max - 1) % max;
    assert x + max + max - 1 == (q + 1) * max + r;
    DivUnique(x + max + max - 1, max, q + 1, r);
  }

  lemma ChunksFacts(part: string, max: nat)
    requires max > 0
    ensures Concat(Chunks(part, max)) == part
    ensures part != [] ==> forall c :: c in Chunks(part, max) ==> 0 < |c| <= max
    ensures |Chunks(part, max)| == if |part| <= max then 1 else ChunkCount(|part|, max)
  {
    if |part| <= max {
      assert Concat([part]) == part + Concat([]);
    } else {
      ChunksFromConcat(part, 0, max);
      ChunksFromBounds(part, 0, max);
      ChunksFromCount(part, 0, max);
    }
  }

  lemma {:induction false} ChunkTextsAppend(parts: seq<string>, part: string, max: nat)
    requires max > 0
    ensures ChunkTexts(parts + [part], max) == ChunkTexts(parts, max) + Chunks(part, max)
  {
    if parts == [] {
      assert [part][1..] == [];
    } else {
      assert (parts + [part])[1..] == parts[1..] + [part];
      ChunkTextsAppend(parts[1..], part, max);
    }
  }

  /**
   * What segmentation promises: the clause texts glued together give the
   * parts glued together (nothing lost, nothing reordered); with non-empty
   * parts every clause text is non-empty and at most `max` long; and the
   * number of clauses is Σ (1 if len ≤ max else ceil(len/max)).
   */
  lemma {:induction false} ChunkTextsFacts(parts: seq<string>, max: nat)
    requires max > 0
    ensures Concat(ChunkTexts(parts, max)) == Concat(parts)
    ensures (forall p :: p in parts ==> p != []) ==>
              forall c :: c in ChunkTexts(parts, max) ==> 0 < |c| <= max
    ensures |ChunkTexts(parts, max)| == ClauseCount(parts, max)
  {
    if parts != [] {
      ChunksFacts(parts[0], max);
      ChunkTextsFacts(parts[1..], max);
      ConcatAppend(Chunks(parts[0], max), ChunkTexts(parts[1..], max));
      assert parts[0] in parts;
      assert forall p :: p in parts[1..] ==> p in parts;
    }
  }

  /** Numbering one more text gives it the next id. */
  lemma NumberedAppend(texts: seq<string>, t: string)
    ensures Numbered(texts + [t]) == Numbered(texts) + [Clause(ClauseId(|texts| + 1), t)]
  {
    var n := Numbered(texts + [t]);
    assert forall k :: 0 <= k < |texts| ==> n[k] == Numbered(texts)[k];
  }

  /** The clause texts of one more part follow those of the parts before it. */
  lemma ChunkTextsStep(parts: seq<string>, i: nat, max: nat)
    requires max > 0 && i < |parts|
    ensures ChunkTexts(parts[..i + 1], max) == ChunkTexts(parts[..i], max) + Chunks(parts[i], max)
  {
    ChunkTextsAppend(parts[..i], parts[i], max);
    assert parts[..i + 1] == parts[..i] + [parts[i]];
  }

  /**
   * The `while start < len(part)` loop: `part` is walked with `start` in
   * steps of `max`, one clause per window. `idx` is the number of the next
   * clause.
   */
  method ChunkWindows(part: string, max: nat, clauses: seq<Clause>, idx: nat, ghost texts: seq<string>)
    returns (clauses': seq<Clause>, idx': nat)
    requires max > 0 && clauses == Numbered(texts) && idx == |clauses| + 1
    ensures clauses' == Numbered(texts + ChunksFrom(part, 0, max)) && idx' == |clauses'| + 1
  {
    clauses', idx' := clauses, idx;
    ghost var done := texts;
    var start := 0;
    while start < |part|
      invariant clauses' == Numbered(done) && idx' == |clauses'| + 1
      invariant done + ChunksFrom(part, start, max) == texts + ChunksFrom(part, 0, max)
    {
      var chunk := Take(part[start..], max);
      assert ChunksFrom(part, start, max) == [chunk] + ChunksFrom(part, start + max, max);
      NumberedAppend(done, chunk);
      clauses' := clauses' + [Clause(ClauseId(idx'), chunk)];
      done := done + [chunk];
      idx' := idx' + 1;
      start := start + max;
    }
  }

  /**
   * The body of the numbering loop for one part: a part no longer than
   * `max` becomes one clause, a longer one is cut into windows.
   */
  method ChunkPart(part: string, max: nat, clauses: seq<Clause>, idx: nat, ghost texts: seq<string>)
    returns (clauses': seq<Clause>, idx': nat)
    requires max > 0 && clauses == Numbered(texts) && idx == |clauses| + 1
    ensures clauses' == Numbered(texts + Chunks(part, max)) && idx' == |clauses'| + 1
  {
    if |part| <= max {
      NumberedAppend(texts, part);
      clauses', idx' := clauses + [Clause(ClauseId(idx), part)], idx + 1;
    } else {
      clauses', idx' := ChunkWindows(part, max, clauses, idx, texts);
    }
  }

  /**
   * The numbering loop shared by both `parse_document_simple` functions:
   * the clauses are the chunks of the parts, numbered c1, c2, ... in order.
   * The loop only terminates when `max` is positive.
   */
  method ChunkParts(parts: seq<string>, max: nat) returns (clauses: seq<Clause>)
    requires max > 0
    ensures clauses == Segment(parts, max)
  {
    clauses := [];
    var idx := 1;
    for i := 0 to |parts|
      invariant clauses == Numbered(ChunkTexts(parts[..i], max)) && idx == |clauses| + 1
    {
      clauses, idx := ChunkPart(parts[i], max, clauses, idx, ChunkTexts(parts[..i], max));
      ChunkTextsStep(parts, i, max);
    }
    assert parts[..|parts|] == parts;
  }

  /**
   * What segmentation promises: clause k is numbered c(k+1); the clause
   * texts glued together give the parts glued together (nothing lost,
   * nothing reordered); there are Σ (1 if len ≤ max else ceil(len/max))
   * clauses; and with non-empty parts every clause text is non-empty and
   * at most `max` long.
   */
  lemma SegmentFacts(parts: seq<string>, max: nat)
    requires max > 0
    ensures var clauses := Segment(parts, max);
            && (forall k :: 0 <= k < |clauses| ==> clauses[k].clauseId == ClauseId(k + 1))
            && Concat(Texts(clauses)) == Concat(parts)
            && |clauses| == ClauseCount(parts, max)
            && ((forall p :: p in parts ==> p != []) ==>
                  forall k :: 0 <= k < |clauses| ==> 0 < |clauses[k].text| <= max)
  {
    var clauses := Segment(parts, max);
    var texts := ChunkTexts(parts, max);
    ChunkTextsFacts(parts, max);
    assert Texts(clauses) == texts;
    if forall p :: p in parts ==> p != [] {
      forall k | 0 <= k < |clauses| ensures 0 < |clauses[k].text| <= max {
        assert clauses[k].text == texts[k] && texts[k] in texts;
      }
    }
  }

  /**
   * backend/services/parser.py `parse_document_simple`, from the extracted
   * text on: split on "\n\n", strip, drop blanks, chunk, number.
   */
  method ParseBackend(text: string, max: nat) returns (clauses: seq<Clause>)
    requires max > 0
    ensures clauses == Segment(Parts(DoubleNewline, text), max)
    ensures forall k :: 0 <= k < |clauses| ==>
              clauses[k].clauseId == ClauseId(k + 1) && 0 < |clauses[k].text| <= max
    ensures Concat(Texts(clauses)) == Concat(Parts(DoubleNewline, text))
    ensures |clauses| == ClauseCount(Parts(DoubleNewline, text), max)
  {
    var parts := CollectParts(Split(DoubleNewline, text));
    clauses := ChunkParts(parts, max);
    SegmentFacts(parts, max);
    StripNonBlankStripped(Split(DoubleNewline, text));
  }

  /**
   * run_app.py `parse_document_simple`, from the extracted text on: split on
   * runs of line feeds, strip, drop blanks, chunk, number.
   */
  method ParseRunApp(text: string, max: nat) returns (clauses: seq<Clause>)
    requires max > 0
    ensures clauses == Segment(Parts(NewlineRuns, text), max)
    ensures forall k :: 0 <= k < |clauses| ==>
              clauses[k].clauseId == ClauseId(k + 1) && 0 < |clauses[k].text| <= max
    ensures Concat(Texts(clauses)) == Concat(Parts(NewlineRuns, text))
    ensures |clauses| == ClauseCount(Parts(NewlineRuns, text), max)
  {
    var parts := Parts(NewlineRuns, text);
    clauses := ChunkParts(parts, max);
    SegmentFacts(parts, max);
    StripNonBlankStripped(Split(NewlineRuns, text));
  }

  /** Clause ids of a segmentation are pairwise distinct. */
  lemma SegmentIdsDistinct(parts: seq<string>, max: nat, i: nat, j: nat)
    requires max > 0
    requires i < j < |Segment(parts, max)|
    ensures Segment(parts, max)[i].clauseId != Segment(parts, max)[j].clauseId
  {
    ClauseIdFacts(i + 1, j + 1);
  }
}
