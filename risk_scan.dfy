/**
 * Rule-based risk flagging, `scan_clauses` (run_app.py and
 * backend/services/risk_analysis.py). Each clause's text is lower-cased and
 * searched for three families of phrases; every family that matches adds
 * one flag carrying the clause's id. The regular expressions are plain
 * alternations of literals, so each is a disjunction of substring tests.
 */
module RiskScan {
  import opened Optional
  import opened Text
  import opened Segmentation

  /** The three rules, in the order the loop body tries them. */
  datatype Tag = UnlimitedLiability | AutoRenewal | IndemnityMention

  /** The `tag` text each rule's flag carries. */
  function TagName(t: Tag): string {
    match t
    case UnlimitedLiability => "Unlimited Liability"
    case AutoRenewal => "Auto Renewal"
    case IndemnityMention => "Indemnity Mention"
  }

  /** The fixed `match` text the backend copy attaches to each tag. */
  function MatchText(t: Tag): string {
    match t
    case UnlimitedLiability => "found pattern 'unlimited liability'"
    case AutoRenewal => "found auto-renewal language"
    case IndemnityMention => "indemnity wording present"
  }

  /** A flag's `tag` text tells which rule raised it. */
  lemma TagNamesDistinct(a: Tag, b: Tag)
    ensures TagName(a) == TagName(b) <==> a == b
  {
  }

  /** Position of a rule in the loop body. */
  function Rank(t: Tag): nat {
    match t
    case UnlimitedLiability => 0
    case AutoRenewal => 1
    case IndemnityMention => 2
  }

  /**
   * A flag: the clause id and tag, whose `"tag"` text in the source's
   * flag dictionary is TagName(tag); `matchText` is the backend's `match`
   * field, absent in the run_app.py copy.
   */
  datatype Flag = Flag(clauseId: string, tag: Tag, matchText: Option<string>)

  /** Which copy of `scan_clauses` runs: the backend one adds `match`. */
  datatype Variant = RunApp | Backend

  /**
   * The literal alternatives of each rule's regular expression;
   * `automatic(ally)? renew` stands for its two spellings.
   */
  function Phrases(t: Tag): seq<string> {
    match t
    case UnlimitedLiability =>
      ["unlimited liability", "no cap on liability", "no limit on liability", "no limit"]
    case AutoRenewal =>
      ["automatic renew", "automatically renew", "automatically renew", "renew unless"]
    case IndemnityMention =>
      ["indemnif"]
  }

  /** Some phrase of the list occurs in the text. */
  predicate ContainsAny(lowered: string, phrases: seq<string>) {
    phrases != [] && (Contains(lowered, phrases[0]) || ContainsAny(lowered, phrases[1..]))
  }

  lemma {:induction false} ContainsAnyIff(lowered: string, phrases: seq<string>)
    ensures ContainsAny(lowered, phrases) <==> exists p :: p in phrases && Contains(lowered, p)
  {
    if phrases != [] {
      ContainsAnyIff(lowered, phrases[1..]);
      assert phrases[0] in phrases;
      assert forall p :: p in phrases ==> p == phrases[0] || p in phrases[1..];
    }
  }

  /** Whether a rule's regular expression finds a match in the lower-cased text. */
  predicate Triggers(t: Tag, lowered: string) {
    ContainsAny(lowered, Phrases(t))
  }

  function MakeFlag(v: Variant, clauseId: string, t: Tag): Flag {
    Flag(clauseId, t, if v == Backend then Some(MatchText(t)) else None)
  }

  /** The flag rule `t` raises for a clause with this id and lower-cased text, if any. */
  function RuleFlags(v: Variant, clauseId: string, t: Tag, lowered: string): seq<Flag> {
    if Triggers(t, lowered) then [MakeFlag(v, clauseId, t)] else []
  }

  /** The flags one clause contributes, rules in order. */
  function ClauseFlags(v: Variant, c: Clause): seq<Flag> {
    var lowered := Lower(c.text);
    RuleFlags(v, c.clauseId, UnlimitedLiability, lowered)
    + RuleFlags(v, c.clauseId, AutoRenewal, lowered)
    + RuleFlags(v, c.clauseId, IndemnityMention, lowered)
  }

  /** The flags of all clauses, clause by clause. */
  function FlagsOf(v: Variant, clauses: seq<Clause>): seq<Flag> {
    if clauses == [] then [] else ClauseFlags(v, clauses[0]) + FlagsOf(v, clauses[1..])
  }

  /** Scanning two runs of clauses one after the other gives their flags one after the other. */
  lemma {:induction false} FlagsOfConcat(v: Variant, a: seq<Clause>, b: seq<Clause>)
    ensures FlagsOf(v, a + b) == FlagsOf(v, a) + FlagsOf(v, b)
  {
    if a == [] {
      assert a + b == b;
    } else {
      assert (a + b)[0] == a[0] && (a + b)[1..] == a[1..] + b;
      FlagsOfConcat(v, a[1..], b);
      var head, rest, tail := ClauseFlags(v, a[0]), FlagsOf(v, a[1..]), FlagsOf(v, b);
      assert FlagsOf(v, a + b) == head + (rest + tail);
      AppendAssoc(head, rest, tail);
    }
  }

  lemma AppendAssoc(x: seq<Flag>, y: seq<Flag>, z: seq<Flag>)
    ensures x + (y + z) == (x + y) + z
  {
  }

  lemma FlagsOfAppend(v: Variant, clauses: seq<Clause>, c: Clause)
    ensures FlagsOf(v, clauses + [c]) == FlagsOf(v, clauses) + ClauseFlags(v, c)
  {
    FlagsOfConcat(v, clauses, [c]);
    assert [c][1..] == [];
  }

  /** One `if re.search(...): flags.append(...)` of the loop body. */
  method ApplyRule(v: Variant, clauseId: string, t: Tag, lowered: string, flags: seq<Flag>)
    returns (flags': seq<Flag>)
    ensures flags' == flags + RuleFlags(v, clauseId, t, lowered)
  {
    flags' := flags;
    if Triggers(t, lowered) {
      flags' := flags' + [MakeFlag(v, clauseId, t)];
    }
  }

  /**
   * The body of `scan_clauses`'s loop for one clause: each rule, in order,
   * appends its flag to `flags` when it matches the lower-cased text.
   */
  method ScanClause(v: Variant, c: Clause, flags: seq<Flag>) returns (flags': seq<Flag>)
    ensures flags' == flags + ClauseFlags(v, c)
  {
    var t := Lower(c.text);
    flags' := ApplyRule(v, c.clauseId, UnlimitedLiability, t, flags);
    flags' := ApplyRule(v, c.clauseId, AutoRenewal, t, flags');
    flags' := ApplyRule(v, c.clauseId, IndemnityMention, t, flags');
    assert flags' == flags + (RuleFlags(v, c.clauseId, UnlimitedLiability, t)
                              + RuleFlags(v, c.clauseId, AutoRenewal, t)
                              + RuleFlags(v, c.clauseId, IndemnityMention, t));
  }

  /**
   * `scan_clauses`: the loop over clauses appending to `flags` computes
   * FlagsOf, clause by clause; FlagsOfFacts and NoFlagsIffQuiet say what
   * those flags are.
   */
  lemma FlagsOfStep(v: Variant, clauses: seq<Clause>, i: nat)
    requires i < |clauses|
    ensures FlagsOf(v, clauses[..i + 1]) == FlagsOf(v, clauses[..i]) + ClauseFlags(v, clauses[i])
  {
    assert clauses[..i + 1] == clauses[..i] + [clauses[i]];
    FlagsOfAppend(v, clauses[..i], clauses[i]);
  }

  method ScanClauses(v: Variant, clauses: seq<Clause>) returns (flags: seq<Flag>)
    ensures flags == FlagsOf(v, clauses)
  {
    flags := [];
    for i := 0 to |clauses|
      invariant flags == FlagsOf(v, clauses[..i])
    {
      flags := ScanClause(v, clauses[i], flags);
      FlagsOfStep(v, clauses, i);
    }
    assert clauses[..|clauses|] == clauses;
  }

  /**
   * Soundness for one clause: at most three flags, each the flag of its tag
   * for this clause, and raised only when its rule matches the lower-cased
   * text.
   */
  lemma ClauseFlagsSound(v: Variant, c: Clause)
    ensures var fs := ClauseFlags(v, c);
            && |fs| <= 3
            && forall k :: 0 <= k < |fs| ==>
                 fs[k] == MakeFlag(v, c.clauseId, fs[k].tag) && Triggers(fs[k].tag, Lower(c.text))
  {
    var l := Lower(c.text);
    var a, b, d := RuleFlags(v, c.clauseId, UnlimitedLiability, l),
                   RuleFlags(v, c.clauseId, AutoRenewal, l),
                   RuleFlags(v, c.clauseId, IndemnityMention, l);
    var fs := ClauseFlags(v, c);
    assert fs == a + b + d;
    forall k | 0 <= k < |fs|
      ensures fs[k] == MakeFlag(v, c.clauseId, fs[k].tag) && Triggers(fs[k].tag, l)
    {
      if k < |a| {
        assert fs[k] == a[k];
      } else if k < |a| + |b| {
        assert fs[k] == b[k - |a|];
      } else {
        assert fs[k] == d[k - |a| - |b|];
      }
    }
  }

  /** Completeness for one clause: every rule that matches raises its flag. */
  lemma ClauseFlagsComplete(v: Variant, c: Clause, t: Tag)
    requires Triggers(t, Lower(c.text))
    ensures MakeFlag(v, c.clauseId, t) in ClauseFlags(v, c)
  {
    var l := Lower(c.text);
    var a, b, d := RuleFlags(v, c.clauseId, UnlimitedLiability, l),
                   RuleFlags(v, c.clauseId, AutoRenewal, l),
                   RuleFlags(v, c.clauseId, IndemnityMention, l);
    var fs := ClauseFlags(v, c);
    assert fs == a + b + d;
    match t
    case UnlimitedLiability => assert fs[0] == a[0];
    case AutoRenewal => assert fs[|a|] == b[0];
    case IndemnityMention => assert fs[|a| + |b|] == d[0];
  }

  /** The flags of one clause come in rule order, so no tag appears twice. */
  lemma ClauseFlagsOrdered(v: Variant, c: Clause)
    ensures var fs := ClauseFlags(v, c);
            forall i, j :: 0 <= i < j < |fs| ==> Rank(fs[i].tag) < Rank(fs[j].tag)
  {
    var l := Lower(c.text);
    var a, b, d := RuleFlags(v, c.clauseId, UnlimitedLiability, l),
                   RuleFlags(v, c.clauseId, AutoRenewal, l),
                   RuleFlags(v, c.clauseId, IndemnityMention, l);
    var fs := ClauseFlags(v, c);
    assert fs == a + b + d;
    forall k | 0 <= k < |fs|
      ensures Rank(fs[k].tag) == if k < |a| then 0 else if k < |a| + |b| then 1 else 2
    {
      if k < |a| {
        assert fs[k] == a[k];
      } else if k < |a| + |b| {
        assert fs[k] == b[k - |a|];
      } else {
        assert fs[k] == d[k - |a| - |b|];
      }
    }
  }

  /**
   * All clauses: at most three flags per clause, each flag names a clause
   * of the input whose text its rule matches, each carries its variant's
   * `match` text.
   */
  lemma {:induction false} FlagsOfFacts(v: Variant, clauses: seq<Clause>)
    ensures var fs := FlagsOf(v, clauses);
            && |fs| <= 3 * |clauses|
            && forall k :: 0 <= k < |fs| ==>
                 exists j :: 0 <= j < |clauses|
                   && fs[k] == MakeFlag(v, clauses[j].clauseId, fs[k].tag)
                   && Triggers(fs[k].tag, Lower(clauses[j].text))
  {
    if clauses != [] {
      var head, rest := ClauseFlags(v, clauses[0]), FlagsOf(v, clauses[1..]);
      var fs := FlagsOf(v, clauses);
      assert fs == head + rest;
      ClauseFlagsSound(v, clauses[0]);
      FlagsOfFacts(v, clauses[1..]);
      forall k | 0 <= k < |fs|
        ensures exists j :: 0 <= j < |clauses|
                  && fs[k] == MakeFlag(v, clauses[j].clauseId, fs[k].tag)
                  && Triggers(fs[k].tag, Lower(clauses[j].text))
      {
        if k < |head| {
          assert fs[k] == head[k];
        } else {
          assert fs[k] == rest[k - |head|];
          var j :| 0 <= j < |clauses| - 1
                   && rest[k - |head|] == MakeFlag(v, clauses[1..][j].clauseId, rest[k - |head|].tag)
                   && Triggers(rest[k - |head|].tag, Lower(clauses[1..][j].text));
          assert clauses[1..][j] == clauses[j + 1];
        }
      }
    }
  }

  /** One clause raises no flag exactly when none of the rules matches its text. */
  lemma ClauseFlagsEmpty(v: Variant, c: Clause)
    ensures ClauseFlags(v, c) == [] <==> forall t :: !Triggers(t, Lower(c.text))
  {
    ClauseFlagsSound(v, c);
    if ClauseFlags(v, c) == [] {
      forall t ensures !Triggers(t, Lower(c.text)) {
        if Triggers(t, Lower(c.text)) {
          ClauseFlagsComplete(v, c, t);
        }
      }
    }
  }

  /** No flags at all exactly when no rule matches any clause; in particular none for no clauses. */
  lemma {:induction false} NoFlagsIffQuiet(v: Variant, clauses: seq<Clause>)
    ensures FlagsOf(v, clauses) == [] <==>
              forall j, t :: 0 <= j < |clauses| ==> !Triggers(t, Lower(clauses[j].text))
  {
    if clauses != [] {
      assert FlagsOf(v, clauses) == ClauseFlags(v, clauses[0]) + FlagsOf(v, clauses[1..]);
      ClauseFlagsEmpty(v, clauses[0]);
      NoFlagsIffQuiet(v, clauses[1..]);
      assert forall j :: 1 <= j < |clauses| ==> clauses[j] == clauses[1..][j - 1];
    }
  }

  /**
   * "no limit" alone decides Unlimited Liability: "no limit on liability"
   * contains it, so that alternative is redundant.
   */
  lemma UnlimitedLiabilityPhrases(lowered: string)
    ensures Triggers(UnlimitedLiability, lowered) <==>
              Contains(lowered, "unlimited liability") || Contains(lowered, "no cap on liability")
              || Contains(lowered, "no limit")
  {
    ContainsAnyIff(lowered, Phrases(UnlimitedLiability));
    ContainsPrefixOf(lowered, "no limit on liability", "no limit");
    assert "no limit" in Phrases(UnlimitedLiability);
    assert "unlimited liability" in Phrases(UnlimitedLiability);
    assert "no cap on liability" in Phrases(UnlimitedLiability);
  }

  /** Matching ignores case: a clause and its lower-cased copy get the same flags. */
  lemma CaseInsensitive(v: Variant, c: Clause)
    ensures ClauseFlags(v, Clause(c.clauseId, Lower(c.text))) == ClauseFlags(v, c)
  {
    LowerIdempotent(c.text);
  }

  /** Upper-case wording is caught: "INDEMNIFY" raises Indemnity Mention. */
  lemma UpperCaseIndemnity(v: Variant)
    ensures ClauseFlags(v, Clause("c1", "INDEMNIFY")) == [MakeFlag(v, "c1", IndemnityMention)]
  {
    LowerIndemnify();
    QuietIndemnify();
    assert OccursAt("indemnify", "indemnif", 0);
  }

  lemma LowerIndemnify()
    ensures Lower("INDEMNIFY") == "indemnify"
  {
    var lowered := Lower("INDEMNIFY");
    assert forall k :: 0 <= k < 9 ==> lowered[k] == LowerChar("INDEMNIFY"[k]);
  }

  /** Neither the liability nor the renewal rule matches "indemnify". */
  lemma QuietIndemnify()
    ensures !Triggers(UnlimitedLiability, "indemnify") && !Triggers(AutoRenewal, "indemnify")
  {
    var rest := "indemnify"[1..];
    assert rest[1] == 'd' && "no limit"[1] == 'o';
    assert rest[..8] != "no limit";
    assert !Contains(rest[1..], "no limit");
  }
}
