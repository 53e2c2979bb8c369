/** The crisis-term screen `is_high_risk` (abi/main.py; the same test appears
    in ai-counselling/abi/main.py and ai-counselling/backend/main2.py). */
module Safety {
  import opened Wrappers
  import opened Text

  /** CRISIS_TERMS. */
  const CrisisTerms: set<string> :=
    {"suicide", "kill myself", "end my life", "self harm", "overdose", "hurt myself"}

  /** `(t or "")`: a missing text is screened as the empty text. */
  function OrEmpty(t: Option<string>): string {
    match t
    case Some(s) => s
    case None => ""
  }

  /** is_high_risk: some crisis term occurs in the lower-cased text. The
      shortest term, "suicide", has seven letters, so nothing shorter is flagged. */
  predicate IsHighRisk(t: Option<string>)
    ensures IsHighRisk(t) ==> |OrEmpty(t)| >= 7
  {
    assert forall term :: term in CrisisTerms ==> |term| >= 7;
    exists term | term in CrisisTerms :: Contains(Lower(OrEmpty(t)), term)
  }

  /** A missing text and the empty text are never flagged. */
  lemma NothingIsNotHighRisk()
    ensures !IsHighRisk(None)
    ensures !IsHighRisk(Some(""))
  {
  }

  /** The screen flags a text exactly when some crisis term occurs, at some
      position, in its lower-cased form. */
  lemma HighRiskIff(s: string)
    ensures IsHighRisk(Some(s)) <==>
      exists term, i :: term in CrisisTerms && OccursAt(Lower(s), term, i)
  {
  }

  /** Letter case never matters: a text and its lower-cased form are screened alike. */
  lemma HighRiskIgnoresCase(s: string)
    ensures IsHighRisk(Some(s)) == IsHighRisk(Some(Lower(s)))
  {
    assert Lower(Lower(s)) == Lower(s);
  }

  /** Surrounding a flagged text with more text never clears the flag. */
  lemma HighRiskSurvivesContext(before: string, s: string, after: string)
    requires IsHighRisk(Some(s))
    ensures IsHighRisk(Some(before + s + after))
  {
    var term :| term in CrisisTerms && Contains(Lower(s), term);
    var i :| 0 <= i <= |Lower(s)| - |term| && OccursAt(Lower(s), term, i);
    var whole := before + s + after;
    LowerConcat(before + s, after);
    LowerConcat(before, s);
    assert Lower(whole) == Lower(before) + Lower(s) + Lower(after);
    var j := |before| + i;
    assert Lower(whole)[j..j + |term|] == Lower(s)[i..i + |term|];
    assert OccursAt(Lower(whole), term, j);
  }

  /** A message that states a crisis term in capitals is flagged. */
  lemma ShoutedTermIsFlagged()
    ensures IsHighRisk(Some("I want to END MY LIFE"))
  {
    var s := "I want to END MY LIFE";
    assert Lower(s)[10..21] == "end my life";
    assert OccursAt(Lower(s), "end my life", 10);
  }
}
