/** The lexical crisis check that short-circuits normal dispatch (app.py `is_crisis`). */
module Crisis {
  import opened Wrappers
  import opened Text

  /** `CRISIS_KEYWORDS`, in the order the source lists them. */
  const CRISIS_KEYWORDS: seq<string> := [
    "wanna die", "want to die", "kill myself", "end my life",
    "suicide", "suicidal", "self harm", "self-harm", "no reason to live",
    "can't go on", "cant go on", "better off dead", "end it all",
    "don't want to live", "dont want to live", "harm myself"
  ]

  /** The shortest keyword has seven characters ("suicide"). */
  const SHORTEST_KEYWORD: nat := 7

  /** Python's `any(kw in s for kw in kws)`. */
  function AnyOccurs(s: string, kws: seq<string>): (b: bool)
    ensures b <==> exists j :: 0 <= j < |kws| && Contains(s, kws[j])
  {
    if kws == [] then false
    else if Contains(s, kws[0]) then true
    else
      var rest := AnyOccurs(s, kws[1..]);
      assert forall j :: 0 <= j < |kws| - 1 ==> kws[1..][j] == kws[j + 1];
      assert rest <==> exists j :: 1 <= j < |kws| && Contains(s, kws[j]) by {
        if rest {
          var j :| 0 <= j < |kws| - 1 && Contains(s, kws[1..][j]);
          assert Contains(s, kws[j + 1]);
        } else {
          forall j | 1 <= j < |kws| ensures !Contains(s, kws[j]) {
            assert kws[j] == kws[1..][j - 1];
          }
        }
      }
      rest
  }

  /** `is_crisis(text)`: a None text is read as the empty string. The result
      holds exactly when some keyword occurs in the ASCII-lowered text. */
  function IsCrisis(text: Option<string>): (b: bool)
    ensures b <==> exists j :: 0 <= j < |CRISIS_KEYWORDS| && Contains(Lower(text.GetOr("")), CRISIS_KEYWORDS[j])
  {
    AnyOccurs(Lower(text.GetOr("")), CRISIS_KEYWORDS)
  }

  /** The check is case-insensitive: upper- and lower-case spellings of the
      same text give the same answer. */
  lemma CrisisIgnoresCase(s: string)
    ensures IsCrisis(Some(s)) == IsCrisis(Some(Lower(s)))
  {
    assert Lower(Lower(s)) == Lower(s);
  }

  /** No keyword is shorter than `SHORTEST_KEYWORD`. */
  lemma KeywordsAreLong()
    ensures forall j :: 0 <= j < |CRISIS_KEYWORDS| ==> |CRISIS_KEYWORDS[j]| >= SHORTEST_KEYWORD
  {
  }

  /** Text shorter than every keyword (and so a None text) is never a crisis. */
  lemma ShortTextIsNotCrisis(text: Option<string>)
    requires |text.GetOr("")| < SHORTEST_KEYWORD
    ensures !IsCrisis(text)
  {
    KeywordsAreLong();
    var low := Lower(text.GetOr(""));
    forall j, i | 0 <= j < |CRISIS_KEYWORDS| ensures !OccursAt(low, CRISIS_KEYWORDS[j], i) {
      assert |CRISIS_KEYWORDS[j]| > |low|;
    }
  }

  /** A crisis message stays a crisis message whatever is written around it. */
  lemma CrisisSurvivesContext(p: string, s: string, q: string)
    requires IsCrisis(Some(s))
    ensures IsCrisis(Some(p + s + q))
  {
    var j, i :| 0 <= j < |CRISIS_KEYWORDS| && OccursAt(Lower(s), CRISIS_KEYWORDS[j], i);
    LowerConcat(p + s, q);
    LowerConcat(p, s);
    OccursInContext(Lower(p), Lower(s), Lower(q), CRISIS_KEYWORDS[j], i);
    assert OccursAt(Lower(p + s + q), CRISIS_KEYWORDS[j], |p| + i);
  }

  /** A keyword written in any mix of cases inside any text is flagged
      ("I want to DIE" contains "want to die" once lowered). */
  lemma KeywordInAnyCaseIsCrisis(p: string, s: string, q: string, j: nat)
    requires j < |CRISIS_KEYWORDS| && Lower(s) == CRISIS_KEYWORDS[j]
    ensures IsCrisis(Some(p + s + q))
  {
    assert IsCrisis(Some(s)) by {
      assert Lower(s)[0..|CRISIS_KEYWORDS[j]|] == Lower(s);
      assert OccursAt(Lower(s), CRISIS_KEYWORDS[j], 0);
    }
    CrisisSurvivesContext(p, s, q);
  }
}
