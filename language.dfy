/**
 * `detectLanguage`: counts how many Spanish and how many English marker words
 * (each with a space on both sides) occur in the lowercased text, and answers
 * ES only when the Spanish count is strictly larger.
 */
module Language {
  import opened Strings

  datatype Lang = EN | ES

  /**
   * The Spanish markers, in source order. Seven of them are written in the
   * source with the two characters U+00C3 and a second Latin-1 character
   * where an accented vowel was meant; they are kept exactly as written.
   */
  const SPANISH_MARKERS: seq<string> := [
    " el ", " la ", " los ", " las ", " de ", " del ", " que ", " en ", " es ", " un ",
    " una ", " para ", " con ", " por ", " su ", " sus ", " al ", " se ", " como ",
    " m\U{C3}\U{A1}s ", " pero ", " este ", " esta ", " estos ", " estas ", " sobre ",
    " entre ", " tambi\U{C3}\U{A9}n ", " sido ", " hace ", " hacia ", " desde ", " durante ",
    " mediante ", " seg\U{C3}\U{BA}n ", " aunque ", " puede ", " pueden ", " debe ", " deben ",
    " tiene ", " tienen ", " est\U{C3}\U{A1} ", " est\U{C3}\U{A1}n ", " ser\U{C3}\U{A1} ",
    " ser\U{C3}\U{A1}n ", " siendo ", " hemos ", " nuestra ", " nuestro ", " empresa ",
    " empresas "
  ]

  const ENGLISH_MARKERS: seq<string> := [
    " the ", " is ", " are ", " was ", " were ", " be ", " been ", " being ", " have ",
    " has ", " had ", " do ", " does ", " did ", " will ", " would ", " could ", " should ",
    " may ", " might ", " must ", " shall ", " for ", " and ", " with ", " that ", " this ",
    " from ", " they ", " we ", " our ", " your ", " their ", " which ", " when ", " where ",
    " how ", " why ", " about ", " into ", " through ", " during ", " before ", " after ",
    " company ", " business ", " report ", " reporting "
  ]

  /** How many of `markers` occur in `t`; counts markers from the front, as the loop does. */
  function Score(markers: seq<string>, t: string): (n: nat)
    ensures n <= |markers|
    decreases |markers|
  {
    if markers == [] then 0
    else Score(markers[..|markers| - 1], t) + (if Contains(t, markers[|markers| - 1]) then 1 else 0)
  }

  /** The language `detectLanguage` answers; the empty text is English. */
  function DetectedLanguage(text: string): Lang {
    if text == "" then EN
    else
      var t := ToLower(text);
      if Score(SPANISH_MARKERS, t) > Score(ENGLISH_MARKERS, t) then ES else EN
  }

  /** One counting loop of `detectLanguage`: the markers of the list found in `t`. */
  method CountMarkers(markers: seq<string>, t: string) returns (score: nat)
    ensures score == Score(markers, t)
  {
    score := 0;
    for k := 0 to |markers|
      invariant score == Score(markers[..k], t)
    {
      assert markers[..k + 1][..k] == markers[..k];
      if Contains(t, markers[k]) {
        score := score + 1;
      }
    }
    assert markers[..|markers|] == markers;
  }

  /** `detectLanguage`. */
  method DetectLanguage(text: string) returns (lang: Lang)
    ensures lang == DetectedLanguage(text)
    ensures lang == ES <==> text != "" && Score(SPANISH_MARKERS, ToLower(text)) > Score(ENGLISH_MARKERS, ToLower(text))
  {
    if text == "" {
      return EN;
    }
    var t := ToLower(text);
    var spanish := CountMarkers(SPANISH_MARKERS, t);
    var english := CountMarkers(ENGLISH_MARKERS, t);
    lang := if spanish > english then ES else EN;
  }

  /** No marker found gives zero, and zero means no marker was found. */
  lemma {:induction false} ScoreZero(markers: seq<string>, t: string)
    ensures Score(markers, t) == 0 <==> forall k :: 0 <= k < |markers| ==> !Contains(t, markers[k])
    decreases |markers|
  {
    if markers != [] {
      var init := markers[..|markers| - 1];
      ScoreZero(init, t);
      assert forall k :: 0 <= k < |init| ==> init[k] == markers[k];
    }
  }

  /** Every marker found gives the full count, and only then. */
  lemma {:induction false} ScoreFull(markers: seq<string>, t: string)
    ensures Score(markers, t) == |markers| <==> forall k :: 0 <= k < |markers| ==> Contains(t, markers[k])
    decreases |markers|
  {
    if markers != [] {
      var init := markers[..|markers| - 1];
      ScoreFull(init, t);
      assert forall k :: 0 <= k < |init| ==> init[k] == markers[k];
    }
  }

  /** Surrounding a text with more text never lowers a score. */
  lemma {:induction false} ScoreExtend(markers: seq<string>, pre: string, t: string, post: string)
    ensures Score(markers, t) <= Score(markers, pre + t + post)
    decreases |markers|
  {
    if markers != [] {
      ScoreExtend(markers[..|markers| - 1], pre, t, post);
      if Contains(t, markers[|markers| - 1]) {
        ContainsExtend(pre, t, post, markers[|markers| - 1]);
      }
    }
  }

  /** Markers that are never found cannot count. */
  lemma {:induction false} ScoreWithout(markers: seq<string>, t: string, absent: set<nat>)
    requires forall k :: k in absent ==> k < |markers| && !Contains(t, markers[k])
    ensures Score(markers, t) <= |markers| - |absent|
    decreases |markers|
  {
    if markers != [] {
      var last := |markers| - 1;
      var rest := absent - {last};
      SetSizeBound(absent, |markers|);
      ScoreWithout(markers[..last], t, rest);
    }
  }

  lemma {:induction false} SetSizeBound(s: set<nat>, n: nat)
    requires forall k :: k in s ==> k < n
    ensures |s| <= n
    decreases n
  {
    if n > 0 {
      SetSizeBound(s - {n - 1}, n - 1);
    }
  }

  /** Lowercase text never contains a character that lowercasing changes. */
  lemma ChangedByLowerNeverFound(text: string, m: string, j: nat)
    requires j < |m| && Lower(m[j]) != m[j]
    ensures !Contains(ToLower(text), m)
  {
  }

  /** A Spanish marker holding U+00C3 at `j`. */
  lemma DeadMarker(text: string, k: nat, j: nat)
    requires k < |SPANISH_MARKERS| && j < |SPANISH_MARKERS[k]| && SPANISH_MARKERS[k][j] == '\U{C3}'
    ensures !Contains(ToLower(text), SPANISH_MARKERS[k])
  {
    ChangedByLowerNeverFound(text, SPANISH_MARKERS[k], j);
  }

  lemma DeadMarkersLow(text: string)
    ensures !Contains(ToLower(text), SPANISH_MARKERS[19]) && !Contains(ToLower(text), SPANISH_MARKERS[27])
    ensures !Contains(ToLower(text), SPANISH_MARKERS[34])
  {
    DeadMarker(text, 19, 2);
    DeadMarker(text, 27, 6);
    DeadMarker(text, 34, 4);
  }

  lemma DeadMarkersHigh(text: string)
    ensures !Contains(ToLower(text), SPANISH_MARKERS[42]) && !Contains(ToLower(text), SPANISH_MARKERS[43])
    ensures !Contains(ToLower(text), SPANISH_MARKERS[44]) && !Contains(ToLower(text), SPANISH_MARKERS[45])
  {
    DeadMarker(text, 42, 4);
    DeadMarker(text, 43, 4);
    DeadMarker(text, 44, 4);
    DeadMarker(text, 45, 4);
  }

  /**
   * The markers written with U+00C3 (an uppercase letter) can never occur in the
   * lowercased text, so the Spanish score is at most 45 of its 52 markers.
   */
  lemma SpanishScoreBound(text: string)
    ensures Score(SPANISH_MARKERS, ToLower(text)) <= |SPANISH_MARKERS| - 7
  {
    var dead: set<nat> := {19, 27, 34, 42, 43, 44, 45};
    DeadMarkersLow(text);
    DeadMarkersHigh(text);
    assert forall k :: k in dead ==> k < |SPANISH_MARKERS| && !Contains(ToLower(text), SPANISH_MARKERS[k]);
    ScoreWithout(SPANISH_MARKERS, ToLower(text), dead);
  }

  /** The answer does not depend on letter case. */
  lemma DetectedLanguageIgnoresCase(text: string)
    ensures DetectedLanguage(ToLower(text)) == DetectedLanguage(text)
  {
    ToLowerIdempotent(text);
  }
}
