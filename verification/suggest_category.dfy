/** `suggestCategory`: a category for the description typed so far, from the
    categoriser of the model helpers, unless the description is too short to
    be worth asking about. */
module SuggestCategory {
  import opened Wrappers
  import opened Text
  import Ai

  const TooShortError: string := "La descripción es demasiado corta para el análisis de IA"

  /** `{ category, error? }`. */
  datatype Suggestion = Suggestion(category: string, error: Option<string>)

  /** The description is missing, empty, or has fewer than two UTF-16 code
      units once trimmed. */
  predicate TooShort(description: Option<string>) {
    !Ai.Truthy(description) || Utf16Length(Trim(description.value)) < 2
  }

  const TooShortSuggestion: Suggestion := Suggestion("Other", Some(TooShortError))

  /** `suggestCategory`: `Other` with an error for a description that is too
      short, otherwise the categoriser's answer for the trimmed description
      and no error. `ask` is the model, as in `Ai.CategorizeExpense`. */
  function SuggestCategory(description: Option<string>, ask: string -> Option<string>): (r: Suggestion)
    ensures r.category in Ai.ValidCategories && r.category != ""
    ensures r.error.None? <==> !TooShort(description)
    ensures r.error.Some? ==> r == TooShortSuggestion
    ensures !TooShort(description) ==> r == Suggestion(Ai.CategorizeExpense(Trim(description.value), ask), None)
  {
    if !Ai.Truthy(description) then
      assert Ai.ValidCategories[6] == "Other";
      TooShortSuggestion
    else SuggestTrimmed(Trim(description.value), ask)
  }

  /** The suggestion for a present description, once it has been trimmed to `t`. */
  function SuggestTrimmed(t: string, ask: string -> Option<string>): (r: Suggestion)
    ensures r.category in Ai.ValidCategories && r.category != ""
    ensures r.error.None? <==> Utf16Length(t) >= 2
    ensures r.error.Some? ==> r == TooShortSuggestion
    ensures Utf16Length(t) >= 2 ==> r == Suggestion(Ai.CategorizeExpense(t, ask), None)
  {
    if Utf16Length(t) < 2 then
      assert Ai.ValidCategories[6] == "Other";
      TooShortSuggestion
    else
      var c := Ai.CategorizeExpense(t, ask);
      CategoryNonEmpty(c);
      Suggestion(c, None)
  }

  lemma CategoryNonEmpty(c: string)
    requires c in Ai.ValidCategories
    ensures c != ""
  {
    forall v | v in Ai.ValidCategories ensures |v| >= 4 {
    }
  }

  /** A description that is too short is answered without asking the model:
      the result is the same for every model. */
  lemma ShortNeedsNoModel(description: Option<string>, ask1: string -> Option<string>, ask2: string -> Option<string>)
    requires TooShort(description)
    ensures SuggestCategory(description, ask1) == SuggestCategory(description, ask2)
  {
  }

  /** The model is only ever asked about the trimmed description: two models
      that reply alike to it give the same suggestion. */
  lemma ModelSeesTrimmed(description: string, ask1: string -> Option<string>, ask2: string -> Option<string>)
    requires ask1(Trim(description)) == ask2(Trim(description))
    ensures SuggestCategory(Some(description), ask1) == SuggestCategory(Some(description), ask2)
  {
    SameReplySameCategory(Trim(description), ask1, ask2);
  }

  lemma SameReplySameCategory(t: string, ask1: string -> Option<string>, ask2: string -> Option<string>)
    requires ask1(t) == ask2(t)
    ensures SuggestTrimmed(t, ask1) == SuggestTrimmed(t, ask2)
  {
    if Utf16Length(t) >= 2 {
      var reply := ask1(t);
      assert Ai.CategorizeExpense(t, ask1) == Ai.CategorizeExpense(t, ask2) by {
        assert ask2(t) == reply;
      }
    }
  }

  /** Surrounding whitespace makes no difference: a description and its
      trimmed form get the same suggestion. */
  lemma {:induction false} TrimmedAlike(description: string, ask: string -> Option<string>)
    ensures SuggestCategory(Some(Trim(description)), ask) == SuggestCategory(Some(description), ask)
  {
    var t := Trim(description);
    TrimIdempotent(description);
    PresentDescription(t, ask);
    PresentDescription(description, ask);
    if description == "" {
      assert t == "";
    } else if t == "" {
      assert SuggestTrimmed(t, ask) == TooShortSuggestion;
    }
  }

  lemma PresentDescription(d: string, ask: string -> Option<string>)
    ensures SuggestCategory(Some(d), ask) == if d == "" then TooShortSuggestion else SuggestTrimmed(Trim(d), ask)
  {
  }

  /** Length is counted in UTF-16 code units: one visible character other
      than whitespace is enough exactly when it lies outside the Basic
      Multilingual Plane, as an emoji does. */
  lemma OneCharacter(c: char, ask: string -> Option<string>)
    requires !IsSpace(c)
    ensures SuggestCategory(Some([c]), ask).error.None? <==> IsAstral(c)
  {
    TrimStartOfUnpadded([c]);
    TrimEndOfUnpadded([c]);
    PresentDescription([c], ask);
    assert Utf16Length([c]) == (if IsAstral(c) then 2 else 1) + Utf16Length([c][1..]);
  }
}
