/**
  `AddQuoteForm`: the form through which a visitor adds a quote.

  Its `clean` checks ahead of the model's own `full_clean` that the quote is
  not a duplicate and that its source has room for one more quote; as a side
  effect it gets or creates that source. Its `save` gets or creates the source
  and creates the quote with zero likes, dislikes and views.
 */
module Forms {
  import opened Wrappers
  import opened Text
  import opened Models

  /** The form's `cleaned_data`: a field is `None` when it is absent, because
      its own field validation failed. */
  datatype Submission = Submission(
    sourceType: Option<SourceType>,
    sourceTitle: Option<string>,
    text: Option<string>,
    baseWeight: Option<real>)

  /** The two errors `AddQuoteForm.clean` raises. */
  datatype FormError =
    | DuplicateQuote                      // a quote with the same normalized text exists
    | SourceLimitReached(title: string)   // the source already has 3 quotes

  /** The title the form looks the source up by: `(source_title or "").strip()`. */
  function FormTitle(sub: Submission): (t: string)
    ensures sub.sourceTitle.Some? ==> t == Strip(sub.sourceTitle.value)
    ensures sub.sourceTitle.None? ==> t == []
  {
    Strip(OrEmpty(sub.sourceTitle))
  }

  /** Whether `clean` runs its source-limit check: a type was chosen and the
      stripped title is not empty. */
  predicate ChecksSource(sub: Submission) {
    sub.sourceType.Some? && FormTitle(sub) != []
  }

  /** The source `clean` and `save` get or create for a submission. */
  function FormSource(sub: Submission): Source
    requires sub.sourceType.Some?
  {
    Source(FormTitle(sub), sub.sourceType.value)
  }

  /** The verdict of `AddQuoteForm.clean` on a store holding `quotes`: the
      duplicate check comes first, then the source limit. */
  function CleanVerdict(quotes: map<nat, Quote>, sub: Submission): Outcome<FormError> {
    if NormalizedTaken(quotes, Normalize(OrEmpty(sub.text)), None) then Fail(DuplicateQuote)
    else if ChecksSource(sub) && |SourceIds(quotes, FormSource(sub))| >= MaxQuotesPerSource then
      Fail(SourceLimitReached(FormTitle(sub)))
    else Pass
  }

  /** `AddQuoteForm.clean`. */
  method Clean(store: QuoteStore, sub: Submission) returns (res: Outcome<FormError>)
    requires store.Valid()
    modifies store
    ensures store.Valid()
    ensures res == CleanVerdict(old(store.quotes), sub)
    ensures store.quotes == old(store.quotes) && store.nextId == old(store.nextId)
    ensures store.sources ==
              if res != Fail(DuplicateQuote) && ChecksSource(sub) then old(store.sources) + {FormSource(sub)}
              else old(store.sources)
  {
    var text := Strip(OrEmpty(sub.text));
    var normalized := Lower(text);
    if NormalizedTaken(store.quotes, normalized, None) {
      return Fail(DuplicateQuote);
    }
    var stitle := Strip(OrEmpty(sub.sourceTitle));
    if sub.sourceType.Some? && stitle != [] {
      var source := store.GetOrCreateSource(sub.sourceType.value, stitle);
      if CountForSource(store.quotes, source, None) >= MaxQuotesPerSource {
        return Fail(SourceLimitReached(stitle));
      }
    }
    return Pass;
  }

  /** `AddQuoteForm.save`, called once the form is valid, so that every field is
      present: get or create the source by its stripped title, then
      `Quote.objects.create` with the stripped text, which runs `Quote.save`. */
  method Save(store: QuoteStore, sub: Submission) returns (res: Result<nat, set<SaveError>>)
    requires store.Valid()
    requires sub.sourceType.Some? && sub.sourceTitle.Some? && sub.text.Some? && sub.baseWeight.Some?
    modifies store
    ensures store.Valid()
    ensures store.sources == old(store.sources) + {FormSource(sub)}
    ensures var errors := FullCleanErrors(old(store.quotes), None, FormSource(sub), Some(Strip(sub.text.value)));
            if errors == {} then
              && res == Success(old(store.nextId))
              && res.value !in old(store.quotes)
              && store.quotes == old(store.quotes)[res.value := Quote(FormSource(sub), Strip(sub.text.value),
                                                                      Normalize(sub.text.value), sub.baseWeight.value, 0, 0, 0)]
              && store.nextId == old(store.nextId) + 1
            else
              res == Failure(errors) && store.quotes == old(store.quotes) && store.nextId == old(store.nextId)
  {
    var stitle := Strip(sub.sourceTitle.value);
    var source := store.GetOrCreateSource(sub.sourceType.value, stitle);
    NormalizeOfStripped(sub.text.value);
    res := store.Save(None, source, Some(Strip(sub.text.value)), sub.baseWeight.value, 0, 0, 0);
  }

  // ---------------------------------------------------------------------------
  // How the form's checks relate to the model's `full_clean`

  /** On a consistent store, the form rejects a text as a duplicate exactly when
      the model's uniqueness check on the stripped text it saves would. */
  lemma FormDuplicateMatchesModel(quotes: map<nat, Quote>, sources: set<Source>, nextId: nat,
                                  sub: Submission, source: Source)
    requires Consistent(quotes, sources, nextId)
    ensures CleanVerdict(quotes, sub) == Fail(DuplicateQuote) <==>
              DuplicateText in FullCleanErrors(quotes, None, source, Some(Strip(OrEmpty(sub.text))))
  {
    var n := Normalize(OrEmpty(sub.text));
    NormalizeOfStripped(OrEmpty(sub.text));
    if NormalizedTaken(quotes, n, None) {
      var id :| id in quotes && quotes[id].normalizedText == n;
      assert WellFormed(quotes[id], sources);
    }
  }

  /** Once the duplicate check has passed, the form reports a full source exactly
      when the model's `Quote.clean` would for a new quote of that source. */
  lemma FormLimitMatchesModel(quotes: map<nat, Quote>, sub: Submission, text: Option<string>)
    requires !NormalizedTaken(quotes, Normalize(OrEmpty(sub.text)), None)
    requires ChecksSource(sub)
    ensures CleanVerdict(quotes, sub) == Fail(SourceLimitReached(FormTitle(sub))) <==>
              SourceFull in FullCleanErrors(quotes, None, FormSource(sub), text)
  {
  }

  /** A submission the form accepts, whose stripped text is not empty and whose
      key fits the column, is saved by the model without error: the form's
      checks imply the model's. A text that is empty once stripped is saved as
      the empty text, which the model rejects; for such a text the form's
      required text field reports an error, the form is invalid, and `save` is
      never reached. The bound on the key is a real condition: the form's text
      field has no length limit, so a longer text passes the form and is then
      rejected by `Quote.save` (`OverlongTextPassesCleanFailsSave`). */
  lemma CleanPassThenSaveAccepted(quotes: map<nat, Quote>, sub: Submission)
    requires CleanVerdict(quotes, sub) == Pass
    requires ChecksSource(sub) && sub.text.Some?
    requires Strip(sub.text.value) != []
    requires |Normalize(sub.text.value)| <= NormalizedTextMaxLength
    ensures FullCleanErrors(quotes, None, FormSource(sub), Some(Strip(sub.text.value))) == {}
  {
    NormalizeOfStripped(sub.text.value);
    assert |Normalize(sub.text.value)| == |Strip(sub.text.value)|;
    FullCleanAccepts(quotes, None, FormSource(sub), Some(Strip(sub.text.value)));
  }

  /** The form never looks at the length of the text, so a text whose key is
      longer than the `normalized_text` column passes `clean` on an empty store,
      and the `Quote.save` that `save` then runs rejects it, on any store. */
  lemma OverlongTextPassesCleanFailsSave(quotes: map<nat, Quote>, sub: Submission)
    requires sub.sourceType.Some? && sub.text.Some?
    requires |Normalize(sub.text.value)| > NormalizedTextMaxLength
    ensures CleanVerdict(map[], sub) == Pass
    ensures NormalizedTextTooLong in FullCleanErrors(quotes, None, FormSource(sub), Some(Strip(sub.text.value)))
  {
    NormalizeOfStripped(sub.text.value);
  }

  /** `save` stores the stripped text, so a submitted text of whitespace only
      becomes the empty text, which `full_clean` rejects as blank. */
  lemma BlankSubmissionRejectedOnSave(quotes: map<nat, Quote>, source: Source, t: string)
    requires AllSpace(t)
    ensures TextBlank in FullCleanErrors(quotes, None, source, Some(Strip(t)))
  {
    NormalizeEmptyIffAllSpace(t);
  }

  /** A text that differs from a stored quote's only in letter case and
      surrounding whitespace is rejected by the form as a duplicate. */
  lemma FormRejectsVariantOfStored(quotes: map<nat, Quote>, sources: set<Source>, nextId: nat,
                                   sub: Submission, other: nat, pre: string, t: string, post: string)
    requires Consistent(quotes, sources, nextId)
    requires other in quotes
    requires AllSpace(pre) && AllSpace(post) && Lower(t) == Lower(quotes[other].text)
    requires sub.text == Some(pre + t + post)
    ensures CleanVerdict(quotes, sub) == Fail(DuplicateQuote)
  {
    CaseAndSpaceVariantRejected(quotes, sources, nextId, other, pre, t, post, quotes[other].source);
  }
}
