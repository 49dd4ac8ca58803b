# Quotes site core in Dafny

A model of the logic of a small Django site that shows random quotes. Each
quote belongs to a source (a film, a book or something else). Visitors like,
dislike and view quotes and add new ones through a form. Three pieces carry
real logic, and the model covers all three:

- **Weighted random selection** (`select_random_quote`). Every quote gets an
  effective weight: `base_weight + like_step*likes - dislike_step*dislikes`,
  floored at `min_w`. The quotes are scanned in query order, summing weights,
  and the first quote whose running sum reaches the draw `r` is chosen. When no
  running sum reaches `r`, the last quote is chosen.
- **The quote store** (`Quote` and `Source` in `models.py`). `save` computes
  `normalized_text = (text or "").strip().lower()` and runs `full_clean`, which
  makes four checks:
  - the text is neither missing nor empty;
  - the key `normalized_text` is at most 2048 characters long;
  - no other quote has the same `normalized_text`;
  - the source has at most 3 quotes, where a re-saved quote does not count
    against itself.

  The like, dislike and view counters are raised one at a time.
- **The submission form** (`AddQuoteForm`). `clean` first checks for a
  duplicate, then gets or creates the source and checks its quote count. `save`
  gets or creates the source and creates the quote.

Modules, one file each:

- `wrappers.dfy` (`Wrappers`): `Option`, `Result` and `Outcome`.
- `text.dfy` (`Text`): Python's `strip` and `lower` over ASCII, and the
  duplicate key `Normalize`.
- `models.dfy` (`Models`): `Source` and `Quote` as values, the effective
  weight, the errors `full_clean` reports (`FullCleanErrors`), the store
  invariant `Consistent`, and `class QuoteStore`.
  - `QuoteStore` holds a map from primary key to `Quote`, the set of sources,
    and the auto-increment counter.
  - Its methods are `GetOrCreateSource`, `Save`, `AddView`, `AddLike` and
    `AddDislike`.
- `services.dfy` (`Services`): `SelectRandomQuote` with its two loops,
  factored as `CandidatePairs` and `Scan`. Each loop is proved against the
  specification functions `Candidates`, `Total`, `CumWeight` and `PickIndex`.
- `forms.dfy` (`Forms`): `Clean` and `Save` of the form as methods on the
  store. `CleanVerdict` is the specification `Clean` is proved against.

Four behaviours of the code are worth stating, because a reader might expect
otherwise:

- Zero total weight. When every candidate weight is 0, which needs a floor
  `min_w` of 0 or less, `random.uniform(0, 0)` is 0. The scan then picks the
  first candidate, as long as that candidate's weight is not negative
  (`Services.ZeroDrawPicksFirst`). The pick is not uniform. With a negative
  floor, weights such as -1 and 1 also total 0, and the scan picks the second.
- Base weight. Only the form's field requires `base_weight >= 0`
  (`quotes/forms.py:15`). `Quote.save` accepts any base weight, and so does
  `Models.QuoteStore.Save`.
- Whitespace-only text. `normalized_text` is not editable, so `full_clean`
  does not check it for blankness. A text of whitespace only is therefore
  stored under the empty key (`Models.WhitespaceOnlyTextAccepted`), and only
  the uniqueness of that key stops a second one.
- Long text. The form's text field has no length limit (`quotes/forms.py:12-14`),
  and its `clean` never looks at the length. A text whose key is longer than
  2048 characters therefore passes `clean`, and the `Quote.objects.create` in
  `save` (`quotes/forms.py:37`) then fails `full_clean`
  (`Forms.OverlongTextPassesCleanFailsSave`).

## Model

| member | source | states |
|---|---|---|
| Text.OrEmpty | quotes/models.py:68 | definition of `x or ""` for an optional text: the text itself when present, the empty text when missing; its `ensures` only spells out these two cases |
| Text.IsSpace | quotes/models.py:68 | `str.isspace()` over ASCII: tab, line feed, vertical tab, form feed, carriage return, the four information separators and space; a predicate with no contract, used by `TrimLeftSpec` and `TrimRightSpec` |
| Text.TrimLeft | quotes/models.py:68 | `str.lstrip()`; no contract of its own, characterised by `Text.TrimLeftSpec` |
| Text.TrimRight | quotes/models.py:68 | `str.rstrip()`; no contract of its own, characterised by `Text.TrimRightSpec` |
| Text.Strip | quotes/models.py:68 | `str.strip()`: the result is no longer than the text; `StripTrimmed`, `StripDecomposition` and `StripCharacterization` pin it down |
| Text.LowerChar | quotes/models.py:68 | `lower()` on one character yields no upper-case letter, keeps lower-case letters, and never turns a space into a non-space or the reverse |
| Text.Lower | quotes/models.py:68 | `lower()` keeps the length and lower-cases each character in place |
| Text.TrimLeftSpec | quotes/models.py:68 | `lstrip` yields a suffix; everything it drops is whitespace; the result does not start with whitespace |
| Text.TrimRightSpec | quotes/models.py:68 | `rstrip` yields a prefix; everything it drops is whitespace; the result does not end with whitespace |
| Text.StripTrimmed | quotes/models.py:68 | a stripped text neither starts nor ends with whitespace |
| Text.Normalize | quotes/models.py:68 | the key is no longer than the text and is already lower-case |
| Text.StripCharacterization | quotes/models.py:68 | stripping `pre + t + post` yields `t` when `pre` and `post` are whitespace and `t` is not whitespace-bounded |
| Text.TrimLeftSplit | quotes/models.py:68 | every text is its leading whitespace followed by its `lstrip` |
| Text.TrimRightSplit | quotes/models.py:68 | every text is its `rstrip` followed by its trailing whitespace |
| Text.StripDecomposition | quotes/models.py:68 | every text is whitespace, then its stripped core, then whitespace |
| Text.StripIdempotent | quotes/models.py:68 | stripping twice is stripping once |
| Text.StripIgnoresSurroundingSpace | quotes/models.py:68 | whitespace added around a text does not change its stripped form |
| Text.LowerAppend | quotes/models.py:68 | lower-casing distributes over concatenation |
| Text.LowerKeepsSpace | quotes/models.py:68 | lower-casing an all-whitespace text keeps it all whitespace |
| Text.LowerStripCommute | quotes/models.py:68 | `s.strip().lower() == s.lower().strip()` |
| Text.NormalizeIgnoresCase | quotes/models.py:68 | texts equal up to letter case get the same `normalized_text` |
| Text.NormalizeIgnoresSurroundingSpace | quotes/models.py:68 | texts equal up to surrounding whitespace get the same `normalized_text` |
| Text.NormalizeOfStripped | quotes/models.py:68 | normalizing an already stripped text gives the same key, so the form's stripping before save changes no key |
| Text.NormalizeEmptyIffAllSpace | quotes/models.py:68 | the key is empty exactly when the text is all whitespace |
| Models.RawWeight | quotes/models.py:78 | `base_weight + like_step*likes - dislike_step*dislikes`, the value `EffectiveWeight` floors; no contract of its own, bounded by `EffectiveWeight` and moved by the monotonicity lemmas |
| Models.EffectiveWeight | quotes/models.py:72-80 | the weight is at least `min_w` and at least the raw weight, and is one of the two |
| Models.EffectiveWeightExact | quotes/models.py:77-80 | when the raw weight reaches `min_w`, the effective weight equals it |
| Models.EffectiveWeightMonotoneInLikes | quotes/models.py:77-80 | with `like_step >= 0`, more likes never lower the weight |
| Models.EffectiveWeightAntitoneInDislikes | quotes/models.py:77-80 | with `dislike_step >= 0`, more dislikes never raise the weight |
| Models.SourceIds | quotes/models.py:58 | the keys of the quotes of a source, `Quote.objects.filter(source=s)`; no contract of its own, exactly updated by `InsertSourceIds` and bounded by the store invariant |
| Models.CountForSource | quotes/models.py:58-61 | the number of quotes of the source, one less when the quote being saved is stored and belongs to that source (its own row is excluded) |
| Models.NormalizedTaken | quotes/models.py:37 | whether a quote other than the one being saved holds the key; a predicate with no contract, used by `FullCleanErrors` |
| Models.FullCleanErrors | quotes/models.py:55-70 | per error kind, iff: the text is missing or empty; the key is over 2048 characters; the key fits and another quote holds it (the empty key included); the source has 3 or more other quotes |
| Models.Row | quotes/models.py:68-70 | definition of the row `save` writes: the given fields, the missing text as the empty text; its `ensures` only states that `normalized_text` is `Normalize` of the stored text |
| Models.WellFormed | quotes/models.py:35-70 | what `save` guarantees of each row it writes: its source is stored, its text is not empty, `normalized_text` is `Normalize` of the text, and the key fits 2048 characters; a predicate with no contract, kept by `InsertKeepsWellFormed` |
| Models.KeysBelow | quotes/models.py:67-70 | the auto-increment primary key: every stored key is positive and below the next key; a predicate with no contract, part of `Consistent` |
| Models.AllWellFormed | quotes/models.py:67-70 | every stored row is `WellFormed`; a predicate with no contract, kept by `InsertKeepsWellFormed` |
| Models.TextsUnique | quotes/models.py:37 | the `unique=True` constraint: no two stored quotes share a `normalized_text`; a predicate with no contract, kept by `InsertKeepsTextsUnique` |
| Models.WithinSourceLimit | quotes/models.py:55-65 | every stored source has at most 3 quotes; a predicate with no contract, kept by `InsertKeepsSourceLimit` |
| Models.Consistent | quotes/models.py:35-70 | the store invariant: `KeysBelow`, `AllWellFormed`, `TextsUnique` and `WithinSourceLimit` together; a predicate with no contract, kept by `SaveKeepsConsistent` and `BumpKeepsConsistent` |
| Models.QuoteStore.Valid | quotes/models.py:35-70 | the class invariant of the store: `Consistent` of its quotes, sources and next key; required and ensured by every method of `QuoteStore` and of the form |
| Models.FullCleanAccepts | quotes/models.py:55-70 | `full_clean` passes iff the text is present and not empty, its key fits 2048 characters, no other quote has the key, and the source has fewer than 3 other quotes |
| Models.WhitespaceOnlyTextAccepted | quotes/models.py:37-70 | a whitespace-only text gets the empty key and passes `full_clean` when no other quote holds that key and the source has room |
| Models.InsertKeepsTextsUnique | quotes/models.py:37 | writing a row whose key no other quote has keeps `normalized_text` unique |
| Models.InsertSourceIds | quotes/models.py:58 | after writing a row, the source's quotes are the old ones minus that row, plus it if it names the source |
| Models.InsertKeepsSourceLimit | quotes/models.py:55-65 | writing a row whose source has fewer than 3 other quotes keeps every source at 3 or fewer |
| Models.InsertKeepsWellFormed | quotes/models.py:67-70 | writing a well-formed row keeps every row well-formed |
| Models.SaveKeepsConsistent | quotes/models.py:55-70 | a save that `full_clean` accepts keeps the store invariant: keys below the counter, rows well-formed, keys unique, at most 3 quotes per source |
| Models.DuplicateRejected | quotes/models.py:37 | a save whose key another stored quote already has is rejected with a duplicate error |
| Models.CaseAndSpaceVariantRejected | quotes/models.py:68-69 | a new text that differs from a stored one only in case and surrounding whitespace is rejected as a duplicate |
| Models.FourthQuoteRejected | quotes/models.py:58-65 | a new quote for a source that already has 3 quotes is rejected |
| Models.ResaveOfFullSourceAllowed | quotes/models.py:59-61 | re-saving a stored quote never trips the limit of its own source, because its own row is excluded |
| Models.MoveToFullSourceRejected | quotes/models.py:58-61 | moving a stored quote to another source that has 3 quotes is rejected |
| Models.Bump | quotes/models.py:83-90 | an increment raises its counter by one and leaves every other counter and field unchanged |
| Models.LikeNeverLowersWeight | quotes/models.py:86-87 | with `like_step >= 0`, a like never lowers the effective weight |
| Models.DislikeNeverRaisesWeight | quotes/models.py:89-90 | with `dislike_step >= 0`, a dislike never raises the effective weight |
| Models.ViewKeepsWeight | quotes/models.py:83-84 | a view leaves the effective weight unchanged |
| Models.BumpKeepsConsistent | quotes/models.py:83-90 | an increment keeps the store invariant |
| Models.QuoteStore.GetOrCreateSource | quotes/models.py:20-21 | returns the source with that (title, type), adding it only when missing, so a (title, type) pair is never stored twice; quotes unchanged |
| Models.QuoteStore.Save | quotes/models.py:67-70 | on a clean pass, writes the row with `normalized_text` set at the new or given key and advances the counter only for a new quote; otherwise returns every `full_clean` error and changes nothing; keeps the invariant |
| Models.QuoteStore.Increment | quotes/models.py:83-90 | raises one counter of a stored row and nothing else; a missing id changes nothing |
| Models.QuoteStore.AddView | quotes/models.py:83-84 | `views` of that row goes up by one and nothing else changes; a missing id changes nothing |
| Models.QuoteStore.AddLike | quotes/models.py:86-87 | `likes` of that row goes up by one and nothing else changes; a missing id changes nothing |
| Models.QuoteStore.AddDislike | quotes/models.py:89-90 | `dislikes` of that row goes up by one and nothing else changes; a missing id changes nothing |
| Services.ListsStore | quotes/services.py:20-27 | the query's listing of the store: only stored ids, every stored id, none twice; a predicate with no contract, required by `SelectRandomQuote` |
| Services.CandidatesCoverStore | quotes/services.py:20-29 | over a listing of the store, the candidate ids are exactly the stored ids, each appearing once |
| Services.Candidates | quotes/services.py:26-29 | one pair per quote in query order, carrying the quote's id and its `effective_weight`, each at least `min_w` |
| Services.Total | quotes/services.py:34 | `sum(w for _, w in pairs)`; no contract of its own, related to the running sums by `LastCumWeightIsTotal` and bounded by `TotalAtLeast` |
| Services.Uniform | quotes/services.py:35 | `random.uniform(a, b)` as `a + (b - a) * u` for the draw `u = random.random()`; no contract of its own, bounded by `UniformWithin` |
| Services.CumWeight | quotes/services.py:38-39 | the value of `acc` after candidate `k` is added, the total of the first `k + 1` weights; no contract of its own, stepped by `CumWeightStep` |
| Services.CumWeightStep | quotes/services.py:38-39 | each running sum is the previous one plus the next weight |
| Services.FirstReaching | quotes/services.py:38-42 | finds the first index whose running sum reaches `r`, or reports that none does |
| Services.PickIndex | quotes/services.py:36-42 | the picked index is in range, every earlier running sum is below `r`, and its own sum reaches `r` unless it is the last candidate |
| Services.EarlierQualifierWins | quotes/services.py:38-42 | no candidate after one whose running sum reaches `r` is picked |
| Services.SingleCandidatePicked | quotes/services.py:37-42 | a single candidate is picked for any draw |
| Services.LastCumWeightIsTotal | quotes/services.py:34-39 | the last running sum is the total |
| Services.NoFallbackWithinTotal | quotes/services.py:34-42 | for `r <= total` some running sum reaches `r`, so the fallback is never used |
| Services.CumWeightMonotone | quotes/services.py:38-39 | with non-negative weights the running sums never decrease |
| Services.PickedIffDrawInStretch | quotes/services.py:34-42 | with non-negative weights and `r <= total`, candidate `k` is picked iff `r` lies in its stretch (previous sum, own sum], whose length is its weight |
| Services.TotalAtLeast | quotes/services.py:28-34 | weights each at least `m` sum to at least `m` times their number |
| Services.UniformWithin | quotes/services.py:35 | `random.uniform(a, b)` from a draw in [0, 1] lies in [a, b] |
| Services.DrawNeverFallsBack | quotes/services.py:28-42 | with `min_w > 0` and a non-empty store, the total is positive and the scan always finds a running sum reaching the draw |
| Services.ZeroDrawPicksFirst | quotes/services.py:34-42 | when the total is 0, every draw is 0 and the first candidate is picked, provided its weight is not negative |
| Services.DefaultsNeverFallBack | quotes/services.py:16-42 | with the default settings (floor 0.05) a non-empty store has a positive total and no draw in [0, 1] needs the fallback |
| Services.OneToThreeSplit | quotes/services.py:34-42 | for weights 1 and 3 the second candidate is picked exactly for draws in (1, 4] |
| Services.CandidatePairs | quotes/services.py:26-29 | the first loop builds exactly `Candidates` for the query order |
| Services.Scan | quotes/services.py:36-42 | the second loop returns the id at `PickIndex` of the draw |
| Services.SelectRandomQuote | quotes/services.py:11-44 | no quote iff the store is empty; otherwise the stored quote at `PickIndex` for the draw `uniform(0, total)` |
| Forms.FormTitle | quotes/forms.py:26 | definition of `(source_title or "").strip()`: the stripped title when present, the empty title when missing; its `ensures` only spells out these two cases |
| Forms.ChecksSource | quotes/forms.py:27 | `if stype and stitle`: a type is given and the stripped title is not empty; a predicate with no contract |
| Forms.FormSource | quotes/forms.py:28 | the (stripped title, type) source that `clean` and `save` get or create; no contract of its own, named in the contracts of `Forms.Clean` and `Forms.Save` |
| Forms.CleanVerdict | quotes/forms.py:17-31 | the verdict of `clean`: a duplicate if any quote holds the key of the stripped, lower-cased text; else a full source if a type and a non-empty stripped title are given and that source has 3 or more quotes; else a pass. No contract of its own; `Forms.Clean` is proved equal to it, and `FormDuplicateMatchesModel` and `FormLimitMatchesModel` relate it to `FullCleanErrors` |
| Forms.Clean | quotes/forms.py:17-31 | returns `CleanVerdict`: a duplicate first, then a full source; adds the (type, stripped title) source exactly when the duplicate check passed and both are non-empty; quotes unchanged |
| Forms.Save | quotes/forms.py:33-42 | gets or creates the source by stripped title; stores the stripped text, its key, the submitted base weight and zero counters under a new key, or returns the `full_clean` errors and stores nothing |
| Forms.FormDuplicateMatchesModel | quotes/forms.py:19-22 | on a consistent store, the form reports a duplicate iff the model's uniqueness check on the saved text would |
| Forms.FormLimitMatchesModel | quotes/forms.py:25-30 | once the duplicate check passes, the form reports a full source iff the model's `clean` would for a new quote of that source |
| Forms.CleanPassThenSaveAccepted | quotes/forms.py:17-42 | a submission the form accepts, whose stripped text is not empty and whose key fits 2048 characters, is saved without error |
| Forms.OverlongTextPassesCleanFailsSave | quotes/forms.py:12-42 | a text whose key is over 2048 characters passes the form's `clean` on an empty store, and its `save` is rejected by `full_clean` on any store |
| Forms.BlankSubmissionRejectedOnSave | quotes/forms.py:37-41 | a submitted text of whitespace only is stripped to the empty text, which `full_clean` rejects as blank |
| Forms.FormRejectsVariantOfStored | quotes/forms.py:19-22 | a text equal to a stored one up to case and surrounding whitespace is rejected by the form |

## Left out

- Views, URL routing, templates, the admin and the settings module are not part of this model. The three weight settings are a `Weights` parameter; `DefaultWeights` holds the defaults 0.2, 0.1 and 0.05, used by `Services.DefaultsNeverFallBack`.
- Randomness: the draw `u = random.random()` is a parameter of `SelectRandomQuote`. The probability of each pick is not modelled; `Services.PickedIffDrawInStretch` states the stretch of draws that picks each candidate.
- Services.SelectRandomQuote: the query order (the `Meta.ordering` on likes, views and `created_at`) is a parameter that lists each stored quote exactly once (`Services.ListsStore`). It is not derived from the rows.
- Floating point: weights and sums are `real`, so rounding, and the rounding drift that the fallback guards against, are not modelled.
- Concurrency: each F-expression update is one atomic step on the store. Races between a check and an insert, and the database raising an integrity error, are not modelled.
- Text.IsSpace and Text.LowerChar: whitespace and lower-casing cover ASCII only, not Unicode.
- The form's field validation is not modelled: required fields, choices, `max_length` 255 on the title, `min_value` on the base weight, and `CharField`'s own stripping. A `Submission` is the form's `cleaned_data`, where a field that failed validation is `None`. Of the model's field validation, `Models.FullCleanErrors` covers the blank and null check on `text` and the length limit on `normalized_text`. The `max_length` of a source's title and type is not modelled, because sources are saved through `get_or_create`, which does not run `full_clean`.
- Models.QuoteStore.Save: a save with an explicit primary key requires that key to be stored. Saving an unsaved instance under a chosen new key is not modelled.
- Models.FullCleanErrors: reports the kinds of errors only, not Django's messages. `Forms.FormError` keeps the title that the form's message quotes.
- Forms.Save: a `full_clean` failure is returned as a `Failure`. The source raises it as an exception, which the view does not catch.
- Models.QuoteStore.AddView, Models.QuoteStore.AddLike, Models.QuoteStore.AddDislike: counters are unbounded, so the database's upper limit on a positive integer field is not modelled.
- `created_at` timestamps, `__str__` and the sort orders of the admin and the views are not modelled.
