/**
  The quote store: sources, quotes, the effective-weight formula, the checks
  `Quote.save` runs through `full_clean`, and the three counter increments.

  The database is an in-memory `QuoteStore`: a map from primary key to quote
  record and the set of sources. A source is identified by its (title, type)
  pair, which the database keeps unique, so the set of sources holds at most
  one source per pair by construction.
 */
module Models {
  import opened Wrappers
  import opened Text

  datatype SourceType = Film | Book | Other

  datatype Source = Source(title: string, kind: SourceType)

  /** A stored quote row (creation timestamps are not modelled). */
  datatype Quote = Quote(
    source: Source,
    text: string,
    normalizedText: string,
    baseWeight: real,
    likes: nat,
    dislikes: nat,
    views: nat)

  /** The three weight settings: `WEIGHT_LIKE_STEP`, `WEIGHT_DISLIKE_STEP`, `MIN_EFFECTIVE_WEIGHT`. */
  datatype Weights = Weights(likeStep: real, dislikeStep: real, minWeight: real)

  const DefaultWeights: Weights := Weights(0.2, 0.1, 0.05)

  const MaxQuotesPerSource: nat := 3

  /** `max_length` of the `normalized_text` column. */
  const NormalizedTextMaxLength: nat := 2048

  /** The weight before clipping: `base_weight + like_step*likes - dislike_step*dislikes`. */
  function RawWeight(q: Quote, w: Weights): real {
    q.baseWeight + w.likeStep * (q.likes as real) - w.dislikeStep * (q.dislikes as real)
  }

  /** `Quote.effective_weight`: the raw weight, floored at the configured minimum. */
  function EffectiveWeight(q: Quote, w: Weights): (e: real)
    ensures e >= w.minWeight && e >= RawWeight(q, w)
    ensures e == RawWeight(q, w) || e == w.minWeight
  {
    var raw := RawWeight(q, w);
    if w.minWeight > raw then w.minWeight else raw
  }

  /** Above the floor the effective weight is the raw weight itself. */
  lemma EffectiveWeightExact(q: Quote, w: Weights)
    requires RawWeight(q, w) >= w.minWeight
    ensures EffectiveWeight(q, w) == RawWeight(q, w)
  {
  }

  lemma MulNonNegative(x: real, y: real)
    requires x >= 0.0 && y >= 0.0
    ensures x * y >= 0.0
  {
  }

  /** With a non-negative like step, more likes never lower the effective weight. */
  lemma EffectiveWeightMonotoneInLikes(q: Quote, likes: nat, w: Weights)
    requires w.likeStep >= 0.0 && q.likes <= likes
    ensures EffectiveWeight(q, w) <= EffectiveWeight(q.(likes := likes), w)
  {
    var d := (likes - q.likes) as real;
    assert likes as real == q.likes as real + d;
    var before, after, step := w.likeStep * (q.likes as real), w.likeStep * (likes as real), w.likeStep * d;
    assert after == before + step;
    MulNonNegative(w.likeStep, d);
    assert RawWeight(q.(likes := likes), w) == RawWeight(q, w) + step;
  }

  /** With a non-negative dislike step, more dislikes never raise the effective weight. */
  lemma EffectiveWeightAntitoneInDislikes(q: Quote, dislikes: nat, w: Weights)
    requires w.dislikeStep >= 0.0 && q.dislikes <= dislikes
    ensures EffectiveWeight(q.(dislikes := dislikes), w) <= EffectiveWeight(q, w)
  {
    var d := (dislikes - q.dislikes) as real;
    assert dislikes as real == q.dislikes as real + d;
    var before, after, step := w.dislikeStep * (q.dislikes as real), w.dislikeStep * (dislikes as real), w.dislikeStep * d;
    assert after == before + step;
    MulNonNegative(w.dislikeStep, d);
    assert RawWeight(q.(dislikes := dislikes), w) == RawWeight(q, w) - step;
  }

  // ---------------------------------------------------------------------------
  // Queries the model runs against the store

  /** Primary keys of the quotes of source `s`: `Quote.objects.filter(source=s)`. */
  function SourceIds(quotes: map<nat, Quote>, s: Source): set<nat> {
    set id | id in quotes && quotes[id].source == s
  }

  /** `filter(source=s)`, minus the quote's own row when it has a primary key, `.count()`. */
  function CountForSource(quotes: map<nat, Quote>, s: Source, pk: Option<nat>): (c: nat)
    ensures pk.Some? && pk.value in quotes && quotes[pk.value].source == s ==> c == |SourceIds(quotes, s)| - 1
    ensures pk.None? || pk.value !in quotes || quotes[pk.value].source != s ==> c == |SourceIds(quotes, s)|
  {
    var ids := SourceIds(quotes, s);
    if pk.Some? then |ids - {pk.value}| else |ids|
  }

  /** Whether a quote other than `pk` already has the normalized text `n`. */
  predicate NormalizedTaken(quotes: map<nat, Quote>, n: string, pk: Option<nat>) {
    exists id :: id in quotes && quotes[id].normalizedText == n && pk != Some(id)
  }

  // ---------------------------------------------------------------------------
  // Quote.save = normalisation + full_clean + write

  /** The kinds of validation error `full_clean` can report for a quote. */
  datatype SaveError =
    | TextBlank               // `text` is missing or empty
    | NormalizedTextTooLong   // `normalized_text` is over 2048 characters
    | DuplicateText           // another quote already has this `normalized_text`
    | SourceFull              // `Quote.clean`: the source already has 3 other quotes

  /** The errors `full_clean` collects for a quote with primary key `pk`, source
      `source` and text `text`, after `save` has set `normalized_text`. Field
      errors, `clean` and the uniqueness check all run. `normalized_text` is not
      editable, so Django skips its blank check and an empty key is accepted; its
      length validator still runs on a non-empty key. The uniqueness check skips
      the key when the key already failed its own validation, and otherwise
      looks the key up, the empty key included. */
  function FullCleanErrors(quotes: map<nat, Quote>, pk: Option<nat>, source: Source, text: Option<string>)
    : (errors: set<SaveError>)
    ensures TextBlank in errors <==> OrEmpty(text) == []
    ensures NormalizedTextTooLong in errors <==> |Normalize(OrEmpty(text))| > NormalizedTextMaxLength
    ensures DuplicateText in errors <==>
              |Normalize(OrEmpty(text))| <= NormalizedTextMaxLength
              && NormalizedTaken(quotes, Normalize(OrEmpty(text)), pk)
    ensures SourceFull in errors <==> CountForSource(quotes, source, pk) >= MaxQuotesPerSource
  {
    var raw := OrEmpty(text);
    var n := Normalize(raw);
    var fieldErrors :=
      (if raw == [] then {TextBlank} else {})
      + (if |n| > NormalizedTextMaxLength then {NormalizedTextTooLong} else {});
    var cleanErrors := if CountForSource(quotes, source, pk) >= MaxQuotesPerSource then {SourceFull} else {};
    var keyFieldOk := |n| <= NormalizedTextMaxLength;
    var uniqueErrors := if keyFieldOk && NormalizedTaken(quotes, n, pk) then {DuplicateText} else {};
    fieldErrors + cleanErrors + uniqueErrors
  }

  /** What `Quote.save` guarantees of every row it writes: a stored source, a
      non-empty text, `normalized_text` derived from the text, and a key that
      fits the column. */
  ghost predicate WellFormed(q: Quote, sources: set<Source>) {
    && q.source in sources
    && q.text != []
    && q.normalizedText == Normalize(q.text)
    && |q.normalizedText| <= NormalizedTextMaxLength
  }

  /** Primary keys start at 1 and stay below the auto-increment counter. */
  ghost predicate KeysBelow(quotes: map<nat, Quote>, nextId: nat) {
    0 < nextId && forall id :: id in quotes ==> 0 < id < nextId
  }

  /** Every stored row is well-formed. */
  ghost predicate AllWellFormed(quotes: map<nat, Quote>, sources: set<Source>) {
    forall id :: id in quotes ==> WellFormed(quotes[id], sources)
  }

  /** The unique constraint on `normalized_text`. */
  ghost predicate TextsUnique(quotes: map<nat, Quote>) {
    forall a, b :: a in quotes && b in quotes && a != b ==> quotes[a].normalizedText != quotes[b].normalizedText
  }

  /** No stored source has more than 3 quotes. */
  ghost predicate WithinSourceLimit(quotes: map<nat, Quote>, sources: set<Source>) {
    forall s :: s in sources ==> |SourceIds(quotes, s)| <= MaxQuotesPerSource
  }

  /** The store's invariant: keys below the auto-increment counter, well-formed
      rows, `normalized_text` unique, and at most 3 quotes per source. */
  ghost predicate Consistent(quotes: map<nat, Quote>, sources: set<Source>, nextId: nat) {
    && KeysBelow(quotes, nextId)
    && AllWellFormed(quotes, sources)
    && TextsUnique(quotes)
    && WithinSourceLimit(quotes, sources)
  }

  /** The row `save` writes for the given field values. */
  function Row(source: Source, text: Option<string>, baseWeight: real, likes: nat, dislikes: nat, views: nat): (q: Quote)
    ensures q.normalizedText == Normalize(q.text)
  {
    Quote(source, OrEmpty(text), Normalize(OrEmpty(text)), baseWeight, likes, dislikes, views)
  }

  /** `full_clean` accepts a save exactly when the text is present and not
      empty, its key fits the column, no other quote has the key, and the source
      has fewer than 3 other quotes. A text of whitespace only is accepted, with
      the empty key, when no other quote has that key. */
  lemma FullCleanAccepts(quotes: map<nat, Quote>, pk: Option<nat>, source: Source, text: Option<string>)
    ensures var n := Normalize(OrEmpty(text));
            FullCleanErrors(quotes, pk, source, text) == {} <==>
              && OrEmpty(text) != []
              && |n| <= NormalizedTextMaxLength
              && !NormalizedTaken(quotes, n, pk)
              && CountForSource(quotes, source, pk) < MaxQuotesPerSource
  {
    var errors := FullCleanErrors(quotes, pk, source, text);
    if errors == {} {
      assert TextBlank !in errors && NormalizedTextTooLong !in errors;
      assert DuplicateText !in errors && SourceFull !in errors;
    }
  }

  /** A text of whitespace only passes `full_clean` and is stored under the
      empty key, as long as no other quote holds that key and the source has room. */
  lemma WhitespaceOnlyTextAccepted(quotes: map<nat, Quote>, pk: Option<nat>, source: Source, t: string)
    requires t != [] && AllSpace(t)
    requires !NormalizedTaken(quotes, [], pk)
    requires CountForSource(quotes, source, pk) < MaxQuotesPerSource
    ensures Normalize(t) == []
    ensures FullCleanErrors(quotes, pk, source, Some(t)) == {}
  {
    NormalizeEmptyIffAllSpace(t);
    FullCleanAccepts(quotes, pk, source, Some(t));
  }

  lemma InsertKeepsTextsUnique(quotes: map<nat, Quote>, pk: Option<nat>, id: nat, q: Quote)
    requires TextsUnique(quotes)
    requires pk == Some(id) || (pk.None? && id !in quotes)
    requires !NormalizedTaken(quotes, q.normalizedText, pk)
    ensures TextsUnique(quotes[id := q])
  {
    var quotes' := quotes[id := q];
    forall a, b | a in quotes' && b in quotes' && a != b
      ensures quotes'[a].normalizedText != quotes'[b].normalizedText
    {
      if a == id {
        assert b in quotes && pk != Some(b);
      } else if b == id {
        assert a in quotes && pk != Some(a);
      } else {
        assert quotes'[a] == quotes[a] && quotes'[b] == quotes[b];
      }
    }
  }

  lemma InsertSourceIds(quotes: map<nat, Quote>, id: nat, q: Quote, s: Source)
    ensures SourceIds(quotes[id := q], s) == (SourceIds(quotes, s) - {id}) + (if q.source == s then {id} else {})
  {
  }

  lemma InsertKeepsSourceLimit(quotes: map<nat, Quote>, sources: set<Source>, pk: Option<nat>, id: nat, q: Quote)
    requires WithinSourceLimit(quotes, sources)
    requires pk == Some(id) || (pk.None? && id !in quotes)
    requires CountForSource(quotes, q.source, pk) < MaxQuotesPerSource
    ensures WithinSourceLimit(quotes[id := q], sources)
  {
    forall s | s in sources ensures |SourceIds(quotes[id := q], s)| <= MaxQuotesPerSource {
      var before := SourceIds(quotes, s);
      InsertSourceIds(quotes, id, q, s);
      assert |before - {id}| <= |before|;
      if s == q.source {
        assert pk.None? ==> before - {id} == before;
        assert |before - {id}| == CountForSource(quotes, s, pk);
      }
    }
  }

  lemma InsertKeepsWellFormed(quotes: map<nat, Quote>, sources: set<Source>, id: nat, q: Quote)
    requires AllWellFormed(quotes, sources) && WellFormed(q, sources)
    ensures AllWellFormed(quotes[id := q], sources)
  {
    var quotes' := quotes[id := q];
    forall k | k in quotes' ensures WellFormed(quotes'[k], sources) {
      if k != id { assert quotes'[k] == quotes[k]; }
    }
  }

  /** An accepted save keeps the store consistent. */
  lemma SaveKeepsConsistent(quotes: map<nat, Quote>, sources: set<Source>, nextId: nat,
                            pk: Option<nat>, source: Source, text: Option<string>,
                            baseWeight: real, likes: nat, dislikes: nat, views: nat)
    requires Consistent(quotes, sources, nextId)
    requires source in sources
    requires pk.Some? ==> pk.value in quotes
    requires FullCleanErrors(quotes, pk, source, text) == {}
    ensures var id := if pk.Some? then pk.value else nextId;
            Consistent(quotes[id := Row(source, text, baseWeight, likes, dislikes, views)], sources,
                       if pk.Some? then nextId else nextId + 1)
  {
    var id := if pk.Some? then pk.value else nextId;
    var q := Row(source, text, baseWeight, likes, dislikes, views);
    var nextId' := if pk.Some? then nextId else nextId + 1;
    FullCleanAccepts(quotes, pk, source, text);
    assert WellFormed(q, sources);
    assert id !in quotes ==> pk.None?;
    InsertKeepsWellFormed(quotes, sources, id, q);
    InsertKeepsTextsUnique(quotes, pk, id, q);
    InsertKeepsSourceLimit(quotes, sources, pk, id, q);
    assert KeysBelow(quotes[id := q], nextId');
  }

  /** A text whose key another stored quote already has is rejected as a duplicate. */
  lemma DuplicateRejected(quotes: map<nat, Quote>, sources: set<Source>, nextId: nat,
                          pk: Option<nat>, source: Source, text: Option<string>, other: nat)
    requires Consistent(quotes, sources, nextId)
    requires other in quotes && pk != Some(other)
    requires quotes[other].normalizedText == Normalize(OrEmpty(text))
    ensures DuplicateText in FullCleanErrors(quotes, pk, source, text)
  {
    assert WellFormed(quotes[other], sources);
  }

  /** The store rejects a text that differs from a stored one only in letter
      case and in whitespace around it ("Hello World" vs " hello world "). */
  lemma CaseAndSpaceVariantRejected(quotes: map<nat, Quote>, sources: set<Source>, nextId: nat,
                                    other: nat, pre: string, t: string, post: string, source: Source)
    requires Consistent(quotes, sources, nextId)
    requires other in quotes
    requires AllSpace(pre) && AllSpace(post) && Lower(t) == Lower(quotes[other].text)
    ensures NormalizedTaken(quotes, Normalize(pre + t + post), None)
    ensures DuplicateText in FullCleanErrors(quotes, None, source, Some(pre + t + post))
  {
    NormalizeIgnoresSurroundingSpace(pre, t, post);
    NormalizeIgnoresCase(t, quotes[other].text);
    DuplicateRejected(quotes, sources, nextId, None, source, Some(pre + t + post), other);
  }

  /** A new quote for a source that already has 3 quotes is rejected. */
  lemma FourthQuoteRejected(quotes: map<nat, Quote>, source: Source, text: Option<string>)
    requires |SourceIds(quotes, source)| >= MaxQuotesPerSource
    ensures SourceFull in FullCleanErrors(quotes, None, source, text)
  {
  }

  /** Re-saving one of a source's quotes does not count the quote against its
      own source, so a source at the limit does not block it. */
  lemma ResaveOfFullSourceAllowed(quotes: map<nat, Quote>, sources: set<Source>, nextId: nat,
                                  pk: nat, text: Option<string>)
    requires Consistent(quotes, sources, nextId)
    requires pk in quotes
    ensures SourceFull !in FullCleanErrors(quotes, Some(pk), quotes[pk].source, text)
  {
    var s := quotes[pk].source;
    assert WellFormed(quotes[pk], sources);
    assert pk in SourceIds(quotes, s);
    assert |SourceIds(quotes, s) - {pk}| == |SourceIds(quotes, s)| - 1;
  }

  /** Moving a quote to a source that already has 3 other quotes is rejected:
      only the quote's own row is left out of the count. */
  lemma MoveToFullSourceRejected(quotes: map<nat, Quote>, pk: nat, source: Source, text: Option<string>)
    requires pk in quotes && quotes[pk].source != source
    requires |SourceIds(quotes, source)| >= MaxQuotesPerSource
    ensures SourceFull in FullCleanErrors(quotes, Some(pk), source, text)
  {
    assert pk !in SourceIds(quotes, source);
    assert SourceIds(quotes, source) - {pk} == SourceIds(quotes, source);
  }

  // ---------------------------------------------------------------------------
  // The counters

  datatype Counter = Views | Likes | Dislikes

  function CounterValue(q: Quote, c: Counter): nat {
    match c
    case Views => q.views
    case Likes => q.likes
    case Dislikes => q.dislikes
  }

  /** `update(<counter>=F(<counter>) + 1)` on one row. */
  function Bump(q: Quote, c: Counter): (r: Quote)
    ensures CounterValue(r, c) == CounterValue(q, c) + 1
    ensures forall d :: d != c ==> CounterValue(r, d) == CounterValue(q, d)
    ensures r.source == q.source && r.text == q.text && r.normalizedText == q.normalizedText
    ensures r.baseWeight == q.baseWeight
  {
    match c
    case Views => q.(views := q.views + 1)
    case Likes => q.(likes := q.likes + 1)
    case Dislikes => q.(dislikes := q.dislikes + 1)
  }

  /** A like never lowers a quote's chance of being picked, as long as the like step is non-negative. */
  lemma LikeNeverLowersWeight(q: Quote, w: Weights)
    requires w.likeStep >= 0.0
    ensures EffectiveWeight(q, w) <= EffectiveWeight(Bump(q, Likes), w)
  {
    EffectiveWeightMonotoneInLikes(q, q.likes + 1, w);
  }

  /** A dislike never raises it, as long as the dislike step is non-negative. */
  lemma DislikeNeverRaisesWeight(q: Quote, w: Weights)
    requires w.dislikeStep >= 0.0
    ensures EffectiveWeight(Bump(q, Dislikes), w) <= EffectiveWeight(q, w)
  {
    EffectiveWeightAntitoneInDislikes(q, q.dislikes + 1, w);
  }

  /** A view leaves the weight as it was. */
  lemma ViewKeepsWeight(q: Quote, w: Weights)
    ensures EffectiveWeight(Bump(q, Views), w) == EffectiveWeight(q, w)
  {
  }

  lemma BumpKeepsConsistent(quotes: map<nat, Quote>, sources: set<Source>, nextId: nat, id: nat, c: Counter)
    requires Consistent(quotes, sources, nextId) && id in quotes
    ensures Consistent(quotes[id := Bump(quotes[id], c)], sources, nextId)
  {
    var q := Bump(quotes[id], c);
    var quotes' := quotes[id := q];
    assert WellFormed(quotes[id], sources);
    InsertKeepsWellFormed(quotes, sources, id, q);
    forall a, b | a in quotes' && b in quotes' && a != b
      ensures quotes'[a].normalizedText != quotes'[b].normalizedText
    {
      assert quotes'[a].normalizedText == quotes[a].normalizedText;
      assert quotes'[b].normalizedText == quotes[b].normalizedText;
    }
    forall s | s in sources ensures |SourceIds(quotes', s)| <= MaxQuotesPerSource {
      assert SourceIds(quotes', s) == SourceIds(quotes, s);
    }
    assert KeysBelow(quotes', nextId);
  }

  // ---------------------------------------------------------------------------
  // The store

  class QuoteStore {
    var quotes: map<nat, Quote>
    var sources: set<Source>
    /** The next auto-increment primary key. */
    var nextId: nat

    ghost predicate Valid()
      reads this
    {
      Consistent(quotes, sources, nextId)
    }

    constructor ()
      ensures Valid()
      ensures quotes == map[] && sources == {} && nextId == 1
    {
      quotes, sources, nextId := map[], {}, 1;
    }

    /** `Source.objects.get_or_create(type=kind, title=title)`: the one source
        with that (title, type), created when there is none yet. */
    method GetOrCreateSource(kind: SourceType, title: string) returns (s: Source)
      requires Valid()
      modifies this
      ensures Valid()
      ensures s == Source(title, kind) && s in sources
      ensures sources == old(sources) + {s}
      ensures quotes == old(quotes) && nextId == old(nextId)
    {
      s := Source(title, kind);
      if s !in sources {
        assert SourceIds(quotes, s) == {} by {
          forall id | id in quotes ensures quotes[id].source != s {
            assert WellFormed(quotes[id], sources);
          }
        }
        sources := sources + {s};
      }
    }

    /** `Quote.save` on an instance with primary key `pk` (`None` for a new quote)
        and the given field values: set `normalized_text`, run `full_clean`, and
        on success insert or overwrite the row. */
    method Save(pk: Option<nat>, source: Source, text: Option<string>,
                baseWeight: real, likes: nat, dislikes: nat, views: nat)
      returns (res: Result<nat, set<SaveError>>)
      requires Valid()
      requires source in sources
      requires pk.Some? ==> pk.value in quotes
      modifies this
      ensures Valid()
      ensures sources == old(sources)
      ensures var errors := FullCleanErrors(old(quotes), pk, source, text);
              if errors == {} then
                var id := if pk.Some? then pk.value else old(nextId);
                && res == Success(id)
                && quotes == old(quotes)[id := Row(source, text, baseWeight, likes, dislikes, views)]
                && nextId == (if pk.Some? then old(nextId) else old(nextId) + 1)
              else
                res == Failure(errors) && quotes == old(quotes) && nextId == old(nextId)
      ensures pk.None? && res.Success? ==> res.value !in old(quotes)
    {
      var errors := FullCleanErrors(quotes, pk, source, text);
      if errors != {} {
        return Failure(errors);
      }
      SaveKeepsConsistent(quotes, sources, nextId, pk, source, text, baseWeight, likes, dislikes, views);
      var id;
      if pk.Some? {
        id := pk.value;
      } else {
        id := nextId;
        nextId := nextId + 1;
      }
      quotes := quotes[id := Row(source, text, baseWeight, likes, dislikes, views)];
      res := Success(id);
    }

    /** `Quote.objects.filter(pk=id).update(<c>=F(<c>) + 1)`: one atomic step
        that raises one counter of one row, and does nothing for a missing id. */
    method Increment(id: nat, c: Counter)
      requires Valid()
      modifies this
      ensures Valid()
      ensures quotes == if id in old(quotes) then old(quotes)[id := Bump(old(quotes)[id], c)] else old(quotes)
      ensures sources == old(sources) && nextId == old(nextId)
    {
      if id in quotes {
        BumpKeepsConsistent(quotes, sources, nextId, id, c);
        quotes := quotes[id := Bump(quotes[id], c)];
      }
    }

    /** `Quote.add_view`. */
    method AddView(id: nat)
      requires Valid()
      modifies this
      ensures Valid()
      ensures id in old(quotes) ==> quotes == old(quotes)[id := old(quotes)[id].(views := old(quotes)[id].views + 1)]
      ensures id !in old(quotes) ==> quotes == old(quotes)
      ensures sources == old(sources) && nextId == old(nextId)
    {
      Increment(id, Views);
    }

    /** `Quote.add_like`. */
    method AddLike(id: nat)
      requires Valid()
      modifies this
      ensures Valid()
      ensures id in old(quotes) ==> quotes == old(quotes)[id := old(quotes)[id].(likes := old(quotes)[id].likes + 1)]
      ensures id !in old(quotes) ==> quotes == old(quotes)
      ensures sources == old(sources) && nextId == old(nextId)
    {
      Increment(id, Likes);
    }

    /** `Quote.add_dislike`. */
    method AddDislike(id: nat)
      requires Valid()
      modifies this
      ensures Valid()
      ensures id in old(quotes) ==> quotes == old(quotes)[id := old(quotes)[id].(dislikes := old(quotes)[id].dislikes + 1)]
      ensures id !in old(quotes) ==> quotes == old(quotes)
      ensures sources == old(sources) && nextId == old(nextId)
    {
      Increment(id, Dislikes);
    }
  }
}
