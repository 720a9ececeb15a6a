/** Mood fusion: a weighted mean of the supplied estimates that carry signal,
    with the fused confidence and the source tag decided by which estimates
    were supplied at all. */
module MoodFusion {
  import opened Wrappers
  import opened Numerics
  import opened MoodTypes

  /** Optional per-source weight overrides (the `weights` dictionary). */
  datatype Weights = Weights(text: Option<real>, behavioral: Option<real>)

  const NoWeights: Weights := Weights(None, None)

  datatype Source = TextPrimary | BehavioralPrimary | TextOnly | BehavioralOnly | NoSource

  function SourceName(s: Source): string {
    match s
    case TextPrimary => "text_primary"
    case BehavioralPrimary => "behavioral_primary"
    case TextOnly => "text_only"
    case BehavioralOnly => "behavioral_only"
    case NoSource => "none"
  }

  /** The raw inputs, echoed for traceability. */
  datatype Components = Components(text: Option<MoodEstimate>, behavioral: Option<MoodEstimate>)

  datatype FusedMood = FusedMood(
    valence: real, arousal: real, confidence: real,
    source: Source, components: Option<Components>)

  const NoneFused: FusedMood := FusedMood(0.0, 0.3, 0.0, NoSource, None)

  /** One entry of the `moods` list. */
  datatype Contribution = Contribution(valence: real, arousal: real, weight: real)

  /** The estimate is supplied and its confidence is positive. */
  predicate Usable(e: Option<MoodEstimate>) {
    e.Some? && e.value.confidence > 0.0
  }

  /** The weight a usable estimate contributes, 0 for an excluded one. */
  function WeightOf(e: Option<MoodEstimate>, override: Option<real>): real {
    if Usable(e) then override.GetOr(e.value.confidence) else 0.0
  }

  function SumValenceWeight(ms: seq<Contribution>): real {
    if ms == [] then 0.0 else SumValenceWeight(ms[..|ms| - 1]) + ms[|ms| - 1].valence * ms[|ms| - 1].weight
  }

  function SumArousalWeight(ms: seq<Contribution>): real {
    if ms == [] then 0.0 else SumArousalWeight(ms[..|ms| - 1]) + ms[|ms| - 1].arousal * ms[|ms| - 1].weight
  }

  function SumWeight(ms: seq<Contribution>): real {
    if ms == [] then 0.0 else SumWeight(ms[..|ms| - 1]) + ms[|ms| - 1].weight
  }

  /** The contribution of one estimate: none unless it is usable. */
  function ContributionOf(e: Option<MoodEstimate>, override: Option<real>): seq<Contribution> {
    if Usable(e) then [Contribution(e.value.valence, e.value.arousal, WeightOf(e, override))] else []
  }

  /** The `moods` list: the usable estimates, text first, with their weights. */
  function Contributions(t: Option<MoodEstimate>, b: Option<MoodEstimate>, ws: Weights): seq<Contribution> {
    ContributionOf(t, ws.text) + ContributionOf(b, ws.behavioral)
  }

  function FusedConfidence(t: Option<MoodEstimate>, b: Option<MoodEstimate>): real {
    if t.Some? && b.Some? then (t.value.confidence + b.value.confidence) / 2.0
    else if t.Some? then t.value.confidence
    else if b.Some? then b.value.confidence
    else 0.0
  }

  function SourceOf(t: Option<MoodEstimate>, b: Option<MoodEstimate>): Source {
    if t.Some? && b.Some? then
      (if t.value.confidence > b.value.confidence then TextPrimary else BehavioralPrimary)
    else if t.Some? then TextOnly
    else BehavioralOnly
  }

  /** `MoodFusion.fuse` as a function of its inputs. */
  function FuseSpec(t: Option<MoodEstimate>, b: Option<MoodEstimate>, ws: Weights): FusedMood {
    var ms := Contributions(t, b, ws);
    if ms == [] || SumWeight(ms) == 0.0 then NoneFused
    else
      FusedMood(
        Round3(SumValenceWeight(ms) / SumWeight(ms)),
        Round3(SumArousalWeight(ms) / SumWeight(ms)),
        Round3(FusedConfidence(t, b)),
        SourceOf(t, b),
        Some(Components(t, b)))
  }

  lemma SumsAppend(ms: seq<Contribution>, c: Contribution)
    ensures SumValenceWeight(ms + [c]) == SumValenceWeight(ms) + c.valence * c.weight
    ensures SumArousalWeight(ms + [c]) == SumArousalWeight(ms) + c.arousal * c.weight
    ensures SumWeight(ms + [c]) == SumWeight(ms) + c.weight
  {
    assert (ms + [c])[..|ms|] == ms;
  }

  /** Once the weighted means, the confidence and the source are known, the
      result is their rounding, with the components echoed. */
  lemma FuseSpecReduces(t: Option<MoodEstimate>, b: Option<MoodEstimate>, ws: Weights,
                        v: real, a: real, c: real, s: Source)
    requires Contributions(t, b, ws) != [] && SumWeight(Contributions(t, b, ws)) != 0.0
    requires v == SumValenceWeight(Contributions(t, b, ws)) / SumWeight(Contributions(t, b, ws))
    requires a == SumArousalWeight(Contributions(t, b, ws)) / SumWeight(Contributions(t, b, ws))
    requires c == FusedConfidence(t, b) && s == SourceOf(t, b)
    ensures FuseSpec(t, b, ws) == FusedMood(Round3(v), Round3(a), Round3(c), s, Some(Components(t, b)))
  {
  }

  /** `MoodFusion.fuse`: collect the usable estimates with their weights and a
      running total weight, then reduce. */
  method Fuse(textMood: Option<MoodEstimate>, behavioralMood: Option<MoodEstimate>, weights: Weights)
    returns (r: FusedMood)
    ensures r == FuseSpec(textMood, behavioralMood, weights)
  {
    var moods: seq<Contribution> := [];
    var totalWeight := 0.0;
    if textMood.Some? && textMood.value.confidence > 0.0 {
      var weight := weights.text.GetOr(textMood.value.confidence);
      moods := moods + [Contribution(textMood.value.valence, textMood.value.arousal, weight)];
      totalWeight := totalWeight + weight;
    }
    assert moods == ContributionOf(textMood, weights.text) && totalWeight == SumWeight(moods);
    if behavioralMood.Some? && behavioralMood.value.confidence > 0.0 {
      var weight := weights.behavioral.GetOr(behavioralMood.value.confidence);
      var c := Contribution(behavioralMood.value.valence, behavioralMood.value.arousal, weight);
      SumsAppend(moods, c);
      moods := moods + [c];
      totalWeight := totalWeight + weight;
    }
    assert moods == Contributions(textMood, behavioralMood, weights) && totalWeight == SumWeight(moods);
    if moods == [] || totalWeight == 0.0 {
      return NoneFused;
    }
    var fusedValence := SumValenceWeight(moods) / totalWeight;
    var fusedArousal := SumArousalWeight(moods) / totalWeight;

    var fusedConfidence;
    if textMood.Some? && behavioralMood.Some? {
      fusedConfidence := (textMood.value.confidence + behavioralMood.value.confidence) / 2.0;
    } else if textMood.Some? {
      fusedConfidence := textMood.value.confidence;
    } else if behavioralMood.Some? {
      fusedConfidence := behavioralMood.value.confidence;
    } else {
      fusedConfidence := 0.0;
    }
    assert fusedConfidence == FusedConfidence(textMood, behavioralMood);

    var source;
    if textMood.Some? && behavioralMood.Some? {
      if textMood.value.confidence > behavioralMood.value.confidence {
        source := TextPrimary;
      } else {
        source := BehavioralPrimary;
      }
    } else if textMood.Some? {
      source := TextOnly;
    } else {
      source := BehavioralOnly;
    }
    assert source == SourceOf(textMood, behavioralMood);

    FuseSpecReduces(textMood, behavioralMood, weights, fusedValence, fusedArousal, fusedConfidence, source);
    var roundedValence := Round3(fusedValence);
    var roundedArousal := Round3(fusedArousal);
    var roundedConfidence := Round3(fusedConfidence);
    r := FusedMood(roundedValence, roundedArousal, roundedConfidence, source,
                   Some(Components(textMood, behavioralMood)));
  }

  /** The overrides, when given, are non-negative (the defaults, confidences
      of usable estimates, are positive). */
  predicate NonNegativeWeights(ws: Weights) {
    (ws.text.Some? ==> ws.text.value >= 0.0) && (ws.behavioral.Some? ==> ws.behavioral.value >= 0.0)
  }

  /** The running total is the sum of the two per-source weights. */
  lemma TotalWeight(t: Option<MoodEstimate>, b: Option<MoodEstimate>, ws: Weights)
    ensures SumWeight(Contributions(t, b, ws)) == WeightOf(t, ws.text) + WeightOf(b, ws.behavioral)
    ensures Contributions(t, b, ws) == [] <==> !Usable(t) && !Usable(b)
  {
    var ct, cb := ContributionOf(t, ws.text), ContributionOf(b, ws.behavioral);
    if cb != [] {
      SumsAppend(ct, cb[0]);
      assert ct + cb == ct + [cb[0]];
    } else {
      assert ct + cb == ct;
    }
  }

  /** The sentinel comes back exactly when no estimate is usable or the
      weights cancel; otherwise the components echo the inputs. */
  lemma SentinelRule(t: Option<MoodEstimate>, b: Option<MoodEstimate>, ws: Weights)
    ensures FuseSpec(t, b, ws).source == NoSource <==>
              (!Usable(t) && !Usable(b)) || WeightOf(t, ws.text) + WeightOf(b, ws.behavioral) == 0.0
    ensures FuseSpec(t, b, ws).source == NoSource ==> FuseSpec(t, b, ws) == NoneFused
    ensures FuseSpec(t, b, ws).source != NoSource ==> FuseSpec(t, b, ws).components == Some(Components(t, b))
  {
    TotalWeight(t, b, ws);
  }

  lemma NothingSupplied()
    ensures FuseSpec(None, None, NoWeights) == NoneFused
  {
  }

  /** A sum of weighted values with non-negative weights lies between the
      least and the greatest value times the total weight. */
  lemma {:induction false} ValenceSumBounds(ms: seq<Contribution>, lo: real, hi: real)
    requires forall i | 0 <= i < |ms| :: ms[i].weight >= 0.0 && lo <= ms[i].valence <= hi
    ensures lo * SumWeight(ms) <= SumValenceWeight(ms) <= hi * SumWeight(ms)
  {
    if ms != [] {
      var init, c := ms[..|ms| - 1], ms[|ms| - 1];
      assert forall i | 0 <= i < |init| :: init[i] == ms[i];
      ValenceSumBounds(init, lo, hi);
      var s0, w0 := SumValenceWeight(init), SumWeight(init);
      assert SumValenceWeight(ms) == s0 + c.valence * c.weight;
      assert SumWeight(ms) == w0 + c.weight;
      StepBounds(s0, w0, c.valence, c.weight, lo, hi);
    }
  }

  lemma {:induction false} ArousalSumBounds(ms: seq<Contribution>, lo: real, hi: real)
    requires forall i | 0 <= i < |ms| :: ms[i].weight >= 0.0 && lo <= ms[i].arousal <= hi
    ensures lo * SumWeight(ms) <= SumArousalWeight(ms) <= hi * SumWeight(ms)
  {
    if ms != [] {
      var init, c := ms[..|ms| - 1], ms[|ms| - 1];
      assert forall i | 0 <= i < |init| :: init[i] == ms[i];
      ArousalSumBounds(init, lo, hi);
      var s0, w0 := SumArousalWeight(init), SumWeight(init);
      assert SumArousalWeight(ms) == s0 + c.arousal * c.weight;
      assert SumWeight(ms) == w0 + c.weight;
      StepBounds(s0, w0, c.arousal, c.weight, lo, hi);
    }
  }

  /** One more weighted value keeps the running sum within bounds. */
  lemma StepBounds(s: real, w0: real, x: real, w: real, lo: real, hi: real)
    requires lo * w0 <= s <= hi * w0
    requires w >= 0.0 && lo <= x <= hi
    ensures lo * (w0 + w) <= s + x * w <= hi * (w0 + w)
  {
    assert lo * w <= x * w <= hi * w;
  }

  /** The weighted means of contributions with non-negative weights and a
      positive total lie within the bounds of the values. */
  lemma ValenceMeanBetween(ms: seq<Contribution>, lo: real, hi: real)
    requires forall i | 0 <= i < |ms| :: ms[i].weight >= 0.0 && lo <= ms[i].valence <= hi
    requires SumWeight(ms) > 0.0
    ensures lo <= SumValenceWeight(ms) / SumWeight(ms) <= hi
  {
    ValenceSumBounds(ms, lo, hi);
    MeanBetween(SumValenceWeight(ms), SumWeight(ms), lo, hi);
  }

  lemma ArousalMeanBetween(ms: seq<Contribution>, lo: real, hi: real)
    requires forall i | 0 <= i < |ms| :: ms[i].weight >= 0.0 && lo <= ms[i].arousal <= hi
    requires SumWeight(ms) > 0.0
    ensures lo <= SumArousalWeight(ms) / SumWeight(ms) <= hi
  {
    ArousalSumBounds(ms, lo, hi);
    MeanBetween(SumArousalWeight(ms), SumWeight(ms), lo, hi);
  }

  lemma MeanBetween(s: real, w: real, lo: real, hi: real)
    requires w > 0.0 && lo * w <= s <= hi * w
    ensures lo <= s / w <= hi
  {
  }

  /** With non-negative weights, the fused valence and arousal lie between
      the rounded extremes of the usable components. */
  lemma FusedBetween(t: Option<MoodEstimate>, b: Option<MoodEstimate>, ws: Weights, lv: real, hv: real, la: real, ha: real)
    requires NonNegativeWeights(ws)
    requires Usable(t) ==> lv <= t.value.valence <= hv && la <= t.value.arousal <= ha
    requires Usable(b) ==> lv <= b.value.valence <= hv && la <= b.value.arousal <= ha
    requires FuseSpec(t, b, ws).source != NoSource
    ensures Round3(lv) <= FuseSpec(t, b, ws).valence <= Round3(hv)
    ensures Round3(la) <= FuseSpec(t, b, ws).arousal <= Round3(ha)
  {
    var ms := Contributions(t, b, ws);
    ContributionsBounded(t, b, ws, lv, hv, la, ha);
    TotalWeight(t, b, ws);
    var w := SumWeight(ms);
    assert w > 0.0;
    ValenceMeanBetween(ms, lv, hv);
    ArousalMeanBetween(ms, la, ha);
    var v, a := SumValenceWeight(ms) / w, SumArousalWeight(ms) / w;
    assert FuseSpec(t, b, ws).valence == Round3(v) && FuseSpec(t, b, ws).arousal == Round3(a);
    Round3Monotone(lv, v);
    Round3Monotone(v, hv);
    Round3Monotone(la, a);
    Round3Monotone(a, ha);
  }

  lemma ContributionsBounded(t: Option<MoodEstimate>, b: Option<MoodEstimate>, ws: Weights, lv: real, hv: real, la: real, ha: real)
    requires NonNegativeWeights(ws)
    requires Usable(t) ==> lv <= t.value.valence <= hv && la <= t.value.arousal <= ha
    requires Usable(b) ==> lv <= b.value.valence <= hv && la <= b.value.arousal <= ha
    ensures forall i | 0 <= i < |Contributions(t, b, ws)| ::
              Contributions(t, b, ws)[i].weight >= 0.0 &&
              lv <= Contributions(t, b, ws)[i].valence <= hv && la <= Contributions(t, b, ws)[i].arousal <= ha
  {
    var ct, cb := ContributionOf(t, ws.text), ContributionOf(b, ws.behavioral);
    assert forall i | 0 <= i < |ct + cb| :: (ct + cb)[i] in ct || (ct + cb)[i] in cb;
  }

  /** Fusing estimates that respect the range invariants, with non-negative
      weights, yields a result that respects them too. */
  lemma FusedInRange(t: Option<MoodEstimate>, b: Option<MoodEstimate>, ws: Weights)
    requires NonNegativeWeights(ws)
    requires t.Some? ==> InRange(t.value)
    requires b.Some? ==> InRange(b.value)
    ensures -1.0 <= FuseSpec(t, b, ws).valence <= 1.0
    ensures 0.0 <= FuseSpec(t, b, ws).arousal <= 1.0
    ensures 0.0 <= FuseSpec(t, b, ws).confidence <= 1.0
  {
    if FuseSpec(t, b, ws).source != NoSource {
      FusedBetween(t, b, ws, -1.0, 1.0, 0.0, 1.0);
      Round3Within(FusedConfidence(t, b), 0.0, 1.0);
    }
  }

  /** A single supplied, usable text estimate passes through, up to rounding. */
  lemma TextAlone(t: MoodEstimate, ws: Weights)
    requires t.confidence > 0.0 && ws.text.GetOr(t.confidence) != 0.0
    ensures FuseSpec(Some(t), None, ws) ==
              FusedMood(Round3(t.valence), Round3(t.arousal), Round3(t.confidence), TextOnly, Some(Components(Some(t), None)))
  {
    var ms := Contributions(Some(t), None, ws);
    assert ms == [Contribution(t.valence, t.arousal, ws.text.GetOr(t.confidence))];
    assert ms[..0] == [];
    var w := ws.text.GetOr(t.confidence);
    assert SumWeight(ms) == w;
    assert SumValenceWeight(ms) == t.valence * w;
    assert SumArousalWeight(ms) == t.arousal * w;
    assert t.valence * w / w == t.valence;
    assert t.arousal * w / w == t.arousal;
  }

  /** A single supplied, usable behavioral estimate passes through, up to rounding. */
  lemma BehavioralAlone(b: MoodEstimate, ws: Weights)
    requires b.confidence > 0.0 && ws.behavioral.GetOr(b.confidence) != 0.0
    ensures FuseSpec(None, Some(b), ws) ==
              FusedMood(Round3(b.valence), Round3(b.arousal), Round3(b.confidence), BehavioralOnly, Some(Components(None, Some(b))))
  {
    var ms := Contributions(None, Some(b), ws);
    assert ms == [Contribution(b.valence, b.arousal, ws.behavioral.GetOr(b.confidence))];
    assert ms[..0] == [];
    var w := ws.behavioral.GetOr(b.confidence);
    assert SumWeight(ms) == w;
    assert SumValenceWeight(ms) == b.valence * w;
    assert SumArousalWeight(ms) == b.arousal * w;
    assert b.valence * w / w == b.valence;
    assert b.arousal * w / w == b.arousal;
  }

  /** An estimate that is supplied but carries no signal does not move the
      mean, yet still halves the fused confidence and decides the source tag. */
  lemma SuppliedButExcluded(t: MoodEstimate, b: MoodEstimate, ws: Weights)
    requires t.confidence > 0.0 && ws.text.GetOr(t.confidence) != 0.0
    requires b.confidence <= 0.0
    ensures FuseSpec(Some(t), Some(b), ws) ==
              FusedMood(Round3(t.valence), Round3(t.arousal), Round3((t.confidence + b.confidence) / 2.0),
                        TextPrimary, Some(Components(Some(t), Some(b))))
  {
    var ms := Contributions(Some(t), Some(b), ws);
    assert ContributionOf(Some(b), ws.behavioral) == [];
    assert ms == [Contribution(t.valence, t.arousal, ws.text.GetOr(t.confidence))];
    assert ms[..0] == [];
    var w := ws.text.GetOr(t.confidence);
    assert SumWeight(ms) == w;
    assert SumValenceWeight(ms) == t.valence * w;
    assert SumArousalWeight(ms) == t.arousal * w;
    assert t.valence * w / w == t.valence;
    assert t.arousal * w / w == t.arousal;
  }

  /** The source tag: the more confident of two supplied estimates leads,
      a tie goes to the behavioral one, a lone estimate is tagged as such. */
  lemma SourceRule(t: Option<MoodEstimate>, b: Option<MoodEstimate>, ws: Weights)
    requires FuseSpec(t, b, ws).source != NoSource
    ensures FuseSpec(t, b, ws).source == TextPrimary <==> t.Some? && b.Some? && t.value.confidence > b.value.confidence
    ensures FuseSpec(t, b, ws).source == BehavioralPrimary <==> t.Some? && b.Some? && t.value.confidence <= b.value.confidence
    ensures FuseSpec(t, b, ws).source == TextOnly <==> t.Some? && b.None?
    ensures FuseSpec(t, b, ws).source == BehavioralOnly <==> t.None? && b.Some?
  {
    SentinelRule(t, b, ws);
  }

  /** Text at full confidence with a behavioral estimate at zero confidence:
      the text values pass through, the confidence is the mean of the two
      supplied confidences and the tag is text-primary. */
  lemma FullTextZeroBehavioralExample()
    ensures
      var t := MoodEstimate(0.8, 0.5, 1.0, Emotions([]));
      var b := MoodEstimate(-0.2, 0.3, 0.0, BehavioralFeatures(Features(0.0, 0, 0, 0.0, 0)));
      FuseSpec(Some(t), Some(b), NoWeights) == FusedMood(0.8, 0.5, 0.5, TextPrimary, Some(Components(Some(t), Some(b))))
  {
    var t := MoodEstimate(0.8, 0.5, 1.0, Emotions([]));
    var b := MoodEstimate(-0.2, 0.3, 0.0, BehavioralFeatures(Features(0.0, 0, 0, 0.0, 0)));
    SuppliedButExcluded(t, b, NoWeights);
    Round3OnGrid(0.8);
    Round3OnGrid(0.5);
  }

  /** Equal confidences: the tie goes to the behavioral estimate. */
  lemma TieExample()
    ensures
      var t := MoodEstimate(0.5, 0.5, 0.6, Emotions([]));
      var b := MoodEstimate(0.1, 0.4, 0.6, BehavioralFeatures(Features(0.0, 0, 0, 0.0, 0)));
      FuseSpec(Some(t), Some(b), NoWeights).source == BehavioralPrimary
  {
    var t := MoodEstimate(0.5, 0.5, 0.6, Emotions([]));
    var b := MoodEstimate(0.1, 0.4, 0.6, BehavioralFeatures(Features(0.0, 0, 0, 0.0, 0)));
    SentinelRule(Some(t), Some(b), NoWeights);
  }
}
