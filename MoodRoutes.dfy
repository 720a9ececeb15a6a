/** The mood route that fuses the latest journal entry with the behavioral
    estimate, labels the journal entry if it has no label yet, and builds the
    profile it stores. */
module MoodRoutes {
  import opened Wrappers
  import opened MoodTypes
  import TextAnalyzer
  import BehavioralPredictor
  import opened MoodFusion

  /** The window the route asks for: the predictor's default of seven days. */
  const DaysBack: int := 7

  /** The label derived from a text valence; exactly +-0.5 is neutral. */
  function LabelFor(valence: real): (l: string)
    ensures l == "positive" <==> valence > 0.5
    ensures l == "negative" <==> valence < -0.5
    ensures l == "neutral" <==> -0.5 <= valence <= 0.5
  {
    if valence > 0.5 then "positive"
    else if valence < -0.5 then "negative"
    else "neutral"
  }

  /** A label that Python treats as false: absent or empty. */
  predicate Unlabelled(current: Option<string>) {
    current.None? || current.value == ""
  }

  /** The label an entry holds after the route has looked at it. */
  function LabelAfter(current: Option<string>, valence: real): (r: Option<string>)
    ensures !Unlabelled(r)
    ensures r != current ==> Unlabelled(current) && r == Some(LabelFor(valence))
  {
    if Unlabelled(current) then Some(LabelFor(valence)) else current
  }

  /** A journal row: the analyzed content and its label column. */
  class JournalEntry {
    const content: string
    var moodLabel: Option<string>

    constructor(content: string, moodLabel: Option<string>)
      ensures this.content == content && this.moodLabel == moodLabel
    {
      this.content := content;
      this.moodLabel := moodLabel;
    }
  }

  /** The metadata of a stored fused profile: the source tag, and the
      components (None stands for the empty dictionary of the sentinel). */
  datatype ProfileMetadata = ProfileMetadata(sourceBreakdown: string, components: Option<Components>)

  /** A row of the mood profile table, less its identifiers and timestamp. */
  datatype MoodProfile = MoodProfile(
    valence: real, arousal: real, source: string, confidence: real, metadata: ProfileMetadata)

  /** The text estimate handed to fusion: None when disabled or when the user
      has no journal entry. */
  function TextMoodFor(useText: bool, content: Option<string>): Option<MoodEstimate> {
    if useText && content.Some? then Some(TextAnalyzer.AnalyzeSpec(content.value)) else None
  }

  /** The behavioral estimate handed to fusion: None when disabled. */
  function BehavioralMoodFor(useBehavioral: bool, w: BehavioralPredictor.Window): Option<MoodEstimate> {
    if useBehavioral then Some(BehavioralPredictor.PredictSpec(w, DaysBack).value) else None
  }

  function StoredProfile(f: FusedMood): MoodProfile {
    MoodProfile(f.valence, f.arousal, "fused", f.confidence, ProfileMetadata(SourceName(f.source), f.components))
  }

  /** The profile `get_current_mood` stores and returns. */
  function CurrentMoodSpec(useText: bool, useBehavioral: bool, content: Option<string>, w: BehavioralPredictor.Window): MoodProfile {
    StoredProfile(FuseSpec(TextMoodFor(useText, content), BehavioralMoodFor(useBehavioral, w), NoWeights))
  }

  /** `get_current_mood`, with the latest journal entry (null when the user
      has none) and the behavioral counters supplied by the caller. */
  method GetCurrentMood(useText: bool, useBehavioral: bool, latestJournal: JournalEntry?, w: BehavioralPredictor.Window)
    returns (p: MoodProfile)
    modifies latestJournal
    ensures p == CurrentMoodSpec(useText, useBehavioral, if latestJournal == null then None else Some(latestJournal.content), w)
    ensures latestJournal != null ==>
              latestJournal.moodLabel ==
                (if useText then LabelAfter(old(latestJournal.moodLabel), TextAnalyzer.AnalyzeSpec(latestJournal.content).valence)
                 else old(latestJournal.moodLabel))
  {
    var textMood: Option<MoodEstimate> := None;
    var behavioralMood: Option<MoodEstimate> := None;

    if useText {
      if latestJournal != null {
        var m := TextAnalyzer.Analyze(TextAnalyzer.Default, latestJournal.content);
        textMood := Some(m);
        if Unlabelled(latestJournal.moodLabel) {
          latestJournal.moodLabel := Some(LabelFor(m.valence));
        }
      }
    }

    if useBehavioral {
      var r := BehavioralPredictor.Predict(w, DaysBack);
      behavioralMood := Some(r.value);
    }

    var fused := Fuse(textMood, behavioralMood, NoWeights);
    p := MoodProfile(fused.valence, fused.arousal, "fused", fused.confidence,
                     ProfileMetadata(SourceName(fused.source), fused.components));
  }

  // ---------------------------------------------------------------------
  // Properties

  /** An existing label is never overwritten, and labelling twice is
      labelling once, whatever the second valence. */
  lemma LabelIdempotent(current: Option<string>, v1: real, v2: real)
    ensures !Unlabelled(current) ==> LabelAfter(current, v1) == current
    ensures LabelAfter(LabelAfter(current, v1), v2) == LabelAfter(current, v1)
  {
  }

  lemma LabelBoundaries()
    ensures LabelFor(0.5) == "neutral" && LabelFor(-0.5) == "neutral"
    ensures LabelFor(0.501) == "positive" && LabelFor(-0.501) == "negative"
  {
  }

  /** A disabled or absent source reaches fusion as None; an enabled one as
      the corresponding estimate. */
  lemma SourcesPassedAsNone(useText: bool, useBehavioral: bool, content: Option<string>, w: BehavioralPredictor.Window)
    ensures TextMoodFor(useText, content).None? <==> !useText || content.None?
    ensures BehavioralMoodFor(useBehavioral, w).None? <==> !useBehavioral
    ensures useBehavioral ==> BehavioralPredictor.PredictSpec(w, DaysBack).Success?
  {
  }

  /** With both sources disabled the stored profile is the neutral sentinel. */
  lemma NothingEnabled(content: Option<string>, w: BehavioralPredictor.Window)
    ensures CurrentMoodSpec(false, false, content, w) ==
              MoodProfile(0.0, 0.3, "fused", 0.0, ProfileMetadata("none", None))
  {
  }

  /** The stored profile copies the fused values, is tagged as fused and
      keeps the fusion source tag and components in its metadata. */
  lemma ProfileCopiesFusion(useText: bool, useBehavioral: bool, content: Option<string>, w: BehavioralPredictor.Window)
    ensures var t, b := TextMoodFor(useText, content), BehavioralMoodFor(useBehavioral, w);
            var p := CurrentMoodSpec(useText, useBehavioral, content, w);
            p.source == "fused" &&
            (p.metadata.sourceBreakdown == "none" <==> FuseSpec(t, b, NoWeights) == NoneFused) &&
            (p.metadata.sourceBreakdown != "none" ==> p.metadata.components == Some(Components(t, b)))
  {
    var t, b := TextMoodFor(useText, content), BehavioralMoodFor(useBehavioral, w);
    SentinelRule(t, b, NoWeights);
  }

  /** The stored profile respects the range invariants. */
  lemma CurrentMoodInRange(useText: bool, useBehavioral: bool, content: Option<string>, w: BehavioralPredictor.Window)
    ensures var p := CurrentMoodSpec(useText, useBehavioral, content, w);
            -1.0 <= p.valence <= 1.0 && 0.0 <= p.arousal <= 1.0 && 0.0 <= p.confidence <= 1.0
  {
    if content.Some? {
      TextAnalyzer.AnalyzeSpecInRange(content.value);
    }
    BehavioralPredictor.PredictInRange(w, DaysBack);
    FusedInRange(TextMoodFor(useText, content), BehavioralMoodFor(useBehavioral, w), NoWeights);
  }
}
