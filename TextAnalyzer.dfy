/** The lexicon-based text mood analyzer: tokenise lower-cased text, score
    every lexicon hit with a three-token negation look-back and a one-token
    intensifier, average the hits, and fall back to a substring and
    punctuation heuristic when nothing matches. */
module TextAnalyzer {
  import opened Numerics
  import opened MoodTypes

  // ---------------------------------------------------------------------
  // The fixed tables

  /** Keyword -> (base valence, base arousal). */
  const Lexicon: map<string, (real, real)> := map[
    "happy" := (0.8, 0.7), "joy" := (0.9, 0.8), "excited" := (0.8, 0.9),
    "grateful" := (0.7, 0.5), "content" := (0.6, 0.3), "peaceful" := (0.7, 0.2),
    "proud" := (0.8, 0.6), "hopeful" := (0.7, 0.5), "optimistic" := (0.7, 0.6),
    "energetic" := (0.7, 0.9), "motivated" := (0.7, 0.7), "confident" := (0.8, 0.6),
    "sad" := (-0.6, 0.3), "depressed" := (-0.8, 0.2), "down" := (-0.5, 0.3),
    "anxious" := (-0.4, 0.8), "worried" := (-0.5, 0.7), "stressed" := (-0.6, 0.8),
    "angry" := (-0.7, 0.9), "frustrated" := (-0.6, 0.8), "annoyed" := (-0.5, 0.7),
    "tired" := (-0.4, 0.2), "exhausted" := (-0.6, 0.1), "burned" := (-0.7, 0.2),
    "overwhelmed" := (-0.7, 0.8), "helpless" := (-0.8, 0.4), "lonely" := (-0.7, 0.3),
    "calm" := (0.2, 0.2), "neutral" := (0.0, 0.3), "fine" := (0.2, 0.3),
    "okay" := (0.1, 0.3), "meh" := (-0.1, 0.2)
  ]

  /** Word -> arousal multiplier. */
  const Intensifiers: map<string, real> := map[
    "very" := 1.2, "extremely" := 1.4, "really" := 1.1, "super" := 1.3,
    "slightly" := 0.8, "a bit" := 0.8, "somewhat" := 0.9, "quite" := 1.1
  ]

  const Negations: set<string> := {"not", "n't", "no", "never", "none", "nothing", "nobody"}

  const PositiveWords: seq<string> := ["good", "great", "nice", "well", "better", "best", "love", "like"]
  const NegativeWords: seq<string> := ["bad", "terrible", "awful", "hate", "worst", "difficult", "hard", "problem"]

  /** The estimate for empty or blank text. */
  const Neutral: MoodEstimate := MoodEstimate(0.0, 0.3, 0.0, Emotions([]))

  /** The analyzer's configuration: the three tables above. */
  datatype Tables = Tables(lexicon: map<string, (real, real)>, intensifiers: map<string, real>, negations: set<string>)

  const Default: Tables := Tables(Lexicon, Intensifiers, Negations)

  /** Every base valence lies in [-1, 1] and every multiplier is positive. */
  predicate Bounded(tables: Tables) {
    && (forall w | w in tables.lexicon :: -1.0 <= tables.lexicon[w].0 <= 1.0)
    && (forall w | w in tables.intensifiers :: tables.intensifiers[w] > 0.0)
  }

  lemma LexiconBounds()
    ensures forall w | w in Lexicon :: -0.8 <= Lexicon[w].0 <= 0.9 && 0.1 <= Lexicon[w].1 <= 0.9
  {
  }

  lemma IntensifierBounds()
    ensures forall w | w in Intensifiers :: 0.8 <= Intensifiers[w] <= 1.4
  {
  }

  lemma DefaultBounded()
    ensures Bounded(Default)
  {
    LexiconBounds();
    IntensifierBounds();
  }

  // ---------------------------------------------------------------------
  // Characters and tokens

  /** Python's `str.isspace`, the characters `str.strip()` removes. */
  predicate IsSpace(c: char) {
    c == ' ' || '\U{9}' <= c <= '\U{d}' || '\U{1c}' <= c <= '\U{1f}'
    || c == '\U{85}' || c == '\U{a0}' || c == '\U{1680}' || '\U{2000}' <= c <= '\U{200a}'
    || c == '\U{2028}' || c == '\U{2029}' || c == '\U{202f}' || c == '\U{205f}' || c == '\U{3000}'
  }

  /** `not text or len(text.strip()) == 0` */
  predicate Blank(s: string) {
    forall i | 0 <= i < |s| :: IsSpace(s[i])
  }

  /** The regular-expression class `\w`, restricted to ASCII. */
  predicate IsWordChar(c: char) {
    'a' <= c <= 'z' || 'A' <= c <= 'Z' || '0' <= c <= '9' || c == '_'
  }

  predicate IsWord(w: string) {
    |w| > 0 && forall i | 0 <= i < |w| :: IsWordChar(w[i])
  }

  function LowerChar(c: char): char {
    if 'A' <= c <= 'Z' then (c as int + 32) as char else c
  }

  /** `str.lower()`, restricted to ASCII letters. */
  function Lower(s: string): (r: string)
    ensures |r| == |s|
  {
    seq(|s|, i requires 0 <= i < |s| => LowerChar(s[i]))
  }

  /** Length of the run of word characters that starts `s`. */
  function WordRun(s: string): (n: nat)
    ensures n <= |s|
    ensures forall i | 0 <= i < n :: IsWordChar(s[i])
    ensures n < |s| ==> !IsWordChar(s[n])
  {
    if s == [] || !IsWordChar(s[0]) then 0 else 1 + WordRun(s[1..])
  }

  /** `re.findall(r'\b\w+\b', s)`: the maximal runs of word characters, left to right. */
  function Tokenize(s: string): seq<string>
    decreases |s|
  {
    if s == [] then []
    else if !IsWordChar(s[0]) then Tokenize(s[1..])
    else
      var n := WordRun(s);
      [s[..n]] + Tokenize(s[n..])
  }

  /** Every token is a non-empty run of word characters. */
  lemma {:induction false} TokensAreWords(s: string)
    ensures forall w | w in Tokenize(s) :: IsWord(w)
    decreases |s|
  {
    if s == [] {
    } else if !IsWordChar(s[0]) {
      TokensAreWords(s[1..]);
    } else {
      var n := WordRun(s);
      TokensAreWords(s[n..]);
      assert IsWord(s[..n]);
    }
  }

  /** No token contains a space or an apostrophe, so the table entries
      `'a bit'` and `"n't"` can never match. */
  lemma UnmatchableEntries(s: string)
    ensures forall w | w in Tokenize(s) :: ' ' !in w && '\'' !in w
    ensures "a bit" !in Tokenize(s) && "n't" !in Tokenize(s)
  {
    TokensAreWords(s);
    forall w | w in Tokenize(s)
      ensures ' ' !in w && '\'' !in w
    {
      assert IsWord(w);
    }
    assert "a bit"[1] == ' ';
    assert "n't"[1] == '\'';
  }

  // ---------------------------------------------------------------------
  // Scoring one lexicon hit

  /** One of the (up to) three tokens before position `i` is a negation word. */
  predicate NegatedAt(tables: Tables, words: seq<string>, i: nat)
    requires i <= |words|
  {
    i > 0 && exists j | MaxInt(0, i - 3) <= j < i :: words[j] in tables.negations
  }

  /** The multiplier of the preceding token if it is an intensifier, else that
      of the following one, else 1. */
  function IntensityAt(tables: Tables, words: seq<string>, i: nat): real
    requires i < |words|
  {
    if i > 0 && words[i - 1] in tables.intensifiers then tables.intensifiers[words[i - 1]]
    else if i < |words| - 1 && words[i + 1] in tables.intensifiers then tables.intensifiers[words[i + 1]]
    else 1.0
  }

  /** The emotion record of the lexicon hit at position `i`. */
  function ScoreAt(tables: Tables, words: seq<string>, i: nat): EmotionRecord
    requires i < |words| && words[i] in tables.lexicon
  {
    var base := tables.lexicon[words[i]];
    var negated := NegatedAt(tables, words, i);
    var valence := if negated then -base.0 * 0.5 else base.0;
    var arousal := Min(1.0, Max(0.0, base.1 * IntensityAt(tables, words, i)));
    EmotionRecord(words[i], valence, arousal, negated)
  }

  predicate RecordInRange(r: EmotionRecord) {
    -1.0 <= r.valence <= 1.0 && 0.0 <= r.arousal <= 1.0
  }

  /** A hit's valence is its base valence, or minus half of it under negation;
      its arousal is clamped to [0, 1]; so the record is in range. */
  lemma ScoreAtInRange(tables: Tables, words: seq<string>, i: nat)
    requires Bounded(tables)
    requires i < |words| && words[i] in tables.lexicon
    ensures RecordInRange(ScoreAt(tables, words, i))
    ensures ScoreAt(tables, words, i).emotion == words[i]
    ensures ScoreAt(tables, words, i).negated ==> ScoreAt(tables, words, i).valence == -0.5 * tables.lexicon[words[i]].0
    ensures !ScoreAt(tables, words, i).negated ==> ScoreAt(tables, words, i).valence == tables.lexicon[words[i]].0
  {
    assert -1.0 <= tables.lexicon[words[i]].0 <= 1.0;
  }

  /** At most one multiplier applies: the preceding token's if it is an
      intensifier, otherwise the following token's, otherwise 1. */
  lemma IntensityRule(words: seq<string>, i: nat)
    requires i < |words|
    ensures 0.8 <= IntensityAt(Default, words, i) <= 1.4
    ensures i > 0 && words[i - 1] in Intensifiers ==> IntensityAt(Default, words, i) == Intensifiers[words[i - 1]]
    ensures IntensityAt(Default, words, i) == 1.0 || IntensityAt(Default, words, i) in Intensifiers.Values
  {
    IntensifierBounds();
    if i > 0 && words[i - 1] in Intensifiers {
      assert IntensityAt(Default, words, i) == Intensifiers[words[i - 1]];
    } else if i < |words| - 1 && words[i + 1] in Intensifiers {
      assert IntensityAt(Default, words, i) == Intensifiers[words[i + 1]];
    }
  }

  /** The negation test looks only at the three tokens before the hit. */
  lemma NegationIsLocal(tables: Tables, pre: seq<string>, words: seq<string>, post: seq<string>, i: nat)
    requires 3 <= i < |words|
    ensures NegatedAt(tables, pre + words + post, |pre| + i) == NegatedAt(tables, words, i)
  {
    var all := pre + words + post;
    var k := |pre| + i;
    if NegatedAt(tables, words, i) {
      var j :| MaxInt(0, i - 3) <= j < i && words[j] in tables.negations;
      assert all[|pre| + j] == words[j];
    }
    if NegatedAt(tables, all, k) {
      var j :| MaxInt(0, k - 3) <= j < k && all[j] in tables.negations;
      assert all[j] == words[j - |pre|];
    }
  }

  /** A negation four or more tokens back, or any tokens appended after the
      following token, do not change a hit: the scoring window is three tokens
      back and one forward. */
  lemma ScoreIsLocal(tables: Tables, pre: seq<string>, words: seq<string>, post: seq<string>, i: nat)
    requires 3 <= i && i + 1 < |words| && words[i] in tables.lexicon
    ensures (pre + words + post)[|pre| + i] == words[i]
    ensures ScoreAt(tables, pre + words + post, |pre| + i) == ScoreAt(tables, words, i)
  {
    var all := pre + words + post;
    var k := |pre| + i;
    assert all[k] == words[i];
    assert all[k - 1] == words[i - 1] && all[k + 1] == words[i + 1];
    assert IntensityAt(tables, all, k) == IntensityAt(tables, words, i);
    NegationIsLocal(tables, pre, words, post, i);
  }

  // ---------------------------------------------------------------------
  // All hits

  /** The records of the hits among the first `n` tokens, in token order. */
  function HitsUpTo(tables: Tables, words: seq<string>, n: nat): seq<EmotionRecord>
    requires n <= |words|
  {
    if n == 0 then []
    else
      var hit := if words[n - 1] in tables.lexicon then [ScoreAt(tables, words, n - 1)] else [];
      HitsUpTo(tables, words, n - 1) + hit
  }

  /** The positions of the lexicon hits among the first `n` tokens. */
  function HitPositions(tables: Tables, words: seq<string>, n: nat): seq<nat>
    requires n <= |words|
  {
    if n == 0 then []
    else HitPositions(tables, words, n - 1) + (if words[n - 1] in tables.lexicon then [n - 1] else [])
  }

  /** The hit positions are increasing and are exactly the lexicon tokens. */
  lemma {:induction false} HitPositionsExact(tables: Tables, words: seq<string>, n: nat)
    requires n <= |words|
    ensures forall k, l | 0 <= k < l < |HitPositions(tables, words, n)| ::
      HitPositions(tables, words, n)[k] < HitPositions(tables, words, n)[l]
    ensures forall i | i in HitPositions(tables, words, n) :: i < n
    ensures forall i | 0 <= i < n :: i in HitPositions(tables, words, n) <==> words[i] in tables.lexicon
  {
    if n > 0 {
      HitPositionsExact(tables, words, n - 1);
      var p := HitPositions(tables, words, n - 1);
      if words[n - 1] in tables.lexicon {
        assert HitPositions(tables, words, n) == p + [n - 1];
        forall k | 0 <= k < |p|
          ensures p[k] < n - 1
        {
          assert p[k] in p;
        }
      }
    }
  }

  /** Exactly one record per hit, in token order: the k-th record scores the
      k-th hit position. */
  lemma {:induction false} HitsAreOrdered(tables: Tables, words: seq<string>, n: nat)
    requires n <= |words|
    ensures |HitsUpTo(tables, words, n)| == |HitPositions(tables, words, n)|
    ensures forall k | 0 <= k < |HitPositions(tables, words, n)| ::
      var p := HitPositions(tables, words, n)[k];
      p < |words| && words[p] in tables.lexicon && HitsUpTo(tables, words, n)[k] == ScoreAt(tables, words, p)
  {
    if n > 0 {
      HitsAreOrdered(tables, words, n - 1);
      HitPositionsExact(tables, words, n - 1);
      var p := HitPositions(tables, words, n - 1);
      var h := HitsUpTo(tables, words, n - 1);
      if words[n - 1] in tables.lexicon {
        assert HitPositions(tables, words, n) == p + [n - 1];
        assert HitsUpTo(tables, words, n) == h + [ScoreAt(tables, words, n - 1)];
        forall k | 0 <= k < |p|
          ensures p[k] < |words|
        {
          assert p[k] in p;
        }
      }
    }
  }

  /** Every record of an analysis is in range. */
  lemma {:induction false} HitsInRange(tables: Tables, words: seq<string>, n: nat)
    requires Bounded(tables) && n <= |words|
    ensures forall k | 0 <= k < |HitsUpTo(tables, words, n)| :: RecordInRange(HitsUpTo(tables, words, n)[k])
  {
    if n > 0 {
      HitsInRange(tables, words, n - 1);
      if words[n - 1] in tables.lexicon {
        ScoreAtInRange(tables, words, n - 1);
      }
    }
  }

  /** The (valence, arousal) pairs of the records. */
  function Pairs(rs: seq<EmotionRecord>): (ps: seq<(real, real)>)
    ensures |ps| == |rs|
  {
    seq(|rs|, k requires 0 <= k < |rs| => (rs[k].valence, rs[k].arousal))
  }

  function SumValence(ps: seq<(real, real)>): real {
    if ps == [] then 0.0 else SumValence(ps[..|ps| - 1]) + ps[|ps| - 1].0
  }

  function SumArousal(ps: seq<(real, real)>): real {
    if ps == [] then 0.0 else SumArousal(ps[..|ps| - 1]) + ps[|ps| - 1].1
  }

  /** Sums of in-range pairs stay within the pair count. */
  lemma {:induction false} SumBounds(ps: seq<(real, real)>)
    requires forall k | 0 <= k < |ps| :: -1.0 <= ps[k].0 <= 1.0 && 0.0 <= ps[k].1 <= 1.0
    ensures -(|ps| as real) <= SumValence(ps) <= |ps| as real
    ensures 0.0 <= SumArousal(ps) <= |ps| as real
  {
    if ps != [] {
      SumBounds(ps[..|ps| - 1]);
    }
  }

  /** A mean of values in [lo, hi] lies in [lo, hi]. */
  lemma MeanWithin(sum: real, n: nat, lo: real, hi: real)
    requires n > 0 && lo * n as real <= sum <= hi * n as real
    ensures lo <= sum / n as real <= hi
  {
  }

  // ---------------------------------------------------------------------
  // Fallback heuristic

  /** `w` occurs in `t` at offset `i`. */
  predicate OccursAt(t: string, w: string, i: int) {
    0 <= i && i + |w| <= |t| && t[i..i + |w|] == w
  }

  /** Python's `w in t` on strings. */
  predicate ContainsSub(t: string, w: string) {
    exists i | 0 <= i <= |t| - |w| :: OccursAt(t, w, i)
  }

  /** How many DISTINCT words of the list occur in `t` as substrings. */
  function CountPresent(ws: seq<string>, t: string): (n: nat)
    ensures n <= |ws|
  {
    if ws == [] then 0
    else CountPresent(ws[..|ws| - 1], t) + (if ContainsSub(t, ws[|ws| - 1]) then 1 else 0)
  }

  function CountChar(s: string, c: char): nat {
    if s == [] then 0 else CountChar(s[..|s| - 1], c) + (if s[|s| - 1] == c then 1 else 0)
  }

  /** `_fallback_analysis`: (valence, arousal, confidence). */
  function Fallback(t: string): (real, real, real) {
    var pos := CountPresent(PositiveWords, t);
    var neg := CountPresent(NegativeWords, t);
    var valence := if pos > neg then 0.3 else if neg > pos then -0.3 else 0.0;
    var marks := CountChar(t, '!') + CountChar(t, '?');
    var arousal := Min(0.7, 0.3 + marks as real * 0.1);
    (valence, arousal, 0.2)
  }

  // ---------------------------------------------------------------------
  // The analysis

  /** The estimate for lower-cased text `lower` tokenised into `words`. */
  function ScoreWords(tables: Tables, lower: string, words: seq<string>): MoodEstimate {
    var hits := HitsUpTo(tables, words, |words|);
    if |hits| > 0 then
      var n := |hits| as real;
      MoodEstimate(
        Round3(SumValence(Pairs(hits)) / n),
        Round3(SumArousal(Pairs(hits)) / n),
        Round3(Min(1.0, n * 0.3)),
        Emotions(hits))
    else
      var fb := Fallback(lower);
      MoodEstimate(Round3(fb.0), Round3(fb.1), Round3(fb.2), Emotions([]))
  }

  /** `analyze` with the given tables, as a function of the text. */
  function AnalyzeWith(tables: Tables, text: string): MoodEstimate {
    if Blank(text) then Neutral
    else
      var lower := Lower(text);
      ScoreWords(tables, lower, Tokenize(lower))
  }

  /** `TextMoodAnalyzer().analyze(text)`: the analysis with the class's own tables. */
  function AnalyzeSpec(text: string): MoodEstimate {
    AnalyzeWith(Default, text)
  }

  /** The source's test, a negation word among the (up to) three preceding
      tokens, is `NegatedAt`. */
  lemma NegationWindow(tables: Tables, words: seq<string>, i: nat)
    requires 0 < i <= |words|
    ensures (exists neg | neg in tables.negations :: neg in words[MaxInt(0, i - 3)..i]) <==> NegatedAt(tables, words, i)
  {
    var prevWords := words[MaxInt(0, i - 3)..i];
    if NegatedAt(tables, words, i) {
      var j :| MaxInt(0, i - 3) <= j < i && words[j] in tables.negations;
      assert words[j] == prevWords[j - MaxInt(0, i - 3)];
    }
  }

  /** The scoring of the lexicon hit at position `i` in the loop of
      `analyze`: negation within the three preceding tokens, then the
      intensifier before or after, then the clamp. */
  method ScoreWord(tables: Tables, words: seq<string>, i: nat) returns (record: EmotionRecord)
    requires i < |words| && words[i] in tables.lexicon
    ensures record == ScoreAt(tables, words, i)
  {
    var word := words[i];
    var valence, arousal := tables.lexicon[word].0, tables.lexicon[word].1;
    var isNegated := false;
    if i > 0 {
      var prevWords := words[MaxInt(0, i - 3)..i];
      NegationWindow(tables, words, i);
      if exists neg | neg in tables.negations :: neg in prevWords {
        isNegated := true;
        valence := -valence * 0.5;
      }
    }
    var intensity := 1.0;
    if i > 0 && words[i - 1] in tables.intensifiers {
      intensity := tables.intensifiers[words[i - 1]];
    } else if i < |words| - 1 && words[i + 1] in tables.intensifiers {
      intensity := tables.intensifiers[words[i + 1]];
    }
    arousal := arousal * intensity;
    arousal := Min(1.0, Max(0.0, arousal));
    record := EmotionRecord(word, valence, arousal, isNegated);
  }

  /** `TextMoodAnalyzer.analyze` (the tables are `self`'s class attributes):
      one pass over the tokens collecting the emotion records and their
      (valence, arousal) scores, then the averages or the fallback. */
  method Analyze(tables: Tables, text: string) returns (r: MoodEstimate)
    ensures r == AnalyzeWith(tables, text)
  {
    if Blank(text) {
      return Neutral;
    }
    var textLower := Lower(text);
    var words := Tokenize(textLower);
    var foundEmotions: seq<EmotionRecord> := [];
    var emotionScores: seq<(real, real)> := [];
    for i := 0 to |words|
      invariant foundEmotions == HitsUpTo(tables, words, i)
      invariant emotionScores == Pairs(foundEmotions)
    {
      var word := words[i];
      if word in tables.lexicon {
        var record := ScoreWord(tables, words, i);
        var valence, arousal := record.valence, record.arousal;
        foundEmotions := foundEmotions + [record];
        emotionScores := emotionScores + [(valence, arousal)];
      }
    }
    assert AnalyzeWith(tables, text) == ScoreWords(tables, textLower, words);
    assert foundEmotions == HitsUpTo(tables, words, |words|);
    if |emotionScores| > 0 {
      var n := |emotionScores| as real;
      var avgValence := SumValence(emotionScores) / n;
      var avgArousal := SumArousal(emotionScores) / n;
      var confidence := Min(1.0, n * 0.3);
      r := MoodEstimate(Round3(avgValence), Round3(avgArousal), Round3(confidence), Emotions(foundEmotions));
    } else {
      var fb := Fallback(textLower);
      r := MoodEstimate(Round3(fb.0), Round3(fb.1), Round3(fb.2), Emotions([]));
    }
  }

  // ---------------------------------------------------------------------
  // Properties of the analysis

  /** Empty or whitespace-only text yields exactly the neutral estimate. */
  lemma BlankIsNeutral(tables: Tables, text: string)
    requires Blank(text)
    ensures AnalyzeWith(tables, text) == MoodEstimate(0.0, 0.3, 0.0, Emotions([]))
  {
  }

  lemma BlankExamples()
    ensures AnalyzeSpec("") == Neutral
    ensures AnalyzeSpec("   ") == Neutral
    ensures AnalyzeSpec("\t\n ") == Neutral
  {
    assert Blank("   ") && Blank("\t\n ");
  }

  lemma FallbackInRange(t: string)
    ensures Fallback(t).0 in {0.3, -0.3, 0.0}
    ensures 0.3 <= Fallback(t).1 <= 0.7
    ensures Fallback(t).2 == 0.2
  {
  }

  /** With at least one hit: the evidence is the hit records, valence and
      arousal are their rounded means, and confidence is `min(1, 0.3 n)`. */
  lemma HitBranch(tables: Tables, text: string)
    requires !Blank(text)
    requires |HitsUpTo(tables, Tokenize(Lower(text)), |Tokenize(Lower(text))|)| > 0
    ensures var words := Tokenize(Lower(text));
      var hits := HitsUpTo(tables, words, |words|);
      var n := |hits| as real;
      var r := AnalyzeWith(tables, text);
      && r.evidence == Emotions(hits)
      && r.valence == Round3(SumValence(Pairs(hits)) / n)
      && r.arousal == Round3(SumArousal(Pairs(hits)) / n)
      && r.confidence == Round3(Min(1.0, 0.3 * n))
      && (|hits| == 1 ==> r.confidence == 0.3)
      && (|hits| >= 4 ==> r.confidence == 1.0)
  {
    var words := Tokenize(Lower(text));
    var n := |HitsUpTo(tables, words, |words|)| as real;
    if n == 1.0 {
      assert Min(1.0, 0.3 * n) == 0.3;
      Round3OnGrid(0.3);
    }
    if n >= 4.0 {
      assert Min(1.0, 0.3 * n) == 1.0;
      Round3OnGrid(1.0);
    }
  }

  /** With no hit (also for text without any word, such as "!!!"): confidence
      0.2, no records, valence by the distinct-substring counts, arousal by the
      count of '!' and '?'. */
  lemma FallbackBranch(tables: Tables, text: string)
    requires !Blank(text)
    requires |HitsUpTo(tables, Tokenize(Lower(text)), |Tokenize(Lower(text))|)| == 0
    ensures var lower := Lower(text);
      var pos := CountPresent(PositiveWords, lower);
      var neg := CountPresent(NegativeWords, lower);
      var r := AnalyzeWith(tables, text);
      && r.confidence == 0.2
      && r.evidence == Emotions([])
      && r.valence == (if pos > neg then 0.3 else if neg > pos then -0.3 else 0.0)
      && r.arousal == Round3(Min(0.7, 0.3 + 0.1 * (CountChar(lower, '!') + CountChar(lower, '?')) as real))
      && 0.3 <= r.arousal <= 0.7
  {
    var lower := Lower(text);
    var fb := Fallback(lower);
    Round3OnGrid(0.2);
    Round3OnGrid(0.3);
    Round3OnGrid(-0.3);
    Round3OnGrid(0.0);
    Round3Within(fb.1, 0.3, 0.7);
  }

  /** Every estimate is in range: valence in [-1, 1], arousal and confidence in [0, 1]. */
  lemma AnalyzeInRange(tables: Tables, text: string)
    requires Bounded(tables)
    ensures InRange(AnalyzeWith(tables, text))
  {
    if !Blank(text) {
      var lower := Lower(text);
      var words := Tokenize(lower);
      var hits := HitsUpTo(tables, words, |words|);
      if |hits| > 0 {
        var ps := Pairs(hits);
        HitsInRange(tables, words, |words|);
        assert forall k | 0 <= k < |ps| :: ps[k] == (hits[k].valence, hits[k].arousal);
        SumBounds(ps);
        var n := |hits|;
        MeanWithin(SumValence(ps), n, -1.0, 1.0);
        MeanWithin(SumArousal(ps), n, 0.0, 1.0);
        Round3Within(SumValence(ps) / n as real, -1.0, 1.0);
        Round3Within(SumArousal(ps) / n as real, 0.0, 1.0);
        Round3Within(Min(1.0, n as real * 0.3), 0.0, 1.0);
      } else {
        FallbackBranch(tables, text);
      }
    }
  }

  lemma AnalyzeSpecInRange(text: string)
    ensures InRange(AnalyzeSpec(text))
  {
    DefaultBounded();
    AnalyzeInRange(Default, text);
  }

  /** A single hit comes back as the estimate, with confidence 0.3. */
  lemma SingleHit(tables: Tables, lower: string, words: seq<string>, rec: EmotionRecord)
    requires HitsUpTo(tables, words, |words|) == [rec]
    requires OnGrid3(rec.valence) && OnGrid3(rec.arousal)
    ensures ScoreWords(tables, lower, words) == MoodEstimate(rec.valence, rec.arousal, 0.3, Emotions([rec]))
  {
    var ps := Pairs([rec]);
    assert ps == [(rec.valence, rec.arousal)];
    assert ps[..0] == [];
    assert SumValence(ps) == rec.valence;
    assert SumArousal(ps) == rec.arousal;
    Round3OnGrid(rec.valence);
    Round3OnGrid(rec.arousal);
    Round3OnGrid(0.3);
  }

  /** "not happy": the negation halves and flips the base valence 0.8 to -0.4;
      one hit gives confidence 0.3. */
  lemma NotHappyMisses()
    ensures "i" !in Lexicon && "am" !in Lexicon && "not" !in Lexicon
  {
  }

  lemma NotHappyEntries()
    ensures "happy" in Lexicon && Lexicon["happy"] == (0.8, 0.7)
    ensures "not" !in Intensifiers && "not" in Negations
  {
  }

  lemma NotHappyHits()
    ensures HitsUpTo(Default, ["i", "am", "not", "happy"], 4) == [EmotionRecord("happy", -0.4, 0.7, true)]
  {
    var words := ["i", "am", "not", "happy"];
    NotHappyMisses();
    NotHappyEntries();
    assert words[2] in Negations;
    assert HitsUpTo(Default, words, 1) == [];
    assert HitsUpTo(Default, words, 2) == [];
    assert NegatedAt(Default, words, 3);
    assert IntensityAt(Default, words, 3) == 1.0;
    var rec := EmotionRecord("happy", -0.4, 0.7, true);
    assert ScoreAt(Default, words, 3) == rec;
    assert HitsUpTo(Default, words, 3) == [];
    assert HitsUpTo(Default, words, 4) == [rec];
  }

  lemma NotHappyScore()
    ensures var words := ["i", "am", "not", "happy"];
      ScoreWords(Default, "i am not happy", words) ==
        MoodEstimate(-0.4, 0.7, 0.3, Emotions([EmotionRecord("happy", -0.4, 0.7, true)]))
  {
    var words := ["i", "am", "not", "happy"];
    var rec := EmotionRecord("happy", -0.4, 0.7, true);
    NotHappyHits();
    SingleHit(Default, "i am not happy", words, rec);
  }

  /** "extremely excited": the multiplier 1.4 takes arousal 0.9 to 1.26,
      clamped to 1.0. */
  lemma ExtremelyExcitedMisses()
    ensures "i" !in Lexicon && "am" !in Lexicon && "extremely" !in Lexicon
  {
  }

  lemma ExtremelyExcitedEntries()
    ensures "excited" in Lexicon && Lexicon["excited"] == (0.8, 0.9)
    ensures "i" !in Negations && "am" !in Negations && "extremely" !in Negations
    ensures "extremely" in Intensifiers && Intensifiers["extremely"] == 1.4
  {
  }

  lemma ExtremelyExcitedHits()
    ensures HitsUpTo(Default, ["i", "am", "extremely", "excited"], 4) == [EmotionRecord("excited", 0.8, 1.0, false)]
  {
    var words := ["i", "am", "extremely", "excited"];
    ExtremelyExcitedMisses();
    ExtremelyExcitedEntries();
    assert HitsUpTo(Default, words, 1) == [];
    assert HitsUpTo(Default, words, 2) == [];
    assert !NegatedAt(Default, words, 3);
    assert IntensityAt(Default, words, 3) == 1.4;
    var rec := EmotionRecord("excited", 0.8, 1.0, false);
    assert ScoreAt(Default, words, 3) == rec;
    assert HitsUpTo(Default, words, 3) == [];
    assert HitsUpTo(Default, words, 4) == [rec];
  }

  lemma ExtremelyExcitedScore()
    ensures var words := ["i", "am", "extremely", "excited"];
      ScoreWords(Default, "i am extremely excited", words) ==
        MoodEstimate(0.8, 1.0, 0.3, Emotions([EmotionRecord("excited", 0.8, 1.0, false)]))
  {
    var words := ["i", "am", "extremely", "excited"];
    var rec := EmotionRecord("excited", 0.8, 1.0, false);
    ExtremelyExcitedHits();
    SingleHit(Default, "i am extremely excited", words, rec);
  }

  /** The word run of a word followed by a non-word character is the word. */
  lemma {:induction false} WordRunOfWord(w: string, rest: string)
    requires forall i | 0 <= i < |w| :: IsWordChar(w[i])
    requires rest == [] || !IsWordChar(rest[0])
    ensures WordRun(w + rest) == |w|
  {
    if w == [] {
      assert w + rest == rest;
    } else {
      assert (w + rest)[1..] == w[1..] + rest;
      WordRunOfWord(w[1..], rest);
    }
  }

  /** A word followed by text that starts with a non-word character. */
  lemma TokenizeTail(s: string, w: string, rest: string)
    requires s == w + rest
    requires IsWord(w) && (rest == [] || !IsWordChar(rest[0]))
    ensures Tokenize(s) == [w] + Tokenize(rest)
  {
    WordRunOfWord(w, rest);
    assert s[..|w|] == w;
    assert s[|w|..] == rest;
  }

  lemma TokenizeSkip(s: string, rest: string)
    requires s != [] && !IsWordChar(s[0]) && s[1..] == rest
    ensures Tokenize(s) == Tokenize(rest)
  {
  }

  lemma TokenizeWord(w: string)
    requires IsWord(w)
    ensures Tokenize(w) == [w]
  {
    assert w + [] == w;
    WordRunOfWord(w, []);
    assert w[|w|..] == [];
  }

  /** Lower-casing works character by character, so it distributes over
      concatenation. */
  lemma LowerAppend(a: string, b: string)
    ensures Lower(a + b) == Lower(a) + Lower(b)
  {
  }

  predicate NoCapitals(s: string) {
    forall i | 0 <= i < |s| :: !('A' <= s[i] <= 'Z')
  }

  lemma NoCapitalsAppend(a: string, b: string)
    requires NoCapitals(a) && NoCapitals(b)
    ensures NoCapitals(a + b)
  {
    forall i | 0 <= i < |a + b| ensures !('A' <= (a + b)[i] <= 'Z') {
      if i >= |a| {
        assert (a + b)[i] == b[i - |a|];
      }
    }
  }

  /** A piece of text, one character at a time, has no capitals. */
  lemma NoCapitalsOf(s: string)
    requires forall c | c in s :: !('A' <= c <= 'Z')
    ensures NoCapitals(s)
  {
    forall i | 0 <= i < |s| ensures !('A' <= s[i] <= 'Z') {
      assert s[i] in s;
    }
  }

  /** "I" followed by text without capitals lower-cases to "i" and that text. */
  lemma LowerCapitalI(rest: string)
    requires NoCapitals(rest)
    ensures Lower("I" + rest) == "i" + rest
  {
    LowerAppend("I", rest);
  }

  lemma NotHappyLower()
    ensures Lower("I am not happy") == "i am not happy"
  {
    var rest := " am not happy";
    assert "I am not happy" == "I" + rest;
    NoCapitalsOf(rest);
    LowerCapitalI(rest);
  }

  /** A word, one space, then the rest: the word is the first token. */
  lemma TokenizeCons(s: string, w: string, rest: string)
    requires IsWord(w) && s == w + " " + rest
    ensures Tokenize(s) == [w] + Tokenize(rest)
  {
    assert s == w + (" " + rest);
    TokenizeTail(s, w, " " + rest);
    TokenizeSkip(" " + rest, rest);
  }

  /** Four words separated by single spaces tokenise to those words. */
  lemma TokenizeFour(s: string, a: string, b: string, c: string, d: string)
    requires IsWord(a) && IsWord(b) && IsWord(c) && IsWord(d)
    requires s == a + " " + b + " " + c + " " + d
    ensures Tokenize(s) == [a, b, c, d]
  {
    var r2 := c + " " + d;
    var r1 := b + " " + r2;
    assert s == a + " " + r1;
    TokenizeWord(d);
    TokenizeCons(r2, c, d);
    assert Tokenize(r2) == [c, d];
    TokenizeCons(r1, b, r2);
    assert Tokenize(r1) == [b, c, d];
    TokenizeCons(s, a, r1);
  }

  lemma NotHappyTokens()
    ensures !Blank("I am not happy")
    ensures Lower("I am not happy") == "i am not happy"
    ensures Tokenize("i am not happy") == ["i", "am", "not", "happy"]
  {
    assert !IsSpace("I am not happy"[0]);
    NotHappyLower();
    NotHappySplit();
  }

  lemma NotHappySplit()
    ensures Tokenize("i am not happy") == ["i", "am", "not", "happy"]
  {
    TokenizeFour("i am not happy", "i", "am", "not", "happy");
  }

  /** `analyze("I am not happy")`: the one negated hit is the estimate. */
  lemma NotHappyExample()
    ensures AnalyzeSpec("I am not happy") ==
              MoodEstimate(-0.4, 0.7, 0.3, Emotions([EmotionRecord("happy", -0.4, 0.7, true)]))
  {
    NotHappyTokens();
    NotHappyScore();
  }

  lemma ExtremelyExcitedLower()
    ensures Lower("I am extremely excited") == "i am extremely excited"
  {
    var a, b := " am extremely", " excited";
    assert "I am extremely excited" == "I" + (a + b);
    NoCapitalsOf(a);
    NoCapitalsOf(b);
    NoCapitalsAppend(a, b);
    LowerCapitalI(a + b);
  }

  /** "I am extremely excited" lower-cases and tokenises to its four words. */
  lemma ExtremelyExcitedTokens()
    ensures !Blank("I am extremely excited")
    ensures Lower("I am extremely excited") == "i am extremely excited"
    ensures Tokenize("i am extremely excited") == ["i", "am", "extremely", "excited"]
  {
    assert !IsSpace("I am extremely excited"[0]);
    ExtremelyExcitedLower();
    ExtremelyExcitedSplit();
  }

  lemma ExtremelyExcitedSplit()
    ensures Tokenize("i am extremely excited") == ["i", "am", "extremely", "excited"]
  {
    TokenizeFour("i am extremely excited", "i", "am", "extremely", "excited");
  }

  /** `analyze("I am extremely excited")`: the intensifier takes the arousal
      to the clamp 1.0. */
  lemma ExtremelyExcitedExample()
    ensures AnalyzeSpec("I am extremely excited") ==
              MoodEstimate(0.8, 1.0, 0.3, Emotions([EmotionRecord("excited", 0.8, 1.0, false)]))
  {
    ExtremelyExcitedTokens();
    ExtremelyExcitedScore();
  }

  /** A word with a character that the text lacks does not occur in it. */
  lemma MissingCharNotContained(t: string, w: string, j: nat)
    requires j < |w| && w[j] !in t
    ensures !ContainsSub(t, w)
  {
    forall i | 0 <= i <= |t| - |w|
      ensures !OccursAt(t, w, i)
    {
      assert t[i + j] in t;
    }
  }

  lemma {:induction false} CountPresentNone(ws: seq<string>, t: string)
    requires forall k | 0 <= k < |ws| :: !ContainsSub(t, ws[k])
    ensures CountPresent(ws, t) == 0
  {
    if ws != [] {
      CountPresentNone(ws[..|ws| - 1], t);
    }
  }

  /** Text with no word at all, such as "!!!", takes the fallback: three
      marks give arousal 0.6. */
  lemma MarksOnlyExample()
    ensures AnalyzeSpec("!!!") == MoodEstimate(0.0, 0.6, 0.2, Emotions([]))
  {
    var t := "!!!";
    assert !IsSpace(t[0]) && !Blank(t);
    assert Lower(t) == t;
    assert Tokenize(t[2..]) == [] by { assert t[2..][1..] == []; }
    assert Tokenize(t[1..]) == [] by { assert t[1..][1..] == t[2..]; }
    assert Tokenize(t) == [];
    forall k | 0 <= k < |PositiveWords|
      ensures !ContainsSub(t, PositiveWords[k])
    {
      MissingCharNotContained(t, PositiveWords[k], 0);
    }
    forall k | 0 <= k < |NegativeWords|
      ensures !ContainsSub(t, NegativeWords[k])
    {
      MissingCharNotContained(t, NegativeWords[k], 0);
    }
    CountPresentNone(PositiveWords, t);
    CountPresentNone(NegativeWords, t);
    assert t[..2] == "!!" && "!!"[..1] == "!" && "!"[..0] == [];
    assert CountChar(t, '!') == 3;
    assert CountChar(t, '?') == 0;
    assert Fallback(t) == (0.0, 0.6, 0.2);
    Round3OnGrid(0.0);
    Round3OnGrid(0.6);
    Round3OnGrid(0.2);
  }

  /** The fallback counts distinct list words, not occurrences: "good good bad"
      has one positive and one negative word, so it is neutral. */
  lemma DistinctWordsExample()
    ensures CountPresent(PositiveWords, "good good bad") == 1
    ensures CountPresent(NegativeWords, "good good bad") == 1
    ensures Fallback("good good bad").0 == 0.0
  {
    var t := "good good bad";
    assert OccursAt(t, "good", 0);
    assert OccursAt(t, "bad", 10);
    var pw := PositiveWords;
    MissingCharNotContained(t, pw[1], 1);
    MissingCharNotContained(t, pw[2], 0);
    MissingCharNotContained(t, pw[3], 0);
    MissingCharNotContained(t, pw[4], 1);
    MissingCharNotContained(t, pw[5], 1);
    MissingCharNotContained(t, pw[6], 0);
    MissingCharNotContained(t, pw[7], 0);
    CountPresentNone(pw[1..], t);
    assert pw[..1] == ["good"];
    assert CountPresent(pw[..1], t) == 1 by { assert pw[..1][..0] == []; }
    var nw := NegativeWords;
    MissingCharNotContained(t, nw[1], 0);
    MissingCharNotContained(t, nw[2], 1);
    MissingCharNotContained(t, nw[3], 0);
    MissingCharNotContained(t, nw[4], 0);
    MissingCharNotContained(t, nw[5], 1);
    MissingCharNotContained(t, nw[6], 0);
    MissingCharNotContained(t, nw[7], 0);
    assert CountPresent(nw[..1], t) == 1 by { assert nw[..1][..0] == []; }
    PresentPrefixThenNone(pw, t, 1);
    PresentPrefixThenNone(nw, t, 1);
  }

  /** Words after position `m` that do not occur add nothing to the count. */
  lemma {:induction false} PresentPrefixThenNone(ws: seq<string>, t: string, m: nat)
    requires m <= |ws|
    requires forall k | m <= k < |ws| :: !ContainsSub(t, ws[k])
    ensures CountPresent(ws, t) == CountPresent(ws[..m], t)
  {
    if |ws| > m {
      PresentPrefixThenNone(ws[..|ws| - 1], t, m);
      assert ws[..|ws| - 1][..m] == ws[..m];
    } else {
      assert ws[..m] == ws;
    }
  }
}
