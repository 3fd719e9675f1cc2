/** The mock content classifier of `client/src/utils/hateDetection.ts`: a fixed lexicon of
    sensitive words, matched as plain substrings of the lower-cased text, and a confidence
    score computed from the number of matches and the number of space-separated pieces. */
module HateDetection {
  import opened Wrappers
  import opened Seqs
  import opened Text

  /** `sensitiveWords`, in the order the source lists them. */
  const SensitiveWords: seq<string> := [
    "hate", "stupid", "idiot", "dumb", "loser", "ugly", "terrible",
    "racist", "sexist", "offensive", "disgusting", "awful", "nasty", "horrible"
  ]

  const ReasonPrefix: string := "Detected sensitive language: "

  /** `HateSpeechResult`; `reason` is the optional property of the interface. */
  datatype HateSpeechResult = HateSpeechResult(isHateSpeech: bool, confidence: real, reason: Option<string>)

  const NotFlagged: HateSpeechResult := HateSpeechResult(false, 0.0, None)

  /** `lexicon.filter(word => lowerText.includes(word))`. */
  function Matches(lexicon: seq<string>, lowerText: string): (found: seq<string>)
    ensures |found| <= |lexicon|
    ensures forall i :: 0 <= i < |found| ==> found[i] in lexicon && Contains(lowerText, found[i])
    ensures forall i :: 0 <= i < |lexicon| && Contains(lowerText, lexicon[i]) ==> lexicon[i] in found
  {
    Filter(lexicon, w => Contains(lowerText, w))
  }

  /** The source's `foundWords`: the matches against `sensitiveWords`. */
  function FoundWords(lowerText: string): (found: seq<string>) {
    Matches(SensitiveWords, lowerText)
  }

  /** `Math.min(0.3 + density * 2 + matches * 0.15, 0.95)` with
      `density = matches / pieces`. */
  function Confidence(matches: nat, pieces: nat): (c: real)
    requires pieces >= 1
    ensures 0.0 <= c <= 0.95
    ensures matches >= 1 ==> c >= 0.45
  {
    var density := matches as real / pieces as real;
    assert density >= 0.0;
    var raw := 0.3 + density * 2.0 + matches as real * 0.15;
    if raw < 0.95 then raw else 0.95
  }

  /** The body of `detectHateSpeech`, for any lexicon of lower-case words. */
  function Classify(lexicon: seq<string>, text: string): (r: HateSpeechResult)
    ensures text == "" ==> r == NotFlagged
    ensures r.isHateSpeech <==> text != "" && Matches(lexicon, Lower(text)) != []
    ensures r.isHateSpeech <==> r.reason.Some?
    ensures !r.isHateSpeech ==> r == NotFlagged
    ensures 0.0 <= r.confidence <= 0.95
    ensures r.isHateSpeech ==> 0.45 <= r.confidence
    ensures r.isHateSpeech ==> r.reason == Some(ReasonPrefix + Join(Matches(lexicon, Lower(text)), ", "))
  {
    if text == [] then NotFlagged
    else
      var lowerText := Lower(text);
      var found := Matches(lexicon, lowerText);
      if |found| > 0 then
        var pieces := |SplitOnSpace(lowerText)|;
        var confidence := Confidence(|found|, pieces);
        HateSpeechResult(confidence > 0.3, confidence, Some(ReasonPrefix + Join(found, ", ")))
      else
        NotFlagged
  }

  /** `detectHateSpeech(text)`: the classifier over `sensitiveWords`. */
  function DetectHateSpeech(text: string): (r: HateSpeechResult)
    ensures text == "" ==> r == NotFlagged
    ensures r.isHateSpeech <==> text != "" && FoundWords(Lower(text)) != []
    ensures !r.isHateSpeech ==> r == NotFlagged
    ensures r.isHateSpeech ==> 0.45 <= r.confidence <= 0.95
    ensures r.isHateSpeech ==> r.reason == Some(ReasonPrefix + Join(FoundWords(Lower(text)), ", "))
  {
    Classify(SensitiveWords, text)
  }

  // ---- properties -------------------------------------------------------------

  /** The found words are exactly the lexicon entries that occur in the text: each
      found word is in the lexicon and occurs, and each lexicon entry that occurs is
      found. */
  lemma FoundWordsExactly(lowerText: string, w: string)
    ensures w in FoundWords(lowerText) <==> w in SensitiveWords && Contains(lowerText, w)
  {
    var found := FoundWords(lowerText);
    if w in found {
      var i :| 0 <= i < |found| && found[i] == w;
    }
    if w in SensitiveWords && Contains(lowerText, w) {
      var i :| 0 <= i < |SensitiveWords| && SensitiveWords[i] == w;
    }
  }

  /** The empty text holds no lexicon word, since no lexicon word is empty. */
  lemma NothingFoundInEmpty()
    ensures FoundWords(Lower("")) == []
  {
    assert Lower("") == "";
    assert forall i :: 0 <= i < |SensitiveWords| ==> SensitiveWords[i] != "";
    MatchesInEmpty(SensitiveWords);
  }

  /** No word of a lexicon without the empty word occurs in the empty text. */
  lemma {:induction false} MatchesInEmpty(lexicon: seq<string>)
    requires forall i :: 0 <= i < |lexicon| ==> lexicon[i] != ""
    ensures Matches(lexicon, "") == []
  {
    if lexicon != [] {
      assert !Contains("", lexicon[0]);
      MatchesInEmpty(lexicon[1..]);
      assert Matches(lexicon, "") == Matches(lexicon[1..], "");
    }
  }

  /** The found words keep lexicon order: splitting the lexicon anywhere splits the
      result in the same place. */
  lemma FoundWordsInLexiconOrder(lowerText: string, k: nat)
    requires k <= |SensitiveWords|
    ensures FoundWords(lowerText)
         == Filter(SensitiveWords[..k], w => Contains(lowerText, w))
          + Filter(SensitiveWords[k..], w => Contains(lowerText, w))
  {
    assert SensitiveWords == SensitiveWords[..k] + SensitiveWords[k..];
    FilterAppend(SensitiveWords[..k], SensitiveWords[k..], w => Contains(lowerText, w));
  }

  /** The lexicon has no repeated entry, so no word is found twice. */
  lemma FoundWordsDistinct(lowerText: string)
    ensures NoDuplicates(FoundWords(lowerText))
  {
    assert NoDuplicates(SensitiveWords);
    FilterKeepsNoDuplicates(SensitiveWords, w => Contains(lowerText, w));
  }

  lemma {:induction false} FilterKeepsNoDuplicates(s: seq<string>, keep: string -> bool)
    requires NoDuplicates(s)
    ensures NoDuplicates(Filter(s, keep))
  {
    if s != [] {
      FilterKeepsNoDuplicates(s[1..], keep);
      var rest := Filter(s[1..], keep);
      assert forall i :: 0 <= i < |rest| ==> rest[i] in s[1..];
      assert s[0] !in s[1..];
    }
  }

  /** The threshold `confidence > 0.3` never decides anything: a text is flagged
      exactly when some lexicon word occurs in it. */
  lemma ThresholdNeverDecides(text: string)
    ensures DetectHateSpeech(text).isHateSpeech
        <==> exists w :: w in SensitiveWords && Contains(Lower(text), w)
  {
    var found := FoundWords(Lower(text));
    if text == "" {
      NothingFoundInEmpty();
    }
    if found != [] {
      FoundWordsExactly(Lower(text), found[0]);
    }
    if exists w :: w in SensitiveWords && Contains(Lower(text), w) {
      var w :| w in SensitiveWords && Contains(Lower(text), w);
      FoundWordsExactly(Lower(text), w);
    }
  }

  /** A non-empty text splits into at least one piece, so the density is a well-defined
      positive number whenever there is a match. */
  lemma DensityWellDefined(lexicon: seq<string>, text: string)
    requires text != ""
    requires Matches(lexicon, Lower(text)) != []
    ensures |SplitOnSpace(Lower(text))| == Occurrences(Lower(text), ' ') + 1
    ensures |Matches(lexicon, Lower(text))| as real / |SplitOnSpace(Lower(text))| as real > 0.0
  {
    SplitCount(Lower(text));
  }

  /** Case does not matter: a text and its lower-cased form get the same result. */
  lemma CaseInsensitive(text: string)
    ensures DetectHateSpeech(text) == DetectHateSpeech(Lower(text))
  {
    LowerIdempotent(text);
  }
}
