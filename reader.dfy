/**
 * The reading screen of `js/main.js`: the loaded story, the syllable
 * pop-up, the press-and-hold gesture that tells a tap from a long press,
 * and the tricky-word statistics kept in localStorage.
 */
module ReaderApp {
  import opened Wrappers
  import opened JsString
  import opened JsObject
  import opened Syllables
  import opened StoryText
  import opened WordStats

  /** `LONG_PRESS_DURATION`: milliseconds a press lasts before it is a long press. */
  const LongPressDuration: nat := 400
  /** Milliseconds after the end of a long press before the pop-up fades out. */
  const HideDelay: nat := 300

  /**
   * What `showSyllablePopup(word)` puts in the pop-up: the split of the
   * trimmed word, or nothing when the split is just the lowered word.
   */
  function PopupText(word: string, phonetics: Entries<string>): Option<string> {
    var syllables := GetSyllables(Trim(word), phonetics);
    if syllables == ToLower(Trim(word)) then None else Some(syllables)
  }

  predicate HasHyphen(s: string) {
    exists k :: 0 <= k < |s| && s[k] == '-'
  }

  /**
   * Outside the dictionary, for a word without hyphens of its own, the
   * pop-up appears exactly when the heuristic inserted a hyphen, and it
   * shows the lowered word cut into pieces.
   */
  lemma PopupOnlyForSplitWords(word: string, phonetics: Entries<string>)
    requires DictionaryEntry(phonetics, ToLower(Trim(word))).None?
    requires forall k :: 0 <= k < |word| ==> word[k] != '-'
    ensures PopupText(word, phonetics).Some? <==> HasHyphen(GetSyllables(Trim(word), phonetics))
    ensures PopupText(word, phonetics).Some? ==> Erase(PopupText(word, phonetics).value) == ToLower(Trim(word))
  {
    var t := Trim(word);
    TrimmedHyphenFree(word);
    HeuristicOnlyInsertsHyphens(t, phonetics);
    var r := GetSyllables(t, phonetics);
    assert PopupText(word, phonetics) == (if r == ToLower(t) then None else Some(r));
    SplitDiffersByHyphen(r, ToLower(t));
  }

  lemma TrimmedHyphenFree(word: string)
    requires forall k :: 0 <= k < |word| ==> word[k] != '-'
    ensures forall k :: 0 <= k < |Trim(word)| ==> Trim(word)[k] != '-'
  {
  }

  /** A string whose erasure is a hyphen-free `lower` differs from `lower` exactly when it holds a hyphen. */
  lemma SplitDiffersByHyphen(r: string, lower: string)
    requires Erase(r) == lower
    requires forall k :: 0 <= k < |lower| ==> lower[k] != '-'
    ensures r != lower <==> HasHyphen(r)
  {
    if !HasHyphen(r) {
      EraseHyphenFree(r);
    }
  }

  /** The comparison as written: the split of the trimmed word against the untrimmed word. */
  function PopupTextAsWritten(word: string, phonetics: Entries<string>): Option<string> {
    var syllables := GetSyllables(Trim(word), phonetics);
    if syllables == ToLower(word) then None else Some(syllables)
  }

  /** As written, a word that reaches the page with a leading tab shows an unsplit pop-up. */
  lemma TabbedWordAsWritten()
    ensures PopupTextAsWritten("\tcat", []) == Some("cat")
  {
    TrimTabbedCat();
  }

  /** Comparing with the trimmed word, the same word shows no pop-up. */
  lemma TabbedWordCorrected()
    ensures PopupText("\tcat", []) == None
  {
    TrimTabbedCat();
  }

  /** On a word with no surrounding whitespace the comparison as written and the corrected one agree. */
  lemma PopupAgreesOnTrimmedWords(word: string, phonetics: Entries<string>)
    requires Trim(word) == word
    ensures PopupTextAsWritten(word, phonetics) == PopupText(word, phonetics)
  {
  }

  /** As written, trailing whitespace on the word text, as in "cat\r", also gives an unsplit pop-up. */
  lemma TrailingWhitespaceAsWritten()
    ensures PopupTextAsWritten("cat\r", []) == Some("cat")
    ensures PopupText("cat\r", []) == None
  {
    assert TrimStartIndex("cat\r") == 0;
    assert TrimEndIndex("cat\r") == 3 by {
      assert TrimEndIndex("cat\r"[..3]) == 3;
      assert "cat\r"[..3] == "cat";
    }
    assert Trim("cat\r") == "cat" by {
      assert "cat\r"[0..3] == "cat";
    }
    assert GetSyllables("cat", []) == "cat" by {
      TrimTabbedCat();
    }
    assert ToLower("cat") == "cat";
    assert ToLower("cat\r") != "cat";
  }

  lemma TrimTabbedCat()
    ensures Trim("\tcat") == "cat"
    ensures GetSyllables("cat", []) == "cat"
    ensures ToLower("\tcat") != "cat"
  {
    assert TrimStartIndex("\tcat") == 1 by {
      assert "\tcat"[1..] == "cat";
    }
    assert TrimEndIndex("\tcat") == 4;
    assert "\tcat"[1..4] == "cat";
    assert ToLower("cat") == "cat";
  }

  /**
   * A press end is a tap when the press set a timer and began on a word,
   * unless it was a long press that showed the pop-up.
   */
  predicate Tap(pressTimer: Option<nat>, activeWord: Option<string>, isLongPress: bool, popupWasShown: bool) {
    pressTimer.Some? && activeWord.Some? && !(isLongPress && popupWasShown)
  }

  /** The pop-up. */
  datatype Popup = Popup(text: string, shown: bool)

  class Reader {
    /** `currentStoryPath`, `currentPhonetics`: the folder and dictionary of the loaded story. */
    var storyPath: string
    var phonetics: Entries<string>
    /** What the story area shows. */
    var display: StoryView
    /** The localStorage item holding the statistics; `None` when there is none. */
    var storedStats: Option<Stats>

    /** `pressTimer`: the id of the last long-press timer, until the press ends. */
    var pressTimer: Option<nat>
    /** The long-press timers scheduled and neither fired nor cleared. */
    var armed: set<nat>
    /** The id the next `setTimeout` returns. */
    var nextTimer: nat
    var isLongPress: bool
    var popupWasShown: bool
    /** The text of `activeWordElement`, the word the press began on. */
    var activeWord: Option<string>
    var popup: Popup
    /** Fade-outs scheduled and not yet run. */
    var pendingHides: nat
    /** The words handed to speech, in order. */
    var spoken: seq<string>

    /** Every timer id handed out so far lies below `nextTimer`. */
    predicate Valid()
      reads this`armed, this`nextTimer, this`pressTimer
    {
      && (forall t :: t in armed ==> t < nextTimer)
      && (pressTimer.Some? ==> pressTimer.value < nextTimer)
    }

    /** The page as loaded: the statistics already in localStorage, nothing pressed. */
    constructor (stored: Option<Stats>)
      ensures Valid()
      ensures storedStats == stored
      ensures storyPath == "" && phonetics == [] && display == Prompt
      ensures pressTimer == None && armed == {} && !isLongPress && !popupWasShown && activeWord == None
      ensures popup == Popup("", false) && pendingHides == 0 && spoken == []
    {
      storyPath := "";
      phonetics := [];
      display := Prompt;
      storedStats := stored;
      pressTimer := None;
      armed := {};
      nextTimer := 1;
      isLongPress := false;
      popupWasShown := false;
      activeWord := None;
      popup := Popup("", false);
      pendingHides := 0;
      spoken := [];
    }

    /** `loadWordStats()`: the stored dictionary, or an empty one. */
    function LoadWordStats(): (s: Stats)
      reads this`storedStats
      ensures storedStats.None? ==> s == []
      ensures storedStats.Some? ==> s == storedStats.value
    {
      storedStats.GetOr([])
    }

    /**
     * `renderDashboard()`: the rows it lists, one per stored word,
     * most-tapped first. Every change of the statistics redraws the
     * dashboard, so the rows on screen are always these.
     */
    function DashboardRows(): (rows: Stats)
      reads this`storedStats
      ensures SortedByCount(rows)
      ensures multiset(rows) == multiset(LoadWordStats())
    {
      DashboardSorted(LoadWordStats());
      DashboardIsPermutation(LoadWordStats());
      SortByCount(LoadWordStats())
    }

    /** `trackWord(word)`: one more tap on `word`, saved. */
    method TrackWord(word: string)
      modifies this`storedStats
      ensures storedStats == Some(Tracked(old(LoadWordStats()), word))
      ensures LoadWordStats() == Tracked(old(LoadWordStats()), word)
    {
      var stats := LoadWordStats();
      storedStats := Some(Tracked(stats, word));
    }

    /** `clearAllStats()` after the user answered the confirmation with `confirmed`. */
    method ClearAllStats(confirmed: bool)
      modifies this`storedStats
      ensures confirmed ==> storedStats == None && LoadWordStats() == [] && DashboardRows() == []
      ensures !confirmed ==> storedStats == old(storedStats)
    {
      if confirmed {
        storedStats := None;
      }
    }

    /** `renderStory()` on the text in the input box. */
    method RenderStoryText(text: string)
      modifies this`display
      ensures display == RenderStory(text, storyPath)
      ensures display.Story? ==> Sources(display.tokens) == text
    {
      display := RenderStory(text, storyPath);
      if display.Story? {
        RenderedStoryKeepsText(text, storyPath);
      }
    }

    /** The end of a successful `handleStorySelection`: the story's folder, text and dictionary are in place. */
    method StoryLoaded(path: string, text: string, dictionary: Entries<string>)
      modifies this`storyPath, this`phonetics, this`display
      ensures storyPath == path && phonetics == dictionary
      ensures display == RenderStory(text, path)
    {
      storyPath := path;
      phonetics := dictionary;
      RenderStoryText(text);
    }

    /**
     * `handlePressStart`: `target` is the text of the word element the
     * press began on, if any. A press elsewhere forgets the active word
     * and changes nothing else.
     */
    method PressStart(target: Option<string>)
      requires Valid()
      modifies this`activeWord, this`isLongPress, this`popupWasShown, this`pressTimer, this`armed, this`nextTimer
      ensures Valid()
      ensures activeWord == target
      ensures target.None? ==>
        && pressTimer == old(pressTimer) && armed == old(armed) && nextTimer == old(nextTimer)
        && isLongPress == old(isLongPress) && popupWasShown == old(popupWasShown)
      ensures target.Some? ==>
        && !isLongPress && !popupWasShown
        && pressTimer == Some(old(nextTimer)) && armed == old(armed) + {old(nextTimer)}
        && nextTimer == old(nextTimer) + 1
    {
      activeWord := target;
      if target.None? {
        return;
      }
      isLongPress := false;
      popupWasShown := false;
      pressTimer := Some(nextTimer);
      armed := armed + {nextTimer};
      nextTimer := nextTimer + 1;
    }

    /** `showSyllablePopup(word)`: the pop-up appears only for a word the split changed. */
    method ShowSyllablePopup(word: string)
      modifies this`popupWasShown, this`popup
      ensures popupWasShown <==> PopupText(word, phonetics).Some?
      ensures popupWasShown ==> popup == Popup(PopupText(word, phonetics).value, true)
      ensures !popupWasShown ==> popup == old(popup)
    {
      popupWasShown := false;
      var text := PopupText(word, phonetics);
      if text.None? {
        return;
      }
      popup := Popup(text.value, true);
      popupWasShown := true;
    }

    /**
     * The long-press timer `t` fires. It marks the press as long and shows
     * the pop-up for the active word; with no active word the callback
     * stops at its null dereference, after the flag is set. The timer id
     * stays in `pressTimer`.
     */
    method TimerFires(t: nat)
      requires Valid() && t in armed
      modifies this`armed, this`isLongPress, this`popupWasShown, this`popup
      ensures Valid()
      ensures armed == old(armed) - {t} && isLongPress
      ensures old(activeWord).Some? ==> (popupWasShown <==> PopupText(old(activeWord).value, phonetics).Some?)
      ensures old(activeWord).Some? && popupWasShown ==> popup == Popup(PopupText(old(activeWord).value, phonetics).value, true)
      ensures old(activeWord).None? ==> popupWasShown == old(popupWasShown) && popup == old(popup)
    {
      armed := armed - {t};
      isLongPress := true;
      assert Valid();
      if activeWord.Some? {
        ShowSyllablePopup(activeWord.value);
      }
    }

    /**
     * `handlePressEnd`: a press whose timer was set is a tap unless a long
     * press showed the pop-up; a tap speaks and counts the trimmed,
     * lowered word. Afterwards no press is under way.
     */
    method PressEnd()
      requires Valid()
      modifies this`pressTimer, this`armed, this`pendingHides, this`spoken, this`storedStats,
        this`activeWord, this`isLongPress
      ensures Valid()
      ensures pressTimer == None && activeWord == None && !isLongPress
      ensures old(pressTimer).Some? ==> armed == old(armed) - {old(pressTimer).value}
      ensures old(pressTimer).None? ==> armed == old(armed)
      ensures old(isLongPress) && popupWasShown ==> pendingHides == old(pendingHides) + 1
      ensures !(old(isLongPress) && popupWasShown) ==> pendingHides == old(pendingHides)
      ensures Tap(old(pressTimer), old(activeWord), old(isLongPress), popupWasShown) ==>
        && spoken == old(spoken) + [ToLower(Trim(old(activeWord).value))]
        && storedStats == Some(Tracked(old(LoadWordStats()), ToLower(Trim(old(activeWord).value))))
      ensures !Tap(old(pressTimer), old(activeWord), old(isLongPress), popupWasShown) ==>
        spoken == old(spoken) && storedStats == old(storedStats)
    {
      var wasShortPress := pressTimer.Some?;
      if pressTimer.Some? {
        armed := armed - {pressTimer.value};
      }
      pressTimer := None;
      if isLongPress && popupWasShown {
        pendingHides := pendingHides + 1;
      } else if wasShortPress && activeWord.Some? {
        SpeakAndTrack(ToLower(Trim(activeWord.value)));
      }
      activeWord := None;
      isLongPress := false;
    }

    /** A tap on the word `word`: it is spoken and counted. */
    method SpeakAndTrack(word: string)
      modifies this`spoken, this`storedStats
      ensures spoken == old(spoken) + [word]
      ensures storedStats == Some(Tracked(old(LoadWordStats()), word))
    {
      spoken := spoken + [word];
      TrackWord(word);
    }

    /** A scheduled `hideSyllablePopup` runs: the pop-up fades out. */
    method HideFires()
      requires pendingHides > 0
      modifies this`pendingHides, this`popup
      ensures pendingHides == old(pendingHides) - 1
      ensures popup == old(popup).(shown := false)
    {
      pendingHides := pendingHides - 1;
      popup := popup.(shown := false);
    }

    /**
     * A press on `word` held until its timer fires: the press is long, and
     * the pop-up is up exactly when the split of the word changed it.
     */
    method HoldPastDelay(word: string)
      requires Valid()
      modifies this`activeWord, this`isLongPress, this`popupWasShown, this`pressTimer, this`armed, this`nextTimer,
        this`popup
      ensures Valid()
      ensures activeWord == Some(word) && pressTimer.Some? && isLongPress
      ensures popupWasShown <==> PopupText(word, phonetics).Some?
      ensures popupWasShown ==> popup == Popup(PopupText(word, phonetics).value, true)
    {
      PressStart(Some(word));
      TimerFires(pressTimer.value);
    }

    /**
     * A press held past the long-press delay on a word whose split the
     * pop-up would not show still counts as a tap when it ends, because
     * the timer never clears `pressTimer`.
     */
    method LongPressOnUnsplitWord(word: string)
      requires Valid()
      requires PopupText(word, phonetics) == None
      modifies this`activeWord, this`isLongPress, this`popupWasShown, this`pressTimer, this`armed, this`nextTimer,
        this`popup, this`pendingHides, this`spoken, this`storedStats
      ensures Valid()
      ensures spoken == old(spoken) + [ToLower(Trim(word))]
      ensures storedStats == Some(Tracked(old(LoadWordStats()), ToLower(Trim(word))))
    {
      HoldPastDelay(word);
      PressEnd();
    }

    /** A long press that shows the pop-up is not a tap: nothing is spoken or counted, and the pop-up fades. */
    method LongPressOnSplitWord(word: string)
      requires Valid()
      requires PopupText(word, phonetics).Some?
      modifies this`activeWord, this`isLongPress, this`popupWasShown, this`pressTimer, this`armed, this`nextTimer,
        this`popup, this`pendingHides, this`spoken, this`storedStats
      ensures Valid()
      ensures spoken == old(spoken) && storedStats == old(storedStats)
      ensures popup == Popup(PopupText(word, phonetics).value, true) && pendingHides == old(pendingHides) + 1
    {
      HoldPastDelay(word);
      PressEnd();
    }
  }
}
